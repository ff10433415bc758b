# Ducks against dogs: card-variant rules

A Dafny model of the card rules in `src/index.js` of a two-player card battler
in which ducks fight dogs. Cards are instances of JavaScript classes, and the
rules live in hook methods that those classes override. The model covers:

- **Classification.** Duck, dog and trasher capability flags come from the
  class hierarchy. They decide a creature's type line, checked in a fixed
  order.
- **Descriptions.** Each class layers its own lines on top of `getDescriptions`.
- **Damage-modifier hooks.** Trasher takes one point less damage, clamped at
  zero, after an ability animation. Lad adds a triangular population bonus to
  the damage it deals and subtracts it from the damage it takes.
- **Lad's counter.** One counter is shared by the whole Lad class. It rises
  when a Lad comes into play and falls before one is removed.
- **Rogue's theft.** Before attacking, a Rogue moves the damage hooks that the
  first opposing card's class prototype owns onto its own instance. They are
  deleted from the prototype, so every card of that class loses them.
- **Gatling's area attack.** It queues one animation step and then one step
  per opposing slot, in table order. The caller's continuation runs only after
  the last step.

Modules:

- `Cards` holds the classes, their lineage, the table and the events the core
  emits.
- `Classify` holds the type line.
- `LadCounter` holds the counter and the bonus.
- `Hooks` holds the two-level hook tables, JavaScript property lookup and the
  hook bodies.
- `Theft` holds Rogue's `beforeAttack`.
- `Descriptions` holds `getDescriptions`.
- `Gatling` holds the attack and the sequential task queue.

State is an immutable `World`:

- the own damage hooks of each class prototype;
- the own damage hooks of each card instance;
- Lad's counter.

Theft and lifecycle transitions are pure functions from one `World` to the
next. Callbacks become an event trace:

- `Resume(v)` is a hook's continuation called with `v`;
- `Continue` is the caller's continuation;
- `StepDone` is a queue step's done signal;
- `SignalAbility`, `ShowAttack` and `UpdateView` are requests to the view.

What runs outside this file is an input or an event:

- the view layer;
- `Card`'s base `getDescriptions`, which is a `base` parameter;
- `dealDamageToCreature`, which is a `DealDamage(amount, id)` event.

Behaviours of the code that the model keeps as written:

- `Trasher.modifyTakenDamage` calls its continuation only after the view
  acknowledges the ability animation, and never when the card has no view
  (src/index.js:56). `TrasherModifyTaken` returns an empty trace in that case.
- `Gatling.attack` calls `this.view.showAttack` without checking for a view
  (src/index.js:89). Without one, the first step fails and the continuation
  never runs; `Attack` returns an empty trace in that case.
- Lad extends `Card`, not `Creature`, so it has no type line. Its own line goes
  in front of Card's lines, not after them.
- `beforeAttack` robs only the class of the first occupied opposing slot and
  does nothing more. The damage that follows is the base class's attack, which
  is not part of this model.
- The class `Trasher` extends `Dog`. So `isDog` is true for every Trasher, and
  `getCreatureDescription` never reaches its `'громила'` branch. Nor does any
  class reach `'Утка-Собака'`.

## Model

| member | source | states |
|---|---|---|
| Cards.Lineage | src/index.js:43-49 | A class's lineage starts with the class itself; only Trasher has a constructible ancestor, and that ancestor is Dog |
| Cards.FirstOccupied | src/index.js:115 | The found index is occupied and every earlier slot is empty; there is no result iff every slot is empty |
| Classify.CapsOf | src/index.js:7-18 | Only Duck has the duck flag; Dog and Trasher (which extends Dog) have the dog flag; only Trasher has the trasher flag |
| Classify.CreatureDescription | src/index.js:21-35 | Each of the five type names is returned iff its own check passes and every earlier check failed; the five cases partition all flag combinations |
| Classify.TrasherIsDescribedAsDog | src/index.js:49 | Every Trasher is also a Dog and is described as 'Собака', never as 'громила' |
| Classify.UnreachableNames | src/index.js:21-35 | No class of the game is described as 'Утка-Собака' or 'громила' |
| Classify.NamesOfVariants | src/index.js:21-35 | Exactly Duck gets 'Утка'; exactly Dog and Trasher get 'Собака'; exactly Gatling, Rogue and Lad would get 'Существо', though Lad's descriptions never ask for a type line |
| LadCounter.Bonus | src/index.js:146-149 | The bonus times two equals count*(count+1), so the source's real division never leaves a fraction; the bonus is never negative, even for a negative count |
| LadCounter.BonusIsTriangular | src/index.js:146-149 | For a count n >= 0 the bonus equals 1 + 2 + ... + n |
| LadCounter.BonusStep | src/index.js:146-149 | Raising the count by one raises the bonus by the new count |
| LadCounter.EnterPlay | src/index.js:151-154 | Coming into play stores exactly one more than the counter read, where an unset counter reads as 0 |
| LadCounter.LeavePlay | src/index.js:156-159 | Removal stores exactly one less than the counter read |
| LadCounter.EnterThenLeave | src/index.js:151-159 | Enter then leave restores the count and the bonus every Lad reads; an unset counter becomes an explicit 0 |
| LadCounter.EnterRaisesBonus | src/index.js:146-154 | After one more Lad enters, every Lad's bonus grows by the new count |
| LadCounter.CounterTracksPopulation | src/index.js:138-159 | From an unset counter, any history where each Lad enters before it leaves and never enters twice leaves the counter equal to the number of Lads in play, and the bonus equal to the triangular number of that population |
| Hooks.Resolve | src/index.js:121-125 | A card answers a hook from its own properties first (where theft puts it), then from its class prototype (where theft deletes it), and otherwise from the default identity hook |
| Hooks.TrasherModifyTaken | src/index.js:54-59 | With a view: the ability animation comes first, then the continuation fires exactly once with max(value-1, 0), which is >= 0 and <= value. Without a view the continuation never fires |
| Hooks.LadModifyDealt | src/index.js:161-164 | The continuation fires at once, exactly once, with value + count*(count+1)/2; an unset or zero counter leaves the value unchanged |
| Hooks.LadModifyTaken | src/index.js:166-169 | The continuation fires at once, exactly once, with max(value - bonus, 0): never negative, never more than value, and exactly value - bonus when that is not negative |
| Hooks.InitialHookBehaviour | src/index.js:161-169 | In the starting world a Lad deals value + bonus and takes max(value - bonus, 0), reading the shared counter; Dog, Duck, Gatling and Rogue pass every hook value through unchanged |
| Hooks.InitialTrasherBehaviour | src/index.js:54-59 | In the starting world a Trasher with a view takes max(value-1, 0) after the ability animation and deals damage unchanged |
| Theft.Steal | src/index.js:118-126 | Every hook the target's prototype owns moves onto the Rogue instance under the same function and leaves the prototype. Hooks the prototype does not own, other classes, other instances and the Lad counter are unchanged |
| Theft.StealIdempotent | src/index.js:121-126 | A second theft from the same class, by any Rogue, changes nothing |
| Theft.StealStripsSiblings | src/index.js:118-126 | Every other card of the robbed class, present or future, that had the prototype's hook now falls through to its ancestors' hooks or the default |
| Theft.StealArmsRogue | src/index.js:123 | After the theft the Rogue answers the stolen hook name with the stolen function |
| Theft.BeforeAttack | src/index.js:114-130 | With an empty opposing table, only the continuation fires and the world is unchanged. Otherwise the class of the first occupied slot is robbed, then the view is updated, then the continuation fires exactly once, last |
| Theft.RobbingLads | src/index.js:114-130 | After robbing Lads, the Rogue deals value + bonus and takes max(value - bonus, 0), both read from Lad's counter; every Lad passes all hook values through unchanged |
| Theft.RobbingTrashers | src/index.js:114-130 | After robbing Trashers, Trashers take damage unchanged. The Rogue takes max(value-1, 0) after its own ability animation, or never resumes without a view |
| Descriptions.CreatureLines | src/index.js:38-40 | A creature's description is its type line followed by exactly Card's lines |
| Descriptions.TrasherLines | src/index.js:61-63 | Trasher's description is 'Собака', then Card's lines, then its ability line last |
| Descriptions.GatlingLines | src/index.js:104-106 | Gatling's description is 'Существо', then Card's lines, then its ability line last |
| Descriptions.LadLines | src/index.js:171-178 | Lad has no type line. Its description ends with Card's lines and has one extra first line, the ability line, iff its prototype still owns modifyDealedDamageToCreature or modifyTakenDamage |
| Descriptions.Describe | src/index.js:37-41 | Every creature's description starts with its type line followed by Card's lines |
| Descriptions.LadLineIffOwned | src/index.js:171-178 | The line 'Чем их больше, тем они сильнее' appears in Lad's description iff the Lad prototype owns one of the two hooks |
| Descriptions.TheftSilencesLad | src/index.js:171-178 | After any theft from the Lad class, Lad's description lacks that line |
| Descriptions.OthersIgnoreTheft | src/index.js:61-63 | The descriptions of all classes other than Lad do not depend on the hook tables: a robbed Trasher still shows its ability line |
| Gatling.AttackSteps | src/index.js:85-99 | The queue has exactly 1 + the table's length steps: the attack animation first, then slot i's step at position i+1 |
| Gatling.StepTrace | src/index.js:92-98 | Each step signals done exactly once, as its last event. An empty slot only signals done. An occupied slot receives exactly one 2-damage call. The animation step strikes nobody |
| Gatling.FlattenSignals | src/index.js:89-101 | A run of n steps emits exactly n done signals and never the caller's continuation |
| Gatling.SlotStrikes | src/index.js:91-99 | The slot steps strike exactly the occupied slots, in table order, with 2 damage each |
| Gatling.RunQueue | src/index.js:101 | The queue runs the steps' traces one after another, in queue order, and then calls the continuation, exactly once and last |
| Gatling.Attack | src/index.js:85-102 | With a view, the attack's trace is exactly the queue of `AttackSteps` run in order, then the continuation: it starts with the animation, strikes exactly the occupied slots in table order for 2 each, and continues once, last. Without a view the first step fails and nothing happens, not even the continuation |
| Gatling.AttackSignalsEachStep | src/index.js:89-101 | The run of Gatling's queue (what `Attack` returns with a view) holds exactly 1 + table-length done signals: one for the animation and one for every slot, empty or not |
| Gatling.ThreeSlotAttack | src/index.js:85-102 | For [card A, empty, card B] the run of Gatling's queue (what `Attack` returns with a view) is: animation, done, strike A, done, done, strike B, done, continuation |

## Left out

- `Card`, `Game`, `TaskQueue` and `SpeedRate` are imported, but their source
  is not part of this model. The defaults that come from `Card` are inputs:
  - the identity damage hooks;
  - the base `getDescriptions` lines, as the `base` parameter;
  - `dealDamageToCreature`, as the `DealDamage` event;
  - the base `doAfterComingIntoPlay` and `doBeforeRemoving`.
- Gatling.Attack: assumes every struck card's damage handling calls back. If `dealDamageToCreature` runs a struck Trasher's `modifyTakenDamage` and that Trasher has no view, the queue would stall at that step; `dealDamageToCreature` is not part of this model.
- Gatling.StepTrace: assumes that `dealDamageToCreature` and the view's
  `showAttack` each call their done callback exactly once. Their code is not
  part of this model, so the model does not follow the damage to power loss
  or card removal.
- The damage pipeline that chains an attacker's hook into a defender's hook
  lives in `Card`, so it is not modelled. The hooks are modelled one call at a
  time.
- The view layer (`signalAbility`, `showAttack`, `updateView`) becomes request
  events. The acknowledgment is implied by the order of the trace. There is no
  rendering and no asynchronous timing.
- The hook tables hold only the three damage hooks that theft can move
  (`modifyDealedDamageToCreature`, `modifyDealedDamageToPlayer`,
  `modifyTakenDamage`). The classes' other methods are never stolen.
- Hooks get no target card and no game context. None of the hook bodies here
  reads them.
- The counter holds integers only. The source's `|| 0` also maps NaN to 0, and
  no NaN can arise here.
- `Duck.quacks` and `Duck.swims` only write to the console.
- The constructors' names and power values are only passed to `Card`.
- Deck construction, `SpeedRate.set` and the `game.play` start-up with its
  winner alert are glue and I/O.
