/**
  The damage-modifier hooks: where a card finds them (its own properties, then
  its class prototypes, then Card's default) and what each implementation
  does with a damage value. A hook reports its result by calling its
  continuation, which appears here as a `Resume(value)` event.
 */
module Hooks {
  import opened Cards
  import opened LadCounter

  /** The three damage-modifier property names. */
  datatype HookName = DealtToCreature | DealtToPlayer | Taken

  /** The function objects that can sit under a hook name. `Identity` is the
      pass-through default inherited from Card. */
  datatype Impl = Identity | LadDealt | LadTaken | TrasherTaken

  /** Own properties of a prototype or of an instance: name to function. */
  type HookTable = map<HookName, Impl>

  /** Everything the hooks read or theft writes: each class prototype's own
      hooks, each instance's own hooks, and Lad's shared counter. */
  datatype World = World(variantHooks: map<Variant, HookTable>,
                         instanceHooks: map<Id, HookTable>,
                         ladCount: Counter)

  /** The hooks a class declares in its body. */
  function Declared(v: Variant): HookTable
  {
    match v
    case Lad => map[DealtToCreature := LadDealt, Taken := LadTaken]
    case Trasher => map[Taken := TrasherTaken]
    case _ => map[]
  }

  /** The world when the game starts: prototypes as declared, no instance has
      own hooks, the Lad counter has never been written. */
  function Initial(): World
  {
    World(map[Dog := Declared(Dog), Trasher := Declared(Trasher), Duck := Declared(Duck),
              Gatling := Declared(Gatling), Rogue := Declared(Rogue), Lad := Declared(Lad)],
          map[], Unset)
  }

  /** Own hooks of a class prototype (none when the class has no entry). */
  function ProtoOf(w: World, v: Variant): HookTable
  {
    if v in w.variantHooks then w.variantHooks[v] else map[]
  }

  /** Own hooks of an instance (none when it has no entry). */
  function OwnOf(w: World, id: Id): HookTable
  {
    if id in w.instanceHooks then w.instanceHooks[id] else map[]
  }

  /** In the starting world every prototype holds exactly what its class declares. */
  lemma InitialPrototypes(v: Variant)
    ensures ProtoOf(Initial(), v) == Declared(v)
    ensures forall id :: OwnOf(Initial(), id) == map[]
  {
    match v
    case Dog => case Trasher => case Duck => case Gatling => case Rogue => case Lad =>
  }

  /** Prototype-chain lookup along `chain`, ending in Card's default. */
  function ChainLookup(w: World, chain: seq<Variant>, h: HookName): (r: Impl)
    ensures r != Identity ==> exists i :: 0 <= i < |chain| && h in ProtoOf(w, chain[i])
    ensures |chain| > 0 && h in ProtoOf(w, chain[0]) ==> r == ProtoOf(w, chain[0])[h]
  {
    if |chain| == 0 then Identity
    else if h in ProtoOf(w, chain[0]) then ProtoOf(w, chain[0])[h]
    else
      var r := ChainLookup(w, chain[1..], h);
      assert r != Identity ==> exists i :: 1 <= i < |chain| && h in ProtoOf(w, chain[i]);
      r
  }

  /** JavaScript property lookup `card[h]`: the instance first, then the
      prototypes of its class and of its ancestors, then the default. */
  function Resolve(w: World, card: Card, h: HookName): (r: Impl)
    ensures h in OwnOf(w, card.id) ==> r == OwnOf(w, card.id)[h]
    ensures h !in OwnOf(w, card.id) && h in ProtoOf(w, card.variant) ==> r == ProtoOf(w, card.variant)[h]
    ensures h !in OwnOf(w, card.id) && (forall v :: v in Lineage(card.variant) ==> h !in ProtoOf(w, v))
            ==> r == Identity
  {
    if h in OwnOf(w, card.id) then OwnOf(w, card.id)[h]
    else ChainLookup(w, Lineage(card.variant), h)
  }

  function Max(a: int, b: int): int
  {
    if a >= b then a else b
  }

  /** The trace calls the continuation exactly once, as its last event. */
  predicate ResumesOnce(trace: seq<Event>)
  {
    && |trace| > 0
    && trace[|trace| - 1].Resume?
    && forall i :: 0 <= i < |trace| - 1 ==> !trace[i].Resume?
  }

  /** The value the continuation receives. */
  function Resumed(trace: seq<Event>): int
    requires ResumesOnce(trace)
  {
    trace[|trace| - 1].value
  }

  /** The trace calls the continuation exactly once, as its last event, with `v`. */
  predicate ResumesOnceWith(trace: seq<Event>, v: int)
  {
    ResumesOnce(trace) && Resumed(trace) == v
  }

  /** Trasher.modifyTakenDamage: one point less, never below zero. With a view
      the continuation fires only after the ability animation is acknowledged;
      without one it never fires. */
  function TrasherModifyTaken(value: int, hasView: bool): (trace: seq<Event>)
    ensures hasView <==> |trace| > 0
    ensures hasView ==> trace[0] == SignalAbility
    ensures hasView ==> ResumesOnce(trace)
    ensures hasView ==> 0 <= Resumed(trace)
    ensures hasView && value >= 0 ==> Resumed(trace) <= value
    ensures hasView && value >= 1 ==> Resumed(trace) == value - 1
    ensures hasView && value <= 1 ==> Resumed(trace) == 0
  {
    var reduced := Max(value - 1, 0);
    if hasView then [SignalAbility, Resume(reduced)] else []
  }

  /** Lad.modifyDealedDamageToCreature: adds the current population bonus and
      continues at once. */
  function LadModifyDealt(value: int, count: Counter): (trace: seq<Event>)
    ensures |trace| == 1
    ensures ResumesOnceWith(trace, value + Bonus(Read(count)))
    ensures Read(count) == 0 ==> ResumesOnceWith(trace, value)
  {
    [Resume(value + Bonus(Read(count)))]
  }

  /** Lad.modifyTakenDamage: removes the current population bonus, clamped at
      zero, and continues at once. */
  function LadModifyTaken(value: int, count: Counter): (trace: seq<Event>)
    ensures |trace| == 1
    ensures ResumesOnce(trace)
    ensures 0 <= Resumed(trace)
    ensures value >= 0 ==> Resumed(trace) <= value
    ensures value >= Bonus(Read(count)) ==> Resumed(trace) == value - Bonus(Read(count))
    ensures value <= Bonus(Read(count)) ==> Resumed(trace) == 0
  {
    var bonus := Bonus(Read(count));
    [Resume(Max(value - bonus, 0))]
  }

  /** Runs implementation `impl` with `self` as `this`. A stolen function keeps
      its body: a Lad hook still reads Lad's counter, a Trasher hook asks the
      view of whoever holds it now. */
  function Invoke(w: World, self: Card, impl: Impl, value: int): (trace: seq<Event>)
    ensures impl != TrasherTaken || self.hasView ==> |trace| > 0 && trace[|trace| - 1].Resume?
    ensures impl == Identity ==> ResumesOnceWith(trace, value)
  {
    match impl
    case Identity => [Resume(value)]
    case LadDealt => LadModifyDealt(value, w.ladCount)
    case LadTaken => LadModifyTaken(value, w.ladCount)
    case TrasherTaken => TrasherModifyTaken(value, self.hasView)
  }

  /** Calls `card[h](value, …, continuation)`. */
  function CallHook(w: World, card: Card, h: HookName, value: int): seq<Event>
  {
    Invoke(w, card, Resolve(w, card, h), value)
  }

  /** In the starting world a Lad hits a creature with value + k*(k+1)/2 and
      takes max(value - k*(k+1)/2, 0), where k is the counter's value; a Dog
      and a Duck pass values through. */
  lemma InitialHookBehaviour(lad: Card, plain: Card, value: int, count: Counter)
    requires lad.variant == Lad && plain.variant in {Dog, Duck, Gatling, Rogue}
    ensures ResumesOnceWith(CallHook(Initial().(ladCount := count), lad, DealtToCreature, value),
                            value + Bonus(Read(count)))
    ensures ResumesOnceWith(CallHook(Initial().(ladCount := count), lad, Taken, value),
                            Max(value - Bonus(Read(count)), 0))
    ensures forall h :: ResumesOnceWith(CallHook(Initial().(ladCount := count), plain, h, value), value)
  {
    var w := Initial().(ladCount := count);
    assert Resolve(w, lad, DealtToCreature) == LadDealt;
    assert Resolve(w, lad, Taken) == LadTaken;
    forall h
      ensures ResumesOnceWith(CallHook(w, plain, h, value), value)
    {
      assert Lineage(plain.variant) == [plain.variant];
      assert Resolve(w, plain, h) == Identity;
    }
  }

  /** In the starting world a Trasher with a view takes max(value - 1, 0),
      after the ability animation. */
  lemma InitialTrasherBehaviour(t: Card, value: int)
    requires t.variant == Trasher && t.hasView
    ensures CallHook(Initial(), t, Taken, value) == [SignalAbility, Resume(Max(value - 1, 0))]
    ensures CallHook(Initial(), t, DealtToCreature, value) == [Resume(value)]
  {
    assert Resolve(Initial(), t, Taken) == TrasherTaken;
    assert Resolve(Initial(), t, DealtToCreature) == Identity;
  }
}
