/**
  Gatling's area attack and the task queue that runs it. The attack queues one
  step that plays the attack animation and then one step per slot of the
  opposing table, in table order; the queue runs the steps one after the other,
  each finishing with its done signal, and only then calls the attack's own
  continuation.
 */
module Gatling {
  import opened Options
  import opened Cards

  /** Raw damage Gatling deals to each opposing card. */
  const GatlingDamage: int := 2

  /** A queued step: the attack animation, or the strike on one slot. */
  datatype Step = ShowAttackStep | StrikeSlot(slot: Option<Card>)

  function SlotSteps(t: Table): (steps: seq<Step>)
    ensures |steps| == |t|
    ensures forall i :: 0 <= i < |t| ==> steps[i] == StrikeSlot(t[i])
  {
    if |t| == 0 then [] else [StrikeSlot(t[0])] + SlotSteps(t[1..])
  }

  /** The queue Gatling.attack builds for the opposing table `t`. */
  function AttackSteps(t: Table): (steps: seq<Step>)
    ensures |steps| == 1 + |t|
    ensures steps[0] == ShowAttackStep
    ensures forall i :: 0 <= i < |t| ==> steps[i + 1] == StrikeSlot(t[i])
  {
    [ShowAttackStep] + SlotSteps(t)
  }

  /** The DealDamage events of a trace, in order. */
  function DamageEvents(trace: seq<Event>): seq<Event>
  {
    if |trace| == 0 then []
    else (if trace[0].DealDamage? then [trace[0]] else []) + DamageEvents(trace[1..])
  }

  /** How many done signals a trace holds. */
  function DoneCount(trace: seq<Event>): nat
  {
    if |trace| == 0 then 0
    else (if trace[0] == StepDone then 1 else 0) + DoneCount(trace[1..])
  }

  /** The strikes Gatling owes to `cards`, in order. */
  function Strikes(cards: seq<Card>): (r: seq<Event>)
    ensures |r| == |cards|
    ensures forall i :: 0 <= i < |cards| ==> r[i] == DealDamage(GatlingDamage, cards[i].id)
  {
    if |cards| == 0 then [] else [DealDamage(GatlingDamage, cards[0].id)] + Strikes(cards[1..])
  }

  /** What one step does. The attack animation and the damage call finish with
      the done signal once their opaque callee reports back; an empty slot
      signals done at once. */
  function StepTrace(s: Step): (r: seq<Event>)
    ensures |r| > 0 && r[|r| - 1] == StepDone && StepDone !in r[..|r| - 1]
    ensures Continue !in r
    ensures s == ShowAttackStep ==> r[0] == ShowAttack && DamageEvents(r) == []
    ensures s == StrikeSlot(None) ==> r == [StepDone]
    ensures s.StrikeSlot? && s.slot.Some? ==> DamageEvents(r) == [DealDamage(GatlingDamage, s.slot.value.id)]
  {
    match s
    case ShowAttackStep =>
      var r := [ShowAttack, StepDone];
      assert DamageEvents(r[1..]) == [] by { assert r[1..][1..] == []; }
      r
    case StrikeSlot(None) => [StepDone]
    case StrikeSlot(Some(c)) =>
      var r := [DealDamage(GatlingDamage, c.id), StepDone];
      assert DamageEvents(r[1..]) == [] by { assert r[1..][1..] == []; }
      r
  }

  /** The steps' traces, one after the other: step i+1 starts only after step
      i has signalled done. */
  function Flatten(steps: seq<Step>): seq<Event>
  {
    if |steps| == 0 then [] else StepTrace(steps[0]) + Flatten(steps[1..])
  }

  lemma {:induction false} FlattenAppend(a: seq<Step>, b: seq<Step>)
    ensures Flatten(a + b) == Flatten(a) + Flatten(b)
  {
    if |a| == 0 {
      assert a + b == b;
    } else {
      assert (a + b)[0] == a[0];
      assert (a + b)[1..] == a[1..] + b;
      FlattenAppend(a[1..], b);
    }
  }

  lemma {:induction false} DamageEventsAppend(x: seq<Event>, y: seq<Event>)
    ensures DamageEvents(x + y) == DamageEvents(x) + DamageEvents(y)
  {
    if |x| == 0 {
      assert x + y == y;
    } else {
      assert (x + y)[0] == x[0];
      assert (x + y)[1..] == x[1..] + y;
      DamageEventsAppend(x[1..], y);
    }
  }

  lemma {:induction false} DoneCountAppend(x: seq<Event>, y: seq<Event>)
    ensures DoneCount(x + y) == DoneCount(x) + DoneCount(y)
  {
    if |x| == 0 {
      assert x + y == y;
    } else {
      assert (x + y)[0] == x[0];
      assert (x + y)[1..] == x[1..] + y;
      DoneCountAppend(x[1..], y);
    }
  }

  /** Every step signals done exactly once, and no step calls the continuation. */
  lemma {:induction false} FlattenSignals(steps: seq<Step>)
    ensures DoneCount(Flatten(steps)) == |steps|
    ensures Continue !in Flatten(steps)
  {
    if |steps| > 0 {
      var r := StepTrace(steps[0]);
      FlattenSignals(steps[1..]);
      DoneCountAppend(r, Flatten(steps[1..]));
      assert r == r[..|r| - 1] + [StepDone];
      DoneCountAppend(r[..|r| - 1], [StepDone]);
      DoneCountNone(r[..|r| - 1]);
    }
  }

  lemma {:induction false} DoneCountNone(x: seq<Event>)
    requires StepDone !in x
    ensures DoneCount(x) == 0
  {
    if |x| > 0 {
      DoneCountNone(x[1..]);
    }
  }

  /** The slot steps strike exactly the occupied slots, in table order. */
  lemma {:induction false} SlotStrikes(t: Table)
    ensures DamageEvents(Flatten(SlotSteps(t))) == Strikes(Occupied(t))
  {
    if |t| > 0 {
      var steps := SlotSteps(t);
      assert steps[1..] == SlotSteps(t[1..]);
      SlotStrikes(t[1..]);
      DamageEventsAppend(StepTrace(steps[0]), Flatten(steps[1..]));
    }
  }

  /** TaskQueue: runs the steps in order and then calls the continuation once. */
  method RunQueue(steps: seq<Step>) returns (trace: seq<Event>)
    ensures trace == Flatten(steps) + [Continue]
    ensures |trace| > 0 && trace[|trace| - 1] == Continue && Continue !in trace[..|trace| - 1]
  {
    var ran: seq<Event> := [];
    var i := 0;
    while i < |steps|
      invariant 0 <= i <= |steps|
      invariant ran == Flatten(steps[..i])
    {
      assert steps[..i + 1] == steps[..i] + [steps[i]];
      FlattenAppend(steps[..i], [steps[i]]);
      assert Flatten([steps[i]]) == StepTrace(steps[i]) + Flatten([]);
      ran := ran + StepTrace(steps[i]);
      i := i + 1;
    }
    assert steps[..i] == steps;
    FlattenSignals(steps);
    assert (ran + [Continue])[..|ran|] == ran;
    trace := ran + [Continue];
  }

  /** Gatling.attack by `gatling` against the opposing table `opposing`. The
      first step asks the attacker's view for the animation; an attacker
      without a view fails there, so nothing further happens. */
  method Attack(gatling: Card, opposing: Table) returns (trace: seq<Event>)
    ensures gatling.hasView ==> trace == Flatten(AttackSteps(opposing)) + [Continue]
    ensures gatling.hasView ==> |trace| > 0 && trace[0] == ShowAttack
    ensures gatling.hasView ==> DamageEvents(trace) == Strikes(Occupied(opposing))
    ensures gatling.hasView ==>
      |trace| > 0 && trace[|trace| - 1] == Continue && Continue !in trace[..|trace| - 1]
    ensures !gatling.hasView ==> trace == []
  {
    if !gatling.hasView {
      return [];
    }
    var steps := AttackSteps(opposing);
    trace := RunQueue(steps);
    assert steps == [ShowAttackStep] + SlotSteps(opposing);
    FlattenAppend([ShowAttackStep], SlotSteps(opposing));
    assert Flatten([ShowAttackStep]) == [ShowAttack, StepDone];
    SlotStrikes(opposing);
    DamageEventsAppend([ShowAttack, StepDone], Flatten(SlotSteps(opposing)));
    DamageEventsAppend(Flatten(steps), [Continue]);
  }

  /** Gatling's queue signals done once for the animation and once for every
      slot, empty or not, before its continuation runs. */
  lemma AttackSignalsEachStep(opposing: Table)
    ensures DoneCount(Flatten(AttackSteps(opposing)) + [Continue]) == 1 + |opposing|
  {
    FlattenSignals(AttackSteps(opposing));
    DoneCountAppend(Flatten(AttackSteps(opposing)), [Continue]);
  }

  lemma FlattenCons(x: Step, rest: seq<Step>)
    ensures Flatten([x] + rest) == StepTrace(x) + Flatten(rest)
  {
    assert ([x] + rest)[1..] == rest;
  }

  /** The queue for three slots with the middle one empty. */
  lemma ThreeSlotQueue(a: Card, b: Card)
    ensures AttackSteps([Some(a), None, Some(b)])
         == [ShowAttackStep, StrikeSlot(Some(a)), StrikeSlot(None), StrikeSlot(Some(b))]
  {
    var t: Table := [Some(a), None, Some(b)];
    var q := AttackSteps(t);
    assert |q| == 4;
    assert q[0] == ShowAttackStep;
    assert q[1] == StrikeSlot(t[0]);
    assert q[2] == StrikeSlot(t[1]);
    assert q[3] == StrikeSlot(t[2]);
  }

  /** Three slots, the middle one empty: the animation, a strike on the first
      card, an immediate done for the gap, a strike on the last card, and only
      then the continuation. */
  lemma ThreeSlotAttack(a: Card, b: Card)
    ensures Flatten(AttackSteps([Some(a), None, Some(b)])) + [Continue] ==
      [ShowAttack, StepDone,
       DealDamage(2, a.id), StepDone,
       StepDone,
       DealDamage(2, b.id), StepDone,
       Continue]
  {
    ThreeSlotQueue(a, b);
    var s3: seq<Step> := [StrikeSlot(Some(b))];
    var s2 := [StrikeSlot(None)] + s3;
    var s1 := [StrikeSlot(Some(a))] + s2;
    assert [ShowAttackStep] + s1
        == [ShowAttackStep, StrikeSlot(Some(a)), StrikeSlot(None), StrikeSlot(Some(b))];
    FlattenCons(StrikeSlot(Some(b)), []);
    FlattenCons(StrikeSlot(None), s3);
    FlattenCons(StrikeSlot(Some(a)), s2);
    FlattenCons(ShowAttackStep, s1);
  }
}
