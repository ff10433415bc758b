/**
  Rogue's ability theft. Before attacking, a Rogue takes the first card on the
  opposing table and moves every damage hook that the card's class prototype
  owns onto its own instance, deleting it from the prototype. Because the
  prototype is shared, every present and future card of that class loses the
  hook, not only the one in the slot.
 */
module Theft {
  import opened Options
  import opened Cards
  import opened LadCounter
  import opened Hooks

  /** The world after the Rogue `rogue` steals from class `tv`: the prototype's
      hooks move onto the Rogue instance, replacing any own hook of the same
      name. When the prototype owns nothing, nothing changes. */
  function Steal(w: World, rogue: Id, tv: Variant): (w': World)
    ensures forall h :: h in ProtoOf(w, tv) ==>
      && h !in ProtoOf(w', tv)
      && h in OwnOf(w', rogue)
      && OwnOf(w', rogue)[h] == ProtoOf(w, tv)[h]
    ensures forall h :: h !in ProtoOf(w, tv) ==>
      && h !in ProtoOf(w', tv)
      && (h in OwnOf(w', rogue) <==> h in OwnOf(w, rogue))
      && (h in OwnOf(w, rogue) ==> OwnOf(w', rogue)[h] == OwnOf(w, rogue)[h])
    ensures forall v :: v != tv ==> ProtoOf(w', v) == ProtoOf(w, v)
    ensures forall id :: id != rogue ==> OwnOf(w', id) == OwnOf(w, id)
    ensures w'.ladCount == w.ladCount
    ensures ProtoOf(w, tv) == map[] ==> w' == w
  {
    var proto := ProtoOf(w, tv);
    if proto == map[] then w
    else World(w.variantHooks[tv := map[]],
               w.instanceHooks[rogue := OwnOf(w, rogue) + proto],
               w.ladCount)
  }

  /** A second theft from the same class, by the same or another Rogue, finds
      the prototype empty and changes nothing. */
  lemma StealIdempotent(w: World, rogue: Id, other: Id, tv: Variant)
    ensures Steal(Steal(w, rogue, tv), other, tv) == Steal(w, rogue, tv)
  {
    var w' := Steal(w, rogue, tv);
    assert ProtoOf(w', tv) == map[] by {
      forall h ensures h !in ProtoOf(w', tv) {
      }
    }
  }

  /** The collateral effect: every other card of the robbed class that has no
      own hook of that name used the prototype's hook before and, after the
      theft, falls through to its ancestors' hooks or the default. This holds
      for every such card, including ones created after the theft. */
  lemma StealStripsSiblings(w: World, rogue: Id, c: Card, h: HookName)
    requires c.id != rogue
    requires h !in OwnOf(w, c.id)
    requires h in ProtoOf(w, c.variant)
    ensures Resolve(w, c, h) == ProtoOf(w, c.variant)[h]
    ensures Resolve(Steal(w, rogue, c.variant), c, h) == ChainLookup(w, Lineage(c.variant)[1..], h)
  {
    var w' := Steal(w, rogue, c.variant);
    var chain := Lineage(c.variant);
    assert h !in ProtoOf(w', chain[0]);
    ChainLookupFrame(w, w', chain[1..], c.variant, h);
  }

  /** Lookup along a chain that does not mention `tv` is unaffected by a world
      change that only touches `tv`'s prototype. */
  lemma {:induction false} ChainLookupFrame(w: World, w': World, chain: seq<Variant>, tv: Variant, h: HookName)
    requires tv !in chain
    requires forall v :: v != tv ==> ProtoOf(w', v) == ProtoOf(w, v)
    ensures ChainLookup(w', chain, h) == ChainLookup(w, chain, h)
  {
    if |chain| > 0 {
      ChainLookupFrame(w, w', chain[1..], tv, h);
    }
  }

  /** The Rogue itself now answers hook `h` with the stolen function. */
  lemma StealArmsRogue(w: World, rogue: Card, tv: Variant, h: HookName)
    requires h in ProtoOf(w, tv)
    ensures Resolve(Steal(w, rogue.id, tv), rogue, h) == ProtoOf(w, tv)[h]
  {
  }

  /** The outcome of `beforeAttack`: the new world and the events, in order. */
  datatype Outcome = Outcome(world: World, trace: seq<Event>)

  /** Rogue.beforeAttack: with no card on the opposing table it only continues;
      otherwise it robs the first card's class, asks for a redraw and continues. */
  function BeforeAttack(w: World, rogue: Id, opposing: Table): (r: Outcome)
    ensures |r.trace| > 0 && r.trace[|r.trace| - 1] == Continue
    ensures Continue !in r.trace[..|r.trace| - 1]
    ensures FirstOccupied(opposing).None? <==> r.trace == [Continue]
    ensures FirstOccupied(opposing).None? ==> r.world == w
    ensures FirstOccupied(opposing).Some? ==>
      var target := opposing[FirstOccupied(opposing).value].value;
      && r.world == Steal(w, rogue, target.variant)
      && r.trace == [UpdateView, Continue]
  {
    match FirstOccupied(opposing)
    case None => Outcome(w, [Continue])
    case Some(i) =>
      var target := opposing[i].value;
      Outcome(Steal(w, rogue, target.variant), [UpdateView, Continue])
  }

  /** A Rogue facing a Lad at the start of the game: afterwards the Rogue deals
      and takes damage like a Lad, reading Lad's counter, while every Lad,
      present or future, passes damage through unchanged. */
  lemma RobbingLads(rogue: Card, lad: Card, opposing: Table, value: int, count: Counter)
    requires rogue.variant == Rogue && lad.variant == Lad && rogue.id != lad.id
    requires FirstOccupied(opposing).Some? && opposing[FirstOccupied(opposing).value].value.variant == Lad
    ensures
      var w' := BeforeAttack(Initial().(ladCount := count), rogue.id, opposing).world;
      && ResumesOnceWith(CallHook(w', rogue, DealtToCreature, value), value + Bonus(Read(count)))
      && ResumesOnceWith(CallHook(w', rogue, Taken, value), Max(value - Bonus(Read(count)), 0))
      && (forall h :: ResumesOnceWith(CallHook(w', lad, h, value), value))
  {
    var w := Initial().(ladCount := count);
    InitialPrototypes(Lad);
    var w' := Steal(w, rogue.id, Lad);
    StealArmsRogue(w, rogue, Lad, DealtToCreature);
    StealArmsRogue(w, rogue, Lad, Taken);
    forall h ensures ResumesOnceWith(CallHook(w', lad, h, value), value) {
      assert h !in ProtoOf(w', Lad);
      assert h !in OwnOf(w', lad.id);
      assert Resolve(w', lad, h) == Identity;
    }
  }

  /** A Rogue facing a Trasher at the start of the game: afterwards Trashers
      take damage unchanged (Dog's prototype has no such hook), while the Rogue
      takes one point less after its own ability animation, or never resumes
      when it has no view. */
  lemma RobbingTrashers(rogue: Card, trasher: Card, opposing: Table, value: int)
    requires rogue.variant == Rogue && trasher.variant == Trasher && rogue.id != trasher.id
    requires FirstOccupied(opposing).Some? && opposing[FirstOccupied(opposing).value].value.variant == Trasher
    ensures
      var w' := BeforeAttack(Initial(), rogue.id, opposing).world;
      && ResumesOnceWith(CallHook(w', trasher, Taken, value), value)
      && (rogue.hasView ==> CallHook(w', rogue, Taken, value) == [SignalAbility, Resume(Max(value - 1, 0))])
      && (!rogue.hasView ==> CallHook(w', rogue, Taken, value) == [])
  {
    var w := Initial();
    InitialPrototypes(Trasher);
    InitialPrototypes(Dog);
    StealArmsRogue(w, rogue, Trasher, Taken);
    StealStripsSiblings(w, rogue.id, trasher, Taken);
  }
}
