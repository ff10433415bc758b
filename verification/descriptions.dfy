/**
  The description lines of a card. `base` stands for what Card's own
  `getDescriptions` returns; that class is not part of this model.
 */
module Descriptions {
  import opened Cards
  import opened Classify
  import opened Hooks
  import opened Theft

  const TrasherAbility: string := "При получении урона получает на 1 меньше"
  const GatlingAbility: string := "При атаке наносит 2 урона всем картам противника по очереди"
  const LadAbility: string := "Чем их больше, тем они сильнее"

  /** Lad shows its line while its prototype still owns one of its two damage
      hooks. */
  predicate LadStillStrong(w: World)
  {
    DealtToCreature in ProtoOf(w, Lad) || Taken in ProtoOf(w, Lad)
  }

  /** Creature.getDescriptions: the type line in front of Card's lines. */
  function CreatureLines(v: Variant, base: seq<string>): (r: seq<string>)
    ensures |r| == |base| + 1
    ensures r[0] == CreatureDescription(CapsOf(v)) && r[1..] == base
  {
    [CreatureDescription(CapsOf(v))] + base
  }

  /** Trasher.getDescriptions: the inherited lines, then the ability line last. */
  function TrasherLines(base: seq<string>): (r: seq<string>)
    ensures |r| == |base| + 2
    ensures r[0] == DogName && r[1..1 + |base|] == base
    ensures r[|r| - 1] == TrasherAbility
  {
    TrasherIsDescribedAsDog(Trasher);
    CreatureLines(Trasher, base) + [TrasherAbility]
  }

  /** Gatling.getDescriptions: the inherited lines, then the ability line last. */
  function GatlingLines(base: seq<string>): (r: seq<string>)
    ensures |r| == |base| + 2
    ensures r[0] == CreatureName && r[1..1 + |base|] == base
    ensures r[|r| - 1] == GatlingAbility
  {
    CreatureLines(Gatling, base) + [GatlingAbility]
  }

  /** Lad.getDescriptions: Lad is not a creature, so there is no type line; its
      own line comes before Card's lines and only while its prototype still
      owns one of its two damage hooks. */
  function LadLines(w: World, base: seq<string>): (r: seq<string>)
    ensures |r| >= |base| && r[|r| - |base|..] == base
    ensures |r| == |base| + 1 <==> LadStillStrong(w)
    ensures |r| == |base| + 1 ==> r[0] == LadAbility
  {
    (if LadStillStrong(w) then [LadAbility] else []) + base
  }

  /** `getDescriptions` of a card constructed as `v`, through the class that
      overrides it last. */
  function Describe(w: World, v: Variant, base: seq<string>): (r: seq<string>)
    ensures IsCreature(v) ==> |r| >= 1 + |base| && r[0] == CreatureDescription(CapsOf(v))
    ensures IsCreature(v) ==> r[1..1 + |base|] == base
  {
    match v
    case Trasher => TrasherLines(base)
    case Gatling => GatlingLines(base)
    case Lad => LadLines(w, base)
    case _ => CreatureLines(v, base)
  }

  /** Lad's line is there exactly while Lad's prototype owns one of its two
      damage hooks (Card's own lines are assumed not to contain it). */
  lemma LadLineIffOwned(w: World, base: seq<string>)
    requires LadAbility !in base
    ensures LadAbility in Describe(w, Lad, base) <==> LadStillStrong(w)
  {
    var r := Describe(w, Lad, base);
    if !LadStillStrong(w) {
      assert r == base;
    }
  }

  /** After any Rogue robs the Lad class, no Lad describes itself as growing
      stronger in numbers. */
  lemma TheftSilencesLad(w: World, rogue: Id, base: seq<string>)
    requires LadAbility !in base
    ensures LadAbility !in Describe(Steal(w, rogue, Lad), Lad, base)
  {
    LadLineIffOwned(Steal(w, rogue, Lad), base);
  }

  /** The other classes' lines do not depend on the hook tables: a Trasher
      still announces its reduction after the theft has taken it. */
  lemma OthersIgnoreTheft(w: World, w': World, v: Variant, base: seq<string>)
    requires v != Lad
    ensures Describe(w', v, base) == Describe(w, v, base)
  {
  }
}
