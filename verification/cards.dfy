/**
  The card classes of the game, the cards on a table and the events the core
  hands to the outside world (view layer, opaque base behaviour, continuations).
 */
module Cards {
  import opened Options

  /** The constructible classes of the game. `Creature` and `Card` are abstract
      bases and are represented by `IsCreature` and by the default hook. */
  datatype Variant = Dog | Trasher | Duck | Gatling | Rogue | Lad

  /** The class itself followed by its constructible ancestors, most derived first.
      Trasher is the only class that extends another constructible class (Dog). */
  function Lineage(v: Variant): (r: seq<Variant>)
    ensures |r| >= 1 && r[0] == v
    ensures forall c :: c in r[1..] <==> v == Trasher && c == Dog
  {
    if v == Trasher then [Trasher, Dog] else [v]
  }

  /** `card instanceof C` for a card constructed as `v`. */
  predicate InstanceOf(v: Variant, c: Variant)
  {
    c in Lineage(v)
  }

  /** Every class except Lad extends Creature; Lad extends Card directly. */
  predicate IsCreature(v: Variant)
  {
    v != Lad
  }

  type Id = nat

  /** One card instance: its identity, its class and whether a view is attached. */
  datatype Card = Card(id: Id, variant: Variant, hasView: bool)

  /** A player's table: an ordered row of slots, each holding a card or nothing. */
  type Table = seq<Option<Card>>

  /** Index of the first occupied slot: `table.find(c => c)`. */
  function FirstOccupied(t: Table): (r: Option<nat>)
    ensures r.Some? <==> exists i :: 0 <= i < |t| && t[i].Some?
    ensures r.Some? ==> r.value < |t| && t[r.value].Some?
    ensures r.Some? ==> forall j :: 0 <= j < r.value ==> t[j].None?
  {
    if |t| == 0 then None
    else if t[0].Some? then Some(0)
    else
      match FirstOccupied(t[1..])
      case None => None
      case Some(k) => Some(k + 1)
  }

  /** The cards on a table, in slot order, with the empty slots dropped. */
  function Occupied(t: Table): (r: seq<Card>)
    ensures |r| <= |t|
    ensures forall c :: c in r <==> Some(c) in t
  {
    if |t| == 0 then []
    else if t[0].Some? then [t[0].value] + Occupied(t[1..])
    else Occupied(t[1..])
  }

  /** What the core does that is visible outside it, in the order it happens. */
  datatype Event =
    | SignalAbility                        // view.signalAbility: an ability animation is requested
    | ShowAttack                           // view.showAttack: an attack animation is requested
    | UpdateView                           // gameContext.updateView()
    | DealDamage(amount: int, target: Id)  // the opaque base call dealDamageToCreature
    | StepDone                             // a queued step signals onDone
    | Continue                             // the caller's continuation, without a value
    | Resume(value: int)                   // a hook's continuation, with the new damage value
}
