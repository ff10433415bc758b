/**
  Lad's population counter: one number shared by the Lad class (a static
  property, unset until first written), raised when a Lad comes into play,
  lowered before one is removed, and read by the triangular bonus.
 */
module LadCounter {
  import opened Options
  import opened Cards

  /** `Lad.inGameCount`: `undefined` until the first write. */
  datatype Counter = Unset | Set(n: int)

  /** `getInGameCount`: an unset counter reads as 0. */
  function Read(c: Counter): int
  {
    match c
    case Unset => 0
    case Set(n) => n
  }

  /** The product of two consecutive integers is even and never negative. */
  lemma ConsecutiveProduct(n: int)
    ensures (n * (n + 1)) % 2 == 0
    ensures n * (n + 1) >= 0
  {
    var k := n / 2;
    if n % 2 == 0 {
      assert n == 2 * k;
      assert n * (n + 1) == 2 * (k * (n + 1));
    } else {
      assert n + 1 == 2 * (k + 1);
      assert n * (n + 1) == 2 * (n * (k + 1));
    }
    if n < 0 {
      assert n + 1 <= 0;
      assert n * (n + 1) == (-n) * (-(n + 1));
    }
  }

  /** `getBonus` for a counter value: count*(count+1)/2. The source divides
      with real division; the quotient is always a whole number, so integer
      division loses nothing, and it is never negative, even for a count that
      has gone below zero. */
  function Bonus(count: int): (b: int)
    ensures 2 * b == count * (count + 1)
    ensures b >= 0
  {
    ConsecutiveProduct(count);
    count * (count + 1) / 2
  }

  /** Reference definition: 1 + 2 + ... + n. */
  function Triangular(n: nat): nat
  {
    if n == 0 then 0 else n + Triangular(n - 1)
  }

  /** For a non-negative count the bonus is exactly the n-th triangular number. */
  lemma {:induction false} BonusIsTriangular(n: nat)
    ensures Bonus(n) == Triangular(n)
  {
    if n > 0 {
      BonusIsTriangular(n - 1);
      BonusStep(n - 1);
    }
  }

  /** One more Lad raises the bonus by the new count. */
  lemma BonusStep(count: int)
    ensures Bonus(count + 1) == Bonus(count) + count + 1
  {
    assert 2 * Bonus(count + 1) == (count + 1) * (count + 2);
    assert (count + 1) * (count + 2) == count * (count + 1) + 2 * (count + 1);
  }

  /** `doAfterComingIntoPlay`: the counter is written with one more than it read. */
  function EnterPlay(c: Counter): (r: Counter)
    ensures r.Set?
    ensures Read(r) == Read(c) + 1
  {
    Set(Read(c) + 1)
  }

  /** `doBeforeRemoving`: the counter is written with one less than it read. */
  function LeavePlay(c: Counter): (r: Counter)
    ensures r.Set?
    ensures Read(r) == Read(c) - 1
  {
    Set(Read(c) - 1)
  }

  /** Entering and then leaving restores the count every Lad reads, and with it
      the bonus; the stored value becomes 0 where it was unset. */
  lemma EnterThenLeave(c: Counter)
    ensures Read(LeavePlay(EnterPlay(c))) == Read(c)
    ensures Bonus(Read(LeavePlay(EnterPlay(c)))) == Bonus(Read(c))
    ensures c.Unset? ==> LeavePlay(EnterPlay(c)) == Set(0)
  {
  }

  /** After one more Lad enters, every Lad's bonus grows by the new count. */
  lemma EnterRaisesBonus(c: Counter)
    ensures Bonus(Read(EnterPlay(c))) == Bonus(Read(c)) + Read(c) + 1
  {
    BonusStep(Read(c));
  }

  /** A lifecycle transition of one Lad instance. */
  datatype Transition = Enter(id: Id) | Leave(id: Id)

  /** The counter after the lifecycle hooks of `ts` have run, in order. */
  function Replay(c: Counter, ts: seq<Transition>): Counter
  {
    if |ts| == 0 then c
    else
      var before := Replay(c, ts[..|ts| - 1]);
      match ts[|ts| - 1]
      case Enter(_) => EnterPlay(before)
      case Leave(_) => LeavePlay(before)
  }

  /** The Lads in play after `ts`, or None when `ts` lets a Lad enter twice or
      leave without being in play (the turn controller never does that). */
  function LiveAfter(ts: seq<Transition>): Option<set<Id>>
  {
    if |ts| == 0 then Some({})
    else
      match LiveAfter(ts[..|ts| - 1])
      case None => None
      case Some(live) =>
        match ts[|ts| - 1]
        case Enter(id) => if id in live then None else Some(live + {id})
        case Leave(id) => if id in live then Some(live - {id}) else None
  }

  /** Starting from the unset counter, every well-formed lifecycle history
      leaves the counter equal to the number of Lads in play, so each Lad's
      bonus is k*(k+1)/2 for k live Lads. */
  lemma {:induction false} CounterTracksPopulation(ts: seq<Transition>)
    requires LiveAfter(ts).Some?
    ensures Read(Replay(Unset, ts)) == |LiveAfter(ts).value|
    ensures Bonus(Read(Replay(Unset, ts))) == Triangular(|LiveAfter(ts).value|)
  {
    if |ts| > 0 {
      CounterTracksPopulation(ts[..|ts| - 1]);
    }
    BonusIsTriangular(|LiveAfter(ts).value|);
  }
}
