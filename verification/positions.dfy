/** A position (prize tier): a name and the number of winners it takes. Its
    setters refuse an empty name and a zero capacity, so every position a caller
    can obtain has a non-empty name and a capacity of at least one. */
module Positions {
  import opened Results

  datatype PositionTypeError = EmptyName | ZeroCapacity

  datatype Position = Position(name: string, cap: nat)

  /** The invariant the setters maintain. */
  predicate Valid(p: Position) {
    |p.name| > 0 && p.cap >= 1
  }

  predicate AllValid(ps: seq<Position>) {
    forall i :: 0 <= i < |ps| ==> Valid(ps[i])
  }

  /** `Position::default()`. */
  function Default(): (p: Position)
    ensures p.name == "default_name" && p.cap == 1
    ensures Valid(p)
  {
    Position("default_name", 1)
  }

  /** `set_name`: an empty name is refused and the position kept; any other name
      replaces the old one and leaves the capacity alone. */
  function SetName(p: Position, name: string): (u: Update<Position, PositionTypeError>)
    ensures |name| == 0 ==> u == Update(p, Fail(EmptyName))
    ensures |name| > 0 ==> u.outcome == Pass && u.after.name == name && u.after.cap == p.cap
    ensures Valid(p) ==> Valid(u.after)
  {
    if |name| == 0 then Update(p, Fail(EmptyName))
    else Update(p.(name := name), Pass)
  }

  /** `set_cap`: a zero capacity is refused and the position kept; any other
      capacity replaces the old one and leaves the name alone. */
  function SetCap(p: Position, newCap: nat): (u: Update<Position, PositionTypeError>)
    ensures newCap == 0 ==> u == Update(p, Fail(ZeroCapacity))
    ensures newCap > 0 ==> u.outcome == Pass && u.after.cap == newCap && u.after.name == p.name
    ensures Valid(p) ==> Valid(u.after)
  {
    if newCap == 0 then Update(p, Fail(ZeroCapacity))
    else Update(p.(cap := newCap), Pass)
  }

  /** The sum of the capacities, i.e. the number of reservoir slots the positions share. */
  function SumCaps(ps: seq<Position>): nat
    decreases |ps|
  {
    if |ps| == 0 then 0 else ps[0].cap + SumCaps(ps[1..])
  }

  /** One unfolding of `SumCaps`. */
  lemma SumCapsCons(ps: seq<Position>)
    requires |ps| > 0
    ensures SumCaps(ps) == ps[0].cap + SumCaps(ps[1..])
  {
  }

  /** The first slot owned by position `k`: the capacities of the positions before it. */
  function Offset(ps: seq<Position>, k: nat): nat
    requires k <= |ps|
    decreases k
  {
    if k == 0 then 0 else ps[0].cap + Offset(ps[1..], k - 1)
  }

  /** Position `k` owns the slots `[Offset(ps, k), Offset(ps, k) + cap_k)`, which lie
      inside the shared pool of `SumCaps(ps)` slots, and the ranges follow each
      other without gaps or overlaps. */
  lemma {:induction false} OffsetBounds(ps: seq<Position>, k: nat)
    requires k < |ps|
    ensures Offset(ps, k + 1) == Offset(ps, k) + ps[k].cap
    ensures Offset(ps, k) + ps[k].cap <= SumCaps(ps)
    decreases k
  {
    if k > 0 {
      OffsetBounds(ps[1..], k - 1);
    }
  }

  /** All ranges together cover exactly the shared pool. */
  lemma {:induction false} OffsetEnd(ps: seq<Position>)
    ensures Offset(ps, |ps|) == SumCaps(ps)
    decreases |ps|
  {
    if |ps| > 0 {
      OffsetEnd(ps[1..]);
    }
  }

  /** Every valid position owns at least one slot, so the pool has at least as
      many slots as there are positions. */
  lemma {:induction false} SumCapsAtLeastCount(ps: seq<Position>)
    requires AllValid(ps)
    ensures SumCaps(ps) >= |ps|
    decreases |ps|
  {
    if |ps| > 0 {
      assert Valid(ps[0]);
      assert AllValid(ps[1..]) by {
        forall i | 0 <= i < |ps[1..]| ensures Valid(ps[1..][i]) {
          assert ps[1..][i] == ps[i + 1];
        }
      }
      SumCapsAtLeastCount(ps[1..]);
    }
  }
}
