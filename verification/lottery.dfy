/** The lottery (`Choosen`): named positions sharing one reservoir whose
    capacity is the sum of their capacities. Items are drawn one at a time; on
    release the reservoir is locked and its slots are dealt out to the positions
    in declared order, each taking the next run of slots as long as its capacity. */
module Lottery {
  import opened Results
  import opened Slots
  import opened Positions
  import opened Sampler

  datatype ChoosenError = NoOneIsChoosen

  datatype Choosen<T> = Choosen(positions: seq<Position>, lucky: Reservoir<T>)

  /** What `poll_one` returns: the `sample` tuple, plus the lottery after the call. */
  datatype Polled<T> = Polled(rank: nat, seen: nat, evicted: Option<T>, after: Choosen<T>)

  /** One released position: its name and the winners found in its slots. */
  datatype Prize<T> = Prize(name: string, winners: seq<T>)

  /** The reservoir has one slot per unit of position capacity. */
  predicate WellSized<T>(ch: Choosen<T>) {
    |ch.lucky.pool| == SumCaps(ch.positions)
  }

  /** What `build` establishes and `poll_one` keeps: at least one valid position,
      a well-sized reservoir, and the reservoir invariant. */
  predicate Valid<T>(ch: Choosen<T>) {
    && |ch.positions| >= 1
    && AllValid(ch.positions)
    && WellSized(ch)
    && Sampler.Valid(ch.lucky)
  }

  /** `poll_one(it)`: hand the item to the reservoir and return its `sample`
      tuple; the positions never change. */
  function PollOne<T>(ch: Choosen<T>, it: T, raw: nat): (p: Polled<T>)
    ensures var s := Sample(ch.lucky, it, raw);
      p.rank == s.rank && p.seen == s.seen && p.evicted == s.evicted && p.after.lucky == s.after
    ensures p.after.positions == ch.positions
    ensures 1 <= p.rank <= p.seen && p.seen == ch.lucky.total + 1
    ensures Valid(ch) ==> Valid(p.after)
  {
    var s := Sample(ch.lucky, it, raw);
    Polled(s.rank, s.seen, s.evicted, Choosen(ch.positions, s.after))
  }

  /** `lucky()`: the reservoir's current slots, one per unit of capacity. */
  function Lucky<T>(ch: Choosen<T>): (view: seq<Option<T>>)
    ensures view == Samples(ch.lucky)
    ensures WellSized(ch) ==> |view| == SumCaps(ch.positions)
  {
    Samples(ch.lucky)
  }

  /** A stream of `poll_one` calls, one raw draw per item. */
  function PollAll<T>(ch: Choosen<T>, items: seq<T>, raws: seq<nat>): (fed: Choosen<T>)
    requires |raws| == |items|
    ensures fed.positions == ch.positions
    ensures fed.lucky == Feed(ch.lucky, items, raws)
    ensures Valid(ch) ==> Valid(fed)
    decreases |items|
  {
    if |items| == 0 then ch
    else PollAll(PollOne(ch, items[0], raws[0]).after, items[1..], raws[1..])
  }

  /** All winners of a release, position after position. */
  function Flatten<T>(prizes: seq<Prize<T>>): seq<T>
    decreases |prizes|
  {
    if |prizes| == 0 then [] else prizes[0].winners + Flatten(prizes[1..])
  }

  /** One step of `Flatten`: the first prize's winners, then the rest's. */
  lemma FlattenCons<T>(first: Prize<T>, rest: seq<Prize<T>>)
    ensures Flatten([first] + rest) == first.winners + Flatten(rest)
  {
    assert ([first] + rest)[1..] == rest;
  }

  /** The loop of `release` over the positions, `counted` slots having been dealt
      out already: each position collects the occupied slots of the next run of
      `cap` slots, in slot order. */
  function Distribute<T>(ps: seq<Position>, slots: seq<Option<T>>, counted: nat): (prizes: seq<Prize<T>>)
    ensures |prizes| == |ps|
    decreases |ps|
  {
    if |ps| == 0 then []
    else
      var cap := ps[0].cap;
      [Prize(ps[0].name, Collect(slots, counted, counted + cap))] + Distribute(ps[1..], slots, counted + cap)
  }

  /** The released winners, in order, are the occupied slots of the dealt range:
      no slot is skipped and none is reported twice. */
  lemma {:induction false} DistributeCovers<T>(ps: seq<Position>, slots: seq<Option<T>>, counted: nat)
    ensures Flatten(Distribute(ps, slots, counted)) == Collect(slots, counted, counted + SumCaps(ps))
    decreases |ps|
  {
    if |ps| > 0 {
      var cap := ps[0].cap;
      var end := counted + cap + SumCaps(ps[1..]);
      DistributeFlattenCons(ps, slots, counted);
      DistributeCovers(ps[1..], slots, counted + cap);
      CollectSplit(slots, counted, counted + cap, end);
      SumCapsCons(ps);
      assert counted + SumCaps(ps) == end;
    }
  }

  /** The winners of a release are the first position's, then the rest's. */
  lemma DistributeFlattenCons<T>(ps: seq<Position>, slots: seq<Option<T>>, counted: nat)
    requires |ps| > 0
    ensures Flatten(Distribute(ps, slots, counted))
         == Collect(slots, counted, counted + ps[0].cap) + Flatten(Distribute(ps[1..], slots, counted + ps[0].cap))
  {
    var first := Prize(ps[0].name, Collect(slots, counted, counted + ps[0].cap));
    var rest := Distribute(ps[1..], slots, counted + ps[0].cap);
    DistributeCons(ps, slots, counted);
    FlattenCons(first, rest);
  }

  /** One step of the deal: the first position takes the first `cap` slots and
      the rest are dealt from there. */
  lemma DistributeCons<T>(ps: seq<Position>, slots: seq<Option<T>>, counted: nat)
    requires |ps| > 0
    ensures Distribute(ps, slots, counted)
         == [Prize(ps[0].name, Collect(slots, counted, counted + ps[0].cap))] + Distribute(ps[1..], slots, counted + ps[0].cap)
  {
  }

  /** Position `k` is released under its own name and receives exactly the
      occupied slots of its own range `[Offset(k), Offset(k) + cap_k)`, which lies
      inside the pool. */
  lemma {:induction false} DistributeRange<T>(ps: seq<Position>, slots: seq<Option<T>>, counted: nat, k: nat)
    requires k < |ps|
    ensures Offset(ps, k) + ps[k].cap <= SumCaps(ps)
    ensures Distribute(ps, slots, counted)[k]
         == Prize(ps[k].name, Collect(slots, counted + Offset(ps, k), counted + Offset(ps, k) + ps[k].cap))
    decreases k
  {
    OffsetBounds(ps, k);
    if k == 0 {
      DistributeHead(ps, slots, counted);
    } else {
      DistributeTail(ps, slots, counted, k);
      DistributeRange(ps[1..], slots, counted + ps[0].cap, k - 1);
    }
  }

  /** The first position takes the first run of slots. */
  lemma DistributeHead<T>(ps: seq<Position>, slots: seq<Option<T>>, counted: nat)
    requires 0 < |ps|
    ensures Distribute(ps, slots, counted)[0]
         == Prize(ps[0].name, Collect(slots, counted + Offset(ps, 0), counted + Offset(ps, 0) + ps[0].cap))
  {
  }

  /** Past the first position, the deal continues with the rest of the positions
      from the end of the first one's range. */
  lemma DistributeTail<T>(ps: seq<Position>, slots: seq<Option<T>>, counted: nat, k: nat)
    requires 0 < k < |ps|
    ensures Distribute(ps, slots, counted)[k] == Distribute(ps[1..], slots, counted + ps[0].cap)[k - 1]
    ensures ps[1..][k - 1] == ps[k]
    ensures counted + Offset(ps, k) == (counted + ps[0].cap) + Offset(ps[1..], k - 1)
    ensures counted + Offset(ps, k) + ps[k].cap == (counted + ps[0].cap) + Offset(ps[1..], k - 1) + ps[1..][k - 1].cap
  {
  }

  /** Every released position keeps its name and gets no more winners than its
      capacity. */
  lemma DistributeShape<T>(ps: seq<Position>, slots: seq<Option<T>>, counted: nat)
    ensures forall k {:trigger Distribute(ps, slots, counted)[k]} :: 0 <= k < |ps| ==>
      && Distribute(ps, slots, counted)[k].name == ps[k].name
      && |Distribute(ps, slots, counted)[k].winners| <= ps[k].cap
  {
    forall k | 0 <= k < |ps|
      ensures Distribute(ps, slots, counted)[k].name == ps[k].name
      ensures |Distribute(ps, slots, counted)[k].winners| <= ps[k].cap
    {
      var lo := counted + Offset(ps, k);
      DistributeRange(ps, slots, counted, k);
      CollectLength(slots, lo, lo + ps[k].cap);
    }
  }

  /** `release()`: lock the reservoir; fail when no slot holds anything,
      otherwise deal the locked slots out to the positions. */
  function Release<T>(ch: Choosen<T>, raws: seq<nat>): (r: Result<seq<Prize<T>>, ChoosenError>)
    requires WellSized(ch)
    requires |raws| >= Remaining(ch.lucky.total, |ch.lucky.pool|)
    ensures r.Err? ==> r.error == NoOneIsChoosen && Held(Lock(ch.lucky, raws)) == []
    ensures r.Ok? ==>
      && |r.value| == |ch.positions|
      && (forall k {:trigger r.value[k]} :: 0 <= k < |ch.positions| ==>
            r.value[k].name == ch.positions[k].name && |r.value[k].winners| <= ch.positions[k].cap)
      && Flatten(r.value) == Held(Lock(ch.lucky, raws))
      && Flatten(r.value) != []
  {
    var locked := Lock(ch.lucky, raws);
    HeldEmpty(locked);
    if AllEmpty(locked) then Err(NoOneIsChoosen)
    else
      DistributeShape(ch.positions, locked, 0);
      DistributeCovers(ch.positions, locked, 0);
      CollectAll(locked);
      Ok(Distribute(ch.positions, locked, 0))
  }

  /** Release fails exactly when nothing was ever drawn: with at least one slot,
      a drawn item always occupies one, and locking keeps it. */
  lemma ReleaseFailsIffNothingDrawn<T>(ch: Choosen<T>, raws: seq<nat>)
    requires Valid(ch)
    requires |raws| >= Remaining(ch.lucky.total, |ch.lucky.pool|)
    ensures Release(ch, raws).Err? <==> ch.lucky.total == 0
  {
    LockKeepsItems(ch.lucky, raws);
    SumCapsAtLeastCount(ch.positions);
  }

  /** The number of winners released is `min(items drawn, capacity)`. */
  lemma ReleaseCount<T>(ch: Choosen<T>, raws: seq<nat>)
    requires Valid(ch)
    requires |raws| >= Remaining(ch.lucky.total, |ch.lucky.pool|)
    ensures Release(ch, raws).Ok? ==>
      |Flatten(Release(ch, raws).value)| == Min(ch.lucky.total, SumCaps(ch.positions))
  {
    LockKeepsItems(ch.lucky, raws);
  }
}
