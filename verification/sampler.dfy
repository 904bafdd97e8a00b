/** The reservoir sampler: Vitter's Algorithm R over a fixed-length pool of
    optional slots, with an inside-out Fisher-Yates backfill while the pool is
    still filling, and a `lock` that finishes that shuffle for an unfilled pool.

    Every random draw is an explicit argument: `sample` takes one raw number and
    `lock` takes one raw number per loop iteration. The rank of an item is
    `raw % total + 1`, as in the source. */
module Sampler {
  import opened Results
  import opened Slots

  /** `total` counts the items passed through so far; `|pool|` is the capacity. */
  datatype Reservoir<T> = Reservoir(total: nat, pool: seq<Option<T>>)

  /** What one `sample` call returns: the rank drawn for the item, the number of
      items passed through so far and the item it replaced, plus the reservoir
      after the call. */
  datatype Sampled<T> = Sampled(rank: nat, seen: nat, evicted: Option<T>, after: Reservoir<T>)

  /** One iteration of `lock`: the rank drawn and the pool after the move. */
  datatype Draw<T> = Draw(rank: nat, pool: seq<Option<T>>)

  /** The reservoir invariant: exactly the first `min(total, capacity)` slots are
      occupied. During warm-up (`total <= capacity`) the slots `[0, total)` are
      occupied and `[total, capacity)` are empty; afterwards every slot is occupied. */
  predicate Valid<T>(res: Reservoir<T>) {
    OccupiedBelow(res.pool, res.total)
  }

  /** `with_capacity(n)`: nothing seen yet and `n` empty slots. */
  function WithCapacity<T>(n: nat): (res: Reservoir<T>)
    ensures res.total == 0 && |res.pool| == n
    ensures AllEmpty(res.pool)
    ensures Valid(res)
  {
    Reservoir(0, seq(n, _ => None))
  }

  /** The rank `raw % n + 1` the source derives from a raw random number; it lies
      in `[1, n]`. */
  function Rank(raw: nat, n: nat): (r: nat)
    requires n >= 1
    ensures 1 <= r <= n
  {
    raw % n + 1
  }

  /** `sample(it)`: count the item, draw its rank in `[1, total]`, put it into
      slot `rank - 1` when that slot exists, and during warm-up move the item it
      displaced into slot `total - 1`. */
  function Sample<T>(res: Reservoir<T>, it: T, raw: nat): (s: Sampled<T>)
    ensures s.seen == res.total + 1 && s.after.total == s.seen
    ensures s.rank == Rank(raw, s.seen) && 1 <= s.rank <= s.seen
    ensures |s.after.pool| == |res.pool|
    // warm-up: the item lands in slot `rank - 1`, and the item it displaced moves
    // on to slot `seen - 1`; every other slot is untouched
    ensures s.seen <= |res.pool| ==>
      && s.after.pool[s.rank - 1] == Some(it)
      && (s.rank < s.seen ==> s.after.pool[s.seen - 1] == res.pool[s.rank - 1] && s.evicted == None)
      && (s.rank == s.seen ==> s.evicted == res.pool[s.rank - 1])
      && (forall j {:trigger s.after.pool[j]} :: 0 <= j < |res.pool| && j != s.rank - 1 && j != s.seen - 1 ==>
            s.after.pool[j] == res.pool[j])
    // steady state: the item replaces the occupant of slot `rank - 1`, if that slot exists
    ensures s.seen > |res.pool| && s.rank <= |res.pool| ==>
      && s.after.pool == res.pool[s.rank - 1 := Some(it)]
      && s.evicted == res.pool[s.rank - 1]
    ensures s.seen > |res.pool| && s.rank > |res.pool| ==>
      s.after.pool == res.pool && s.evicted == None
    ensures Valid(res) ==> Valid(s.after)
  {
    var cap := |res.pool|;
    var total := res.total + 1;
    var r := Rank(raw, total);
    var placed := if r <= cap then res.pool[r - 1 := Some(it)] else res.pool;
    var replaced := if r <= cap then res.pool[r - 1] else None;
    if total <= cap && r < total then
      Sampled(r, total, None, Reservoir(total, placed[total - 1 := replaced]))
    else
      Sampled(r, total, replaced, Reservoir(total, placed))
  }

  /** The warm-up move on a bare pool: the new item goes to slot `r - 1` and the
      item it displaced moves on to the empty slot `t - 1`. */
  lemma BackfillKeepsItems<T>(pool: seq<Option<T>>, t: nat, r: nat, it: T)
    requires 1 <= r < t <= |pool| && pool[t - 1] == None
    ensures Occupants(pool[r - 1 := Some(it)][t - 1 := pool[r - 1]])
         == Occupants(pool) + multiset{it}
  {
    var placed := pool[r - 1 := Some(it)];
    OccupantsUpdate(pool, r - 1, Some(it));
    OccupantsUpdate(placed, t - 1, pool[r - 1]);
    assert placed[t - 1] == None;
    AddNothing(Occupants(placed[t - 1 := pool[r - 1]]), Opt(placed[t - 1]));
    assert Opt(Some(it)) == multiset{it};
  }

  /** During warm-up no item is evicted and the pool gains exactly the new item. */
  lemma SampleWarmUp<T>(res: Reservoir<T>, it: T, raw: nat)
    requires Valid(res) && res.total < |res.pool|
    ensures var s := Sample(res, it, raw);
      && s.evicted == None
      && Occupants(s.after.pool) == Occupants(res.pool) + multiset{it}
  {
    var s := Sample(res, it, raw);
    var t := s.seen;
    var r := s.rank;
    assert res.pool[t - 1] == None;
    if r < t {
      assert s.after.pool == res.pool[r - 1 := Some(it)][t - 1 := res.pool[r - 1]];
      BackfillKeepsItems(res.pool, t, r, it);
    } else {
      assert s.after.pool == res.pool[r - 1 := Some(it)];
      OccupantsUpdate(res.pool, r - 1, Some(it));
      AddNothing(Occupants(s.after.pool), Opt(res.pool[r - 1]));
      assert Opt(Some(it)) == multiset{it};
    }
  }

  /** No item is lost: an item that enters the pool either joins the held items
      or is handed back in place of the one it evicted; an item whose rank exceeds
      the capacity leaves the pool untouched. */
  lemma SampleConserves<T>(res: Reservoir<T>, it: T, raw: nat)
    requires Valid(res)
    ensures var s := Sample(res, it, raw);
      && (s.rank <= |res.pool| ==>
            Occupants(s.after.pool) + Opt(s.evicted) == Occupants(res.pool) + multiset{it})
      && (s.rank > |res.pool| ==> s.after.pool == res.pool && s.evicted == None)
  {
    var s := Sample(res, it, raw);
    if res.total < |res.pool| {
      SampleWarmUp(res, it, raw);
      AddNothing(Occupants(s.after.pool), Opt(s.evicted));
    } else if s.rank <= |res.pool| {
      OccupantsUpdate(res.pool, s.rank - 1, Some(it));
      assert Opt(Some(it)) == multiset{it};
    }
  }

  /** With the invariant, the pool holds `min(total, capacity)` items. */
  lemma OccupiedCount<T>(res: Reservoir<T>)
    requires Valid(res)
    ensures |Held(res.pool)| == Min(res.total, |res.pool|)
  {
    HeldCount(res.pool, res.total);
  }

  /** `samples()`: a read-only view of the slots, usable at any point of the
      stream; with the invariant it shows exactly the first `min(total, capacity)`
      slots occupied. */
  function Samples<T>(res: Reservoir<T>): (view: seq<Option<T>>)
    ensures view == res.pool
    ensures |view| == |res.pool|
    ensures Valid(res) ==> forall i :: 0 <= i < |view| ==> (view[i].Some? <==> i < res.total)
  {
    res.pool
  }

  /** Feed a stream of items, one raw draw per item, through `sample`. */
  function Feed<T>(res: Reservoir<T>, items: seq<T>, raws: seq<nat>): (fed: Reservoir<T>)
    requires |raws| == |items|
    ensures fed.total == res.total + |items|
    ensures |fed.pool| == |res.pool|
    ensures Valid(res) ==> Valid(fed)
    decreases |items|
  {
    if |items| == 0 then res
    else Feed(Sample(res, items[0], raws[0]).after, items[1..], raws[1..])
  }

  /** Warm-up completeness: while the stream is no longer than the free slots,
      the pool holds exactly the items fed, each once. */
  lemma {:induction false} FeedWarmUp<T>(res: Reservoir<T>, items: seq<T>, raws: seq<nat>)
    requires |raws| == |items|
    requires Valid(res) && res.total + |items| <= |res.pool|
    ensures Occupants(Feed(res, items, raws).pool) == Occupants(res.pool) + multiset(items)
    decreases |items|
  {
    if |items| > 0 {
      var next := Sample(res, items[0], raws[0]).after;
      SampleWarmUp(res, items[0], raws[0]);
      FeedWarmUp(next, items[1..], raws[1..]);
      FeedCons(res, items, raws);
      ItemsCons(items);
      Regroup(Occupants(Feed(next, items[1..], raws[1..]).pool), Occupants(next.pool),
              Occupants(res.pool), multiset{items[0]}, multiset(items[1..]));
    }
  }

  /** One step of `Feed`: the first item, then the rest of the stream. */
  lemma FeedCons<T>(res: Reservoir<T>, items: seq<T>, raws: seq<nat>)
    requires |raws| == |items| > 0
    ensures Feed(res, items, raws) == Feed(Sample(res, items[0], raws[0]).after, items[1..], raws[1..])
  {
  }

  /** The items of a non-empty stream: the first one and the rest. */
  lemma ItemsCons<T>(items: seq<T>)
    requires |items| > 0
    ensures multiset(items) == multiset{items[0]} + multiset(items[1..])
  {
    assert items == [items[0]] + items[1..];
  }

  /** `x = n + b` and `n = r + a` give `x = r + (a + b)`. */
  lemma Regroup<T>(x: multiset<T>, n: multiset<T>, r: multiset<T>, a: multiset<T>, b: multiset<T>)
    requires x == n + b && n == r + a
    ensures x == r + (a + b)
  {
  }

  /** The number of loop iterations `lock` performs, hence the draws it needs. */
  function Remaining(total: nat, cap: nat): nat {
    if total < cap then cap - total else 0
  }

  /** One iteration of `lock` with loop counter `i` (before its increment): draw
      a rank in `[1, i + 1]` and move the contents of slot `rank - 1` into slot
      `i`, leaving the source slot empty. The rank never exceeds the capacity, so
      the source's `r <= capacity` test always passes. */
  function LockStep<T>(pool: seq<Option<T>>, i: nat, raw: nat): (d: Draw<T>)
    requires i < |pool|
    ensures d.rank == Rank(raw, i + 1)
    ensures 1 <= d.rank <= i + 1 <= |pool|
    ensures |d.pool| == |pool|
    ensures d.pool[i] == pool[d.rank - 1]
    ensures d.rank - 1 != i ==> d.pool[d.rank - 1] == None
    ensures forall j {:trigger d.pool[j]} :: 0 <= j < |pool| && j != i && j != d.rank - 1 ==> d.pool[j] == pool[j]
  {
    var r := Rank(raw, i + 1);
    Draw(r, if r <= |pool| then pool[r - 1 := None][i := pool[r - 1]] else pool)
  }

  /** The `lock` loop from counter `i` on. */
  function LockFrom<T>(pool: seq<Option<T>>, i: nat, raws: seq<nat>): (locked: seq<Option<T>>)
    requires |raws| >= Remaining(i, |pool|)
    ensures |locked| == |pool|
    ensures i >= |pool| ==> locked == pool
    decreases |pool| - i
  {
    if i >= |pool| then pool
    else LockFrom(LockStep(pool, i, raws[0]).pool, i + 1, raws[1..])
  }

  /** `lock()`: end sampling and return the slots, finishing the inside-out
      shuffle when the pool never filled. */
  function Lock<T>(res: Reservoir<T>, raws: seq<nat>): (locked: seq<Option<T>>)
    requires |raws| >= Remaining(res.total, |res.pool|)
    ensures |locked| == |res.pool|
    ensures res.total >= |res.pool| ==> locked == res.pool
  {
    LockFrom(res.pool, res.total, raws)
  }

  /** Each `lock` iteration moves an item into a still-empty slot, so the loop
      keeps the items it was given, as long as the slots from `i` on are empty. */
  lemma {:induction false} LockFromKeepsItems<T>(pool: seq<Option<T>>, i: nat, raws: seq<nat>)
    requires |raws| >= Remaining(i, |pool|)
    requires forall j :: i <= j < |pool| ==> pool[j].None?
    ensures Occupants(LockFrom(pool, i, raws)) == Occupants(pool)
    decreases |pool| - i
  {
    if i < |pool| {
      var d := LockStep(pool, i, raws[0]);
      MoveKeepsItems(pool, d.rank - 1, i);
      LockFromKeepsItems(d.pool, i + 1, raws[1..]);
    }
  }

  /** Moving the contents of slot `from` into the empty slot `to` keeps the items. */
  lemma MoveKeepsItems<T>(pool: seq<Option<T>>, from: nat, to: nat)
    requires from < |pool| && to < |pool| && pool[to] == None
    ensures Occupants(pool[from := None][to := pool[from]]) == Occupants(pool)
  {
    if from != to {
      var cleared := pool[from := None];
      var moved := cleared[to := pool[from]];
      OccupantsUpdate(pool, from, None);
      OccupantsUpdate(cleared, to, pool[from]);
      assert cleared[to] == None;
      AddNothing(Occupants(moved), Opt(cleared[to]));
      AddNothing(Occupants(pool), Opt(None));
    } else {
      assert pool[from := None][to := pool[from]] == pool;
    }
  }

  /** `lock` returns the same held items, possibly reordered, and no more than the
      capacity of them. */
  lemma LockKeepsItems<T>(res: Reservoir<T>, raws: seq<nat>)
    requires Valid(res)
    requires |raws| >= Remaining(res.total, |res.pool|)
    ensures Occupants(Lock(res, raws)) == Occupants(res.pool)
    ensures |Held(Lock(res, raws))| == Min(res.total, |res.pool|)
  {
    var locked := Lock(res, raws);
    LockFromKeepsItems(res.pool, res.total, raws);
    OccupiedCount(res);
    HeldOccupants(locked);
    HeldOccupants(res.pool);
    assert |multiset(Held(locked))| == |Held(locked)|;
    assert |multiset(Held(res.pool))| == |Held(res.pool)|;
  }
}
