/** Facts about a sequence of optional slots: which items it holds, and how those
    change when one slot is overwritten or the sequence is cut into ranges. */
module Slots {
  import opened Results

  /** The items held by `slots`, in slot order, skipping empty slots. */
  function Held<T>(slots: seq<Option<T>>): (items: seq<T>)
    ensures |items| <= |slots|
  {
    if |slots| == 0 then []
    else AsSeq(slots[0]) + Held(slots[1..])
  }

  predicate AllEmpty<T>(slots: seq<Option<T>>) {
    forall i :: 0 <= i < |slots| ==> slots[i].None?
  }

  /** Exactly the slots below `k` are occupied. */
  predicate OccupiedBelow<T>(slots: seq<Option<T>>, k: nat) {
    forall i :: 0 <= i < |slots| ==> (slots[i].Some? <==> i < k)
  }

  /** A slot sequence holds nothing exactly when every slot is empty. */
  lemma {:induction false} HeldEmpty<T>(slots: seq<Option<T>>)
    ensures Held(slots) == [] <==> AllEmpty(slots)
    decreases |slots|
  {
    if |slots| > 0 {
      HeldEmpty(slots[1..]);
      if slots[0].None? {
        assert forall i :: 1 <= i < |slots| ==> slots[i] == slots[1..][i - 1];
      }
    }
  }

  /** When the first `k` slots are occupied and the rest are empty, the slot
      sequence holds `min(k, |slots|)` items. */
  lemma {:induction false} HeldCount<T>(slots: seq<Option<T>>, k: nat)
    requires OccupiedBelow(slots, k)
    ensures |Held(slots)| == Min(k, |slots|)
    decreases |slots|
  {
    if |slots| > 0 {
      var k' := if k == 0 then 0 else k - 1;
      assert OccupiedBelow(slots[1..], k') by {
        forall i | 0 <= i < |slots[1..]|
          ensures slots[1..][i].Some? <==> i < k'
        {
          assert slots[1..][i] == slots[i + 1];
        }
      }
      HeldCount(slots[1..], k');
    }
  }

  /** The items held by `slots`, as a multiset. This equals `multiset(Held(slots))`
      (see `HeldOccupants`), but a direct recursion over the slots keeps the
      multiset reasoning about single-slot updates cheap for the solver. */
  function Occupants<T>(slots: seq<Option<T>>): multiset<T>
    decreases |slots|
  {
    if |slots| == 0 then multiset{} else Opt(slots[0]) + Occupants(slots[1..])
  }

  /** `Occupants` counts exactly the items `Held` lists. */
  lemma {:induction false} HeldOccupants<T>(slots: seq<Option<T>>)
    ensures multiset(Held(slots)) == Occupants(slots)
    decreases |slots|
  {
    if |slots| > 0 {
      HeldOccupants(slots[1..]);
      assert multiset(AsSeq(slots[0])) == Opt(slots[0]);
    }
  }

  /** A slot sequence with every slot empty holds no items. */
  lemma {:induction false} OccupantsEmpty<T>(slots: seq<Option<T>>)
    requires AllEmpty(slots)
    ensures Occupants(slots) == multiset{}
    decreases |slots|
  {
    if |slots| > 0 {
      assert AllEmpty(slots[1..]) by {
        forall i | 0 <= i < |slots[1..]| ensures slots[1..][i].None? {
          assert slots[1..][i] == slots[i + 1];
        }
      }
      OccupantsEmpty(slots[1..]);
    }
  }

  /** Overwriting slot `k` with `v` removes the item it held and adds the item of `v`. */
  lemma {:induction false} OccupantsUpdate<T>(slots: seq<Option<T>>, k: nat, v: Option<T>)
    requires k < |slots|
    ensures Occupants(slots[k := v]) + Opt(slots[k]) == Occupants(slots) + Opt(v)
    decreases |slots|
  {
    var updated, rest := slots[k := v], slots[1..];
    OccupantsCons(slots);
    OccupantsCons(updated);
    if k == 0 {
      assert updated[1..] == rest;
      SwapEnds(Opt(v), Occupants(rest), Opt(slots[0]));
    } else {
      assert updated[1..] == rest[k - 1 := v];
      assert rest[k - 1] == slots[k] && updated[0] == slots[0];
      OccupantsUpdate(rest, k - 1, v);
      AddFront(Opt(slots[0]), Occupants(rest[k - 1 := v]), Opt(rest[k - 1]), Occupants(rest), Opt(v));
    }
  }

  /** Adding the empty multiset changes nothing. */
  lemma AddNothing<T>(x: multiset<T>, e: multiset<T>)
    requires e == multiset{}
    ensures x + e == x
  {
  }

  /** `(a + m) + b == (b + m) + a` for multisets. */
  lemma SwapEnds<T>(a: multiset<T>, m: multiset<T>, b: multiset<T>)
    ensures (a + m) + b == (b + m) + a
  {
  }

  /** Adding the same multiset in front of both sides keeps an equation. */
  lemma AddFront<T>(x: multiset<T>, a: multiset<T>, b: multiset<T>, c: multiset<T>, d: multiset<T>)
    requires a + b == c + d
    ensures (x + a) + b == (x + c) + d
  {
    calc {
      (x + a) + b;
      x + (a + b);
      x + (c + d);
      (x + c) + d;
    }
  }

  /** One step of `Occupants`: the first slot, then the rest. */
  lemma OccupantsCons<T>(slots: seq<Option<T>>)
    requires |slots| > 0
    ensures Occupants(slots) == Opt(slots[0]) + Occupants(slots[1..])
  {
  }

  /** The items held by the slots `[lo, hi)`, in slot order: the inner loop of a
      release, which walks the range index by index and keeps what it finds.
      Slots past the end of the sequence hold nothing. */
  function Collect<T>(slots: seq<Option<T>>, lo: nat, hi: nat): seq<T>
    decreases hi - lo
  {
    if lo >= hi || lo >= |slots| then [] else AsSeq(slots[lo]) + Collect(slots, lo + 1, hi)
  }

  /** A range of `hi - lo` slots yields at most `hi - lo` items. */
  lemma {:induction false} CollectLength<T>(slots: seq<Option<T>>, lo: nat, hi: nat)
    requires lo <= hi
    ensures |Collect(slots, lo, hi)| <= hi - lo
    decreases hi - lo
  {
    if lo < hi && lo < |slots| {
      CollectLength(slots, lo + 1, hi);
    }
  }

  /** Collecting `[lo, hi)` is collecting `[lo, mid)` and then `[mid, hi)`. */
  lemma {:induction false} CollectSplit<T>(slots: seq<Option<T>>, lo: nat, mid: nat, hi: nat)
    requires lo <= mid <= hi
    ensures Collect(slots, lo, hi) == Collect(slots, lo, mid) + Collect(slots, mid, hi)
    decreases mid - lo
  {
    if lo < mid && lo < |slots| {
      var first, inner, outer := AsSeq(slots[lo]), Collect(slots, lo + 1, mid), Collect(slots, mid, hi);
      calc {
        Collect(slots, lo, hi);
        { CollectCons(slots, lo, hi); }
        first + Collect(slots, lo + 1, hi);
        { CollectSplit(slots, lo + 1, mid, hi); }
        first + (inner + outer);
        (first + inner) + outer;
        { CollectCons(slots, lo, mid); }
        Collect(slots, lo, mid) + outer;
      }
    } else {
      assert Collect(slots, lo, mid) == [];
    }
  }

  /** One step of the walk: the first slot of a non-empty range inside the sequence. */
  lemma CollectCons<T>(slots: seq<Option<T>>, lo: nat, hi: nat)
    requires lo < hi && lo < |slots|
    ensures Collect(slots, lo, hi) == AsSeq(slots[lo]) + Collect(slots, lo + 1, hi)
  {
  }

  /** Collecting from `lo` to the end gives the items held by the suffix. */
  lemma {:induction false} CollectSuffix<T>(slots: seq<Option<T>>, lo: nat)
    requires lo <= |slots|
    ensures Collect(slots, lo, |slots|) == Held(slots[lo..])
    decreases |slots| - lo
  {
    if lo < |slots| {
      CollectSuffix(slots, lo + 1);
      assert slots[lo..][0] == slots[lo];
      assert slots[lo..][1..] == slots[lo + 1..];
    } else {
      assert slots[lo..] == [];
    }
  }

  /** Collecting the whole sequence gives every held item. */
  lemma CollectAll<T>(slots: seq<Option<T>>)
    ensures Collect(slots, 0, |slots|) == Held(slots)
  {
    CollectSuffix(slots, 0);
    assert slots[0..] == slots;
  }
}
