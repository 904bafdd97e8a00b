# Reservoir sampler and `choosen` lottery, in Dafny

This project models two crates of the `reservoir-sampler` repository:

- **The reservoir sampler** (`Reservoir` in `sampler/examples/simple_reservoir.rs`, which implements the `ReservoirSampler` trait of `sampler/src/lib.rs`). It is Vitter's Algorithm R over a fixed-length pool of optional slots.
  - `sample` counts the item and draws a rank `r = raw % total + 1`. When `r` is within the capacity, the item goes into slot `r - 1`.
  - While the pool is still filling and the rank is below the count, the displaced item is moved to slot `total - 1`. This is the inside-out Fisher–Yates backfill.
  - `samples` shows the slots.
  - `lock` finishes the shuffle for a pool that never filled and hands the slots back.
- **The `choosen` lottery** (`choosen/src/pos.rs`, `choosen/src/builder.rs`, `choosen/src/lib.rs`).
  - A *position* is a named prize tier with a capacity.
  - A *builder* stages a validated list of positions. `build` creates a `Choosen`, whose reservoir has one slot per unit of capacity.
  - `poll_one` feeds items into the reservoir.
  - `release` locks the reservoir and deals its slots out to the positions in declared order. Each position takes the next run of `cap` slots and keeps the occupied ones.

The model is functional:
- Every random number the source draws with `rand::random` is an explicit argument. `sample` takes one raw number. `lock` takes a sequence of raw numbers, one per loop iteration.
- Every `&mut self -> Result<&mut Self, E>` call returns an `Update(after, outcome)`. `after` is the receiver as the caller sees it afterwards, so "a refused change leaves the value as it was" is a stated property.
- Modules follow the source:
  - `Results`: option, result and update types.
  - `Slots`: what a slot sequence holds, as a sequence and as a multiset.
  - `Sampler`: `simple_reservoir.rs` and the trait.
  - `Positions`: `pos.rs`.
  - `Lottery`: `choosen/src/lib.rs`.
  - `Builder`: `builder.rs`.
  - `Scenarios`: the whole lottery, from builder to release, and the source's unit tests stated for every sequence of random draws.

## Model

| member | source | states |
|---|---|---|
| Sampler.WithCapacity | sampler/examples/simple_reservoir.rs:10-15 | a new reservoir has seen nothing and has exactly `n` slots, all empty; it satisfies the reservoir invariant |
| Sampler.Rank | sampler/examples/simple_reservoir.rs:27 | the rank drawn for the `total`-th item lies in `[1, total]` whatever the raw number |
| Sampler.Sample | sampler/examples/simple_reservoir.rs:21-39 | one call consumes one item: the count grows by exactly one and is returned as the second component, the rank is `raw % count + 1` for the raw random number and so lies in `[1, count]`, and the pool length never changes. During warm-up (count within capacity) the item lands in slot `rank - 1`; when the rank is below the count, that slot's previous occupant moves on to slot `count - 1` and nothing is returned, otherwise that slot's previous occupant is returned; every other slot is unchanged. In steady state (count above capacity), a rank within the capacity puts the item in slot `rank - 1` and returns that slot's previous occupant, and every other slot is unchanged. A rank above the capacity leaves the pool unchanged and returns nothing. The invariant "slot `i` is occupied iff `i < total`" is preserved |
| Sampler.SampleWarmUp | sampler/examples/simple_reservoir.rs:29-36 | while the pool is not full, nothing is evicted and the multiset of held items grows by exactly the new item |
| Sampler.BackfillKeepsItems | sampler/examples/simple_reservoir.rs:30-35 | placing the item in slot `r - 1` and moving the displaced occupant to the empty slot `total - 1` adds exactly the new item to the held multiset |
| Sampler.SampleConserves | sampler/examples/simple_reservoir.rs:28-38 | no item is lost or duplicated: held items plus the returned evicted item equal the old held items plus the new one; an out-of-capacity rank changes nothing |
| Sampler.OccupiedCount | sampler/examples/simple_reservoir.rs:24-36 | under the invariant the pool holds exactly `min(total, capacity)` items |
| Sampler.Samples | sampler/examples/simple_reservoir.rs:41-43 | the view is the pool itself, slot for slot; under the invariant exactly the slots below `total` are occupied |
| Sampler.Feed | sampler/src/lib.rs:14-22 | feeding a stream one item per call counts every item, keeps the pool length and keeps the invariant |
| Sampler.FeedWarmUp | sampler/examples/simple_reservoir.rs:29-36 | while the stream fits into the free slots, the held multiset is the old one plus exactly the items fed |
| Sampler.LockStep | sampler/examples/simple_reservoir.rs:48-53 | one `lock` iteration draws `r = raw % i + 1` for its raw random number, so `r` lies in `[1, i]`, which never exceeds the capacity; slot `i - 1` receives the old contents of slot `r - 1`, the source slot is emptied when it differs, and all other slots are unchanged |
| Sampler.LockFrom | sampler/examples/simple_reservoir.rs:46-56 | the `lock` loop keeps the pool length and does nothing once the counter has reached the capacity |
| Sampler.Lock | sampler/examples/simple_reservoir.rs:45-57 | the locked slots have the pool's length; a pool that filled (`total >= capacity`) is returned unchanged |
| Sampler.LockFromKeepsItems | sampler/examples/simple_reservoir.rs:47-54 | while every slot from the counter on is empty, each iteration writes into a still-empty slot, so the loop keeps the held multiset |
| Sampler.MoveKeepsItems | sampler/examples/simple_reservoir.rs:52 | moving a slot's contents into an empty slot (or onto itself) keeps the held multiset |
| Sampler.LockKeepsItems | sampler/src/lib.rs:28-29 | `lock` returns the same held items, possibly reordered, and `min(total, capacity)` of them |
| Slots.HeldEmpty | choosen/src/lib.rs:37 | the slots hold no item iff every slot is empty, which is the test `release` uses before dealing |
| Slots.CollectLength | choosen/src/lib.rs:44-50 | walking a range of `cap` slots collects at most `cap` items |
| Positions.Default | choosen/src/pos.rs:22-29 | the default position is named `"default_name"` with capacity 1, and is valid |
| Positions.SetName | choosen/src/pos.rs:36-42 | an empty name fails with `EmptyName` and leaves the position as it was; any other name replaces the name and keeps the capacity; validity is preserved |
| Positions.SetCap | choosen/src/pos.rs:48-54 | a zero capacity fails with `ZeroCapacity` and leaves the position as it was; any other capacity replaces the capacity and keeps the name; validity is preserved |
| Positions.OffsetBounds | choosen/src/lib.rs:41-53 | position `k`'s range starts where position `k - 1`'s ends and ends within the total capacity, so every index `counted + i` that `release` reads is inside the pool |
| Positions.OffsetEnd | choosen/src/lib.rs:41-53 | after the last position, `counted` equals the total capacity: the ranges exactly tile the pool |
| Positions.SumCapsAtLeastCount | choosen/src/builder.rs:89 | with every position valid, the total capacity is at least the number of positions |
| Builder.New | choosen/src/builder.rs:26-30 | a new builder stages no position |
| Builder.AddPosition | choosen/src/builder.rs:32-40 | an empty name fails with `WrongPositionType(EmptyName)`, even when the capacity is also zero; a zero capacity fails with `WrongPositionType(ZeroCapacity)`; both failures leave the builder as it was; otherwise exactly one position with that name and capacity is appended and the others are untouched |
| Builder.CheckIdx | choosen/src/builder.rs:42-48 | the check passes iff `idx` is below the number of positions, and otherwise fails with `PositionOutBound(idx)` |
| Builder.SetPositionName | choosen/src/builder.rs:50-60 | an out-of-range index fails with `PositionOutBound(idx)`, and an empty name with `WrongPositionType(EmptyName)`; either way nothing changes. Otherwise only the name of position `idx` changes |
| Builder.SetPositionCap | choosen/src/builder.rs:62-72 | an out-of-range index fails with `PositionOutBound(idx)`, and a zero capacity with `WrongPositionType(ZeroCapacity)`; either way nothing changes. Otherwise only the capacity of position `idx` changes |
| Builder.RemovePosition | choosen/src/builder.rs:74-78 | an out-of-range index fails with `PositionOutBound(idx)` and nothing changes; otherwise the length drops by one, the positions before `idx` stay and those after it move down by one, in order |
| Builder.StagedPositions | choosen/src/builder.rs:80-82 | the view is the staged list itself, in order, each valid when the builder is |
| Builder.Build | choosen/src/builder.rs:84-95 | building fails with `EmptyBuilder` iff nothing is staged; otherwise the lottery holds a copy of the positions and a fresh reservoir: nothing seen, every slot empty, one slot per unit of capacity, satisfying the lottery invariant |
| Builder.BuildCapacity | choosen/src/builder.rs:89-94 | a built lottery has at least as many slots as positions, and at least one |
| Lottery.PollOne | choosen/src/lib.rs:26-28 | `poll_one` returns exactly the reservoir's `sample` tuple and state; the positions never change and the lottery invariant is kept |
| Lottery.Lucky | choosen/src/lib.rs:30-32 | `lucky` is exactly the reservoir's `samples`, one entry per unit of capacity |
| Lottery.PollAll | choosen/src/lib.rs:72-75 | polling a stream item by item is feeding it to the reservoir; positions and invariant are kept |
| Lottery.Distribute | choosen/src/lib.rs:41-53 | the deal produces one entry per position |
| Lottery.DistributeShape | choosen/src/lib.rs:43-53 | entry `k` carries position `k`'s name, even when its list is empty, and holds at most `cap_k` winners |
| Lottery.DistributeRange | choosen/src/lib.rs:44-53 | entry `k` holds exactly the occupied slots of `[Σ_{j<k} cap_j, Σ_{j<k} cap_j + cap_k)`, in slot order, and that range lies inside the pool |
| Lottery.DistributeCovers | choosen/src/lib.rs:41-53 | all lists, concatenated in position order, are exactly the occupied slots of the dealt range in slot order: no slot is skipped or reported twice |
| Lottery.Release | choosen/src/lib.rs:34-57 | release fails with `NoOneIsChoosen` only when the locked slots hold nothing. Otherwise it returns a non-empty deal with one entry per position, in declared order, carrying each position's name and at most its capacity of winners; the concatenated winners are exactly the items held by the locked pool |
| Lottery.ReleaseFailsIffNothingDrawn | choosen/src/lib.rs:35-39 | for a lottery that satisfies its invariant, release fails iff no item was ever polled |
| Lottery.ReleaseCount | choosen/src/lib.rs:41-56 | a successful release hands out `min(items polled, total capacity)` winners |
| Scenarios.RunLottery | choosen/src/lib.rs:64-79 | for every valid builder, stream and sequence of draws: release fails iff the stream is empty; otherwise `min(n, capacity)` winners come out, and when `n <= capacity` they are exactly the items polled, each as often as it was polled |
| Scenarios.HaveSomethingChoosen | choosen/src/lib.rs:64-79 | with tiers `一等奖`, `二等奖` and `三等奖` of capacity 1, 1 and 4 and the items `8, 1, 1, 9, 2`, release succeeds with three entries in declared order, each within its capacity, whose winners are exactly those five items |
| Scenarios.HaveNothingChoosen | choosen/src/lib.rs:82-91 | a lottery with tiers of capacity 3 and 4 and nothing polled fails with `NoOneIsChoosen` |
| Scenarios.EmptyBuilderShouldNotBuild | choosen/src/builder.rs:240-253 | a new builder, and one that had its only position removed, fail with `EmptyBuilder` |
| Scenarios.EditPositions | choosen/src/builder.rs:159-237 | the source's remove, rename, resize and `positions` examples give the staged lists and errors its tests expect |

## Left out

- `rand::random` is not modelled. Every draw is an explicit raw natural number, so the properties hold for every sequence of draws. Uniformity, inclusion probabilities and the modulo bias of `raw % total` are statistical claims and are not stated.
- `Vec::capacity()` and `len()` are both the pool's length. `vec![None; n]` gives a vector whose length is `n`.
- `usize` overflow is not modelled. `total`, capacities and their sum are unbounded naturals.
- The generic `PositionType` trait and the `Default + Clone` bounds are not modelled; only the concrete `Position` is. Names are character sequences, and the source's byte-length test `name.len() == 0` is modelled as emptiness.
- Ownership is not modelled: `take()`, consuming `self` in `lock` and `release`, and `&mut Self` chaining. The functions return new values. A chained call in the tests becomes a nested call on `after`.
- `main` in the example, and the `println!` calls in the tests, are console output only.
- Sampler.Lock takes one raw number per loop iteration and ignores any extra numbers.
- Lottery.Release requires the reservoir to have one slot per unit of capacity, as `build` establishes. A `Choosen` built any other way behaves in one of two ways in the source. If the pool is shorter than the sum of capacities, the source indexes `final_lucky[counted + i]` out of bounds and panics; the model's `Collect` treats slots past the end as empty instead. If the pool is longer, the source runs normally, never reads the trailing slots and drops whatever they hold; the model's `Distribute` does the same, but the Release contract ties the concatenated winners to every held item, so it needs the exact size.
- Lottery.Distribute states only the entry count in its own contract. Names, capacity bounds, exact ranges and coverage are stated by the lemmas DistributeShape, DistributeRange and DistributeCovers.
