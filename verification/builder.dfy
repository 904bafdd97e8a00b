/** The builder of a lottery: a staged list of positions that can be added,
    renamed, resized and removed, each change validated, before `build` freezes
    the list into a `Choosen` whose reservoir has one slot per unit of capacity.
    A refused change leaves the staged list as it was. */
module Builder {
  import opened Results
  import opened Slots
  import opened Positions
  import opened Sampler
  import opened Lottery

  datatype BuildChoosenError =
    | EmptyBuilder
    | WrongPositionType(cause: PositionTypeError)
    | PositionOutBound(idx: nat)

  datatype ChoosenBuilder = ChoosenBuilder(positions: seq<Position>)

  /** Every staged position has a non-empty name and a positive capacity. */
  predicate Valid(b: ChoosenBuilder) {
    AllValid(b.positions)
  }

  /** `ChoosenBuilder::new()`: nothing staged. */
  function New(): (b: ChoosenBuilder)
    ensures |b.positions| == 0
    ensures Valid(b)
  {
    ChoosenBuilder([])
  }

  /** `add_position(name, cap)`: start from the default position, set its name,
      then its capacity, and append it. The name is checked first, so a call
      with both an empty name and a zero capacity reports the empty name. */
  function AddPosition(b: ChoosenBuilder, name: string, cap: nat): (u: Update<ChoosenBuilder, BuildChoosenError>)
    ensures |name| == 0 ==> u == Update(b, Fail(WrongPositionType(EmptyName)))
    ensures |name| > 0 && cap == 0 ==> u == Update(b, Fail(WrongPositionType(ZeroCapacity)))
    ensures |name| > 0 && cap > 0 ==>
      u.outcome == Pass && u.after.positions == b.positions + [Position(name, cap)]
    ensures Valid(b) ==> Valid(u.after)
  {
    var named := SetName(Default(), name);
    if named.outcome.Fail? then Update(b, Fail(WrongPositionType(named.outcome.error)))
    else
      var sized := SetCap(named.after, cap);
      if sized.outcome.Fail? then Update(b, Fail(WrongPositionType(sized.outcome.error)))
      else Update(ChoosenBuilder(b.positions + [sized.after]), Pass)
  }

  /** `check_idx(idx)`: whether `idx` names a staged position. */
  function CheckIdx(b: ChoosenBuilder, idx: nat): (o: Outcome<BuildChoosenError>)
    ensures o == Pass <==> idx < |b.positions|
    ensures o.Fail? ==> o.error == PositionOutBound(idx)
  {
    if idx < |b.positions| then Pass else Fail(PositionOutBound(idx))
  }

  /** `set_position_name(name, idx)`: the index is checked, then the name. Only the
      name of position `idx` changes. */
  function SetPositionName(b: ChoosenBuilder, name: string, idx: nat): (u: Update<ChoosenBuilder, BuildChoosenError>)
    ensures idx >= |b.positions| ==> u == Update(b, Fail(PositionOutBound(idx)))
    ensures idx < |b.positions| && |name| == 0 ==> u == Update(b, Fail(WrongPositionType(EmptyName)))
    ensures idx < |b.positions| && |name| > 0 ==>
      && u.outcome == Pass
      && u.after.positions == b.positions[idx := Position(name, b.positions[idx].cap)]
    ensures Valid(b) ==> Valid(u.after)
  {
    var checked := CheckIdx(b, idx);
    if checked.Fail? then Update(b, checked)
    else
      var renamed := SetName(b.positions[idx], name);
      if renamed.outcome.Fail? then Update(b, Fail(WrongPositionType(renamed.outcome.error)))
      else Update(ChoosenBuilder(b.positions[idx := renamed.after]), Pass)
  }

  /** `set_position_cap(new_cap, idx)`: the index is checked, then the capacity.
      Only the capacity of position `idx` changes. */
  function SetPositionCap(b: ChoosenBuilder, newCap: nat, idx: nat): (u: Update<ChoosenBuilder, BuildChoosenError>)
    ensures idx >= |b.positions| ==> u == Update(b, Fail(PositionOutBound(idx)))
    ensures idx < |b.positions| && newCap == 0 ==> u == Update(b, Fail(WrongPositionType(ZeroCapacity)))
    ensures idx < |b.positions| && newCap > 0 ==>
      && u.outcome == Pass
      && u.after.positions == b.positions[idx := Position(b.positions[idx].name, newCap)]
    ensures Valid(b) ==> Valid(u.after)
  {
    var checked := CheckIdx(b, idx);
    if checked.Fail? then Update(b, checked)
    else
      var resized := SetCap(b.positions[idx], newCap);
      if resized.outcome.Fail? then Update(b, Fail(WrongPositionType(resized.outcome.error)))
      else Update(ChoosenBuilder(b.positions[idx := resized.after]), Pass)
  }

  /** `remove_position(idx)`: drop position `idx`; the others keep their order and
      those after it move down by one. */
  function RemovePosition(b: ChoosenBuilder, idx: nat): (u: Update<ChoosenBuilder, BuildChoosenError>)
    ensures idx >= |b.positions| ==> u == Update(b, Fail(PositionOutBound(idx)))
    ensures idx < |b.positions| ==>
      && u.outcome == Pass
      && |u.after.positions| == |b.positions| - 1
      && (forall j {:trigger u.after.positions[j]} :: 0 <= j < idx ==> u.after.positions[j] == b.positions[j])
      && (forall j {:trigger u.after.positions[j]} :: idx <= j < |u.after.positions| ==> u.after.positions[j] == b.positions[j + 1])
    ensures Valid(b) ==> Valid(u.after)
  {
    var checked := CheckIdx(b, idx);
    if checked.Fail? then Update(b, checked)
    else Update(ChoosenBuilder(b.positions[..idx] + b.positions[idx + 1..]), Pass)
  }

  /** `positions()`: the staged positions, each valid when the builder is. */
  function StagedPositions(b: ChoosenBuilder): (view: seq<Position>)
    ensures view == b.positions
    ensures |view| == |b.positions|
    ensures Valid(b) ==> AllValid(view)
  {
    b.positions
  }

  /** `build()`: refuse an empty builder; otherwise a lottery holding a copy of
      the positions and a fresh reservoir with one empty slot per unit of
      capacity. */
  function Build<T>(b: ChoosenBuilder): (r: Result<Choosen<T>, BuildChoosenError>)
    ensures r.Err? <==> |b.positions| == 0
    ensures r.Err? ==> r.error == EmptyBuilder
    ensures r.Ok? ==>
      && r.value.positions == b.positions
      && r.value.lucky.total == 0
      && |r.value.lucky.pool| == SumCaps(b.positions)
      && AllEmpty(r.value.lucky.pool)
    ensures r.Ok? && Valid(b) ==> Lottery.Valid(r.value)
  {
    if |b.positions| == 0 then Err(EmptyBuilder)
    else Ok(Choosen(b.positions, WithCapacity(SumCaps(b.positions))))
  }

  /** A built lottery has at least as many slots as positions, and at least one. */
  lemma BuildCapacity<T>(b: ChoosenBuilder)
    requires Valid(b) && |b.positions| > 0
    ensures Build<T>(b).Ok?
    ensures |Build<T>(b).value.lucky.pool| >= |b.positions| >= 1
  {
    SumCapsAtLeastCount(b.positions);
  }
}
