/** The whole lottery from builder to release, and the scenarios the source's
    unit tests walk through, stated for every sequence of random draws. */
module Scenarios {
  import opened Results
  import opened Slots
  import opened Positions
  import opened Sampler
  import opened Lottery
  import opened Builder

  /** Build a lottery, draw `items` into it and release it: the release fails
      exactly when no item was drawn; otherwise `min(n, capacity)` winners come
      out, and when the stream is no longer than the capacity they are exactly
      the items drawn, each as often as it was drawn. */
  lemma RunLottery<T>(b: ChoosenBuilder, items: seq<T>, raws: seq<nat>, lockRaws: seq<nat>)
    requires Builder.Valid(b) && |b.positions| > 0
    requires |raws| == |items|
    requires |lockRaws| >= Remaining(|items|, SumCaps(b.positions))
    ensures Build<T>(b).Ok?
    ensures var fed := PollAll(Build<T>(b).value, items, raws);
      var r := Release(fed, lockRaws);
      && (r.Err? <==> |items| == 0)
      && (r.Ok? ==> |Flatten(r.value)| == Min(|items|, SumCaps(b.positions)))
      && (r.Ok? && |items| <= SumCaps(b.positions) ==> multiset(Flatten(r.value)) == multiset(items))
  {
    var ch := Build<T>(b).value;
    var fed := PollAll(ch, items, raws);
    ReleaseFailsIffNothingDrawn(fed, lockRaws);
    ReleaseCount(fed, lockRaws);
    if |items| <= SumCaps(b.positions) {
      FeedWarmUp(ch.lucky, items, raws);
      OccupantsEmpty(ch.lucky.pool);
      LockKeepsItems(fed.lucky, lockRaws);
      HeldOccupants(Lock(fed.lucky, lockRaws));
    }
  }

  /** Positions "一等奖" (1), "二等奖" (1) and "三等奖" (4) share six slots; five
      items drawn into them all come out, each position within its capacity. */
  lemma HaveSomethingChoosen(raws: seq<nat>, lockRaws: seq<nat>)
    requires |raws| == 5 && |lockRaws| >= 1
    ensures
      var b := AddPosition(AddPosition(AddPosition(New(), "一等奖", 1).after, "二等奖", 1).after, "三等奖", 4).after;
      var r := Release(PollAll(Build<nat>(b).value, [8, 1, 1, 9, 2], raws), lockRaws);
      && r.Ok?
      && |r.value| == 3
      && r.value[0].name == "一等奖" && r.value[1].name == "二等奖" && r.value[2].name == "三等奖"
      && |r.value[0].winners| <= 1 && |r.value[1].winners| <= 1 && |r.value[2].winners| <= 4
      && |Flatten(r.value)| == 5
      && multiset(Flatten(r.value)) == multiset{8, 1, 1, 9, 2}
  {
    var b := AddPosition(AddPosition(AddPosition(New(), "一等奖", 1).after, "二等奖", 1).after, "三等奖", 4).after;
    assert b.positions == [Position("一等奖", 1), Position("二等奖", 1), Position("三等奖", 4)];
    assert SumCaps(b.positions) == 6;
    var items: seq<nat> := [8, 1, 1, 9, 2];
    RunLottery(b, items, raws, lockRaws);
  }

  /** Positions of capacities 3 and 4 with nothing drawn: release fails. */
  lemma HaveNothingChoosen(lockRaws: seq<nat>)
    requires |lockRaws| >= 7
    ensures
      var b := AddPosition(AddPosition(New(), "一等奖", 3).after, "三等奖", 4).after;
      Release(Build<nat>(b).value, lockRaws) == Err(NoOneIsChoosen)
  {
    var b := AddPosition(AddPosition(New(), "一等奖", 3).after, "三等奖", 4).after;
    assert b.positions == [Position("一等奖", 3), Position("三等奖", 4)];
    assert SumCaps(b.positions) == 7;
    ReleaseFailsIffNothingDrawn(Build<nat>(b).value, lockRaws);
  }

  /** A builder that is empty, or emptied again, refuses to build. */
  lemma EmptyBuilderShouldNotBuild()
    ensures Build<nat>(New()) == Err(EmptyBuilder)
    ensures Build<nat>(RemovePosition(AddPosition(New(), "some_pos", 1).after, 0).after) == Err(EmptyBuilder)
  {
    var added := AddPosition(New(), "some_pos", 1).after;
    assert |RemovePosition(added, 0).after.positions| == 0;
  }

  /** Remove, rename, resize and listing on a small builder, as the source's tests do. */
  lemma EditPositions()
    ensures var b := AddPosition(AddPosition(New(), "pos", 13).after, "pos2", 34).after;
      RemovePosition(b, 1).after.positions == [Position("pos", 13)]
    ensures var b := AddPosition(New(), "pos", 13).after;
      && SetPositionName(b, "changed_pos", 0).after.positions == [Position("changed_pos", 13)]
      && SetPositionCap(b, 20, 0).after.positions == [Position("pos", 20)]
      && SetPositionName(b, "changed_pos", 1).outcome == Fail(PositionOutBound(1))
      && SetPositionCap(b, 1, 1).outcome == Fail(PositionOutBound(1))
      && RemovePosition(b, 1).outcome == Fail(PositionOutBound(1))
    ensures StagedPositions(AddPosition(New(), "some_pos", 4).after) == [Position("some_pos", 4)]
  {
  }
}
