/** Resyncing a list of ranges (pkg/super_node/resync/service.go). */
module Resync {
  import opened Seqs
  import opened HeightRuns
  import opened WorkerPool

  const DEFAULT_MAX_BATCH_SIZE: uint64 := 100
  const DEFAULT_MAX_BATCH_NUMBER: nat := 50

  datatype HeightRange = HeightRange(start: uint64, stop: uint64)

  /** A zero batch size means the default one. */
  function EffectiveBatchSize(configured: uint64): (batchSize: uint64)
    ensures batchSize > 0 && (configured > 0 ==> batchSize == configured)
  {
    if configured == 0 then DEFAULT_MAX_BATCH_SIZE else configured
  }

  /** A zero batch number means the default one; one that is negative as an int64 starts no worker. */
  function EffectiveWorkers(configured: uint64): (n: nat)
    ensures n > 0 <==> configured < TWO_64 / 2
    ensures 0 < configured < TWO_64 / 2 ==> n == configured
  {
    if configured == 0 then DEFAULT_MAX_BATCH_NUMBER else if configured < TWO_64 / 2 then configured else 0
  }

  /** The bins the dispatcher sends, range by range: reversed ranges are skipped, a failing one ends the loop. */
  function PlanOf(ranges: seq<HeightRange>, batchSize: uint64): Result<Bins, BinError> {
    if ranges == [] then Ok([])
    else
      var rng := ranges[|ranges| - 1];
      match PlanOf(ranges[..|ranges| - 1], batchSize)
      case Err(e) => Err(e)
      case Ok(bins) =>
        if rng.stop < rng.start then Ok(bins)
        else match BlockHeightBins(rng.start, rng.stop, batchSize)
             case Err(e) => Err(e)
             case Ok(more) => Ok(bins + more)
  }

  lemma {:induction false} PlanErrPrefix(ranges: seq<HeightRange>, batchSize: uint64, k: nat)
    requires k <= |ranges| && PlanOf(ranges[..k], batchSize).Err?
    ensures PlanOf(ranges, batchSize) == PlanOf(ranges[..k], batchSize)
  {
    if k < |ranges| {
      var init := ranges[..|ranges| - 1];
      assert init[..k] == ranges[..k];
      PlanErrPrefix(init, batchSize, k);
    } else {
      assert ranges[..k] == ranges;
    }
  }

  method PlanRanges(ranges: seq<HeightRange>, batchSize: uint64) returns (r: Result<Bins, BinError>)
    ensures r == PlanOf(ranges, batchSize)
  {
    var sent: Bins := [];
    for i := 0 to |ranges|
      invariant PlanOf(ranges[..i], batchSize) == Ok(sent)
    {
      var rng := ranges[i];
      assert ranges[..i + 1][..i] == ranges[..i];
      if rng.stop < rng.start {
        continue;
      }
      var blockRangeBins := GetBlockHeightBins(rng.start, rng.stop, batchSize);
      if blockRangeBins.Err? {
        PlanErrPrefix(ranges, batchSize, i + 1);
        return blockRangeBins;
      }
      sent := sent + blockRangeBins.value;
    }
    assert ranges[..|ranges|] == ranges;
    r := Ok(sent);
  }

  /** Resync gives up before draining its workers exactly when the batch size is zero and some range is not
      reversed; it has then sent no bin at all. */
  lemma {:induction false} PlanFailsIff(ranges: seq<HeightRange>, batchSize: uint64)
    ensures PlanOf(ranges, batchSize).Err?
            <==> batchSize == 0 && exists i :: 0 <= i < |ranges| && ranges[i].start <= ranges[i].stop
    ensures batchSize == 0 && PlanOf(ranges, batchSize).Ok? ==> PlanOf(ranges, batchSize).value == []
  {
    if ranges != [] {
      var init, rng := ranges[..|ranges| - 1], ranges[|ranges| - 1];
      PlanFailsIff(init, batchSize);
      if i :| 0 <= i < |init| && init[i].start <= init[i].stop {
        assert ranges[i].start <= ranges[i].stop;
      }
      if rng.start <= rng.stop {
        assert ranges[|ranges| - 1].start <= ranges[|ranges| - 1].stop;
      }
      if i :| 0 <= i < |ranges| && ranges[i].start <= ranges[i].stop {
        assert i < |init| ==> init[i].start <= init[i].stop;
      }
    }
  }

  /** With the constructor's defaults the dispatcher always gets as far as draining the pool. */
  lemma PlanSucceeds(ranges: seq<HeightRange>, configured: uint64)
    ensures PlanOf(ranges, EffectiveBatchSize(configured)).Ok?
  {
    PlanFailsIff(ranges, EffectiveBatchSize(configured));
  }

  /** All heights asked for, range by range; a reversed range asks for none. */
  function RangeHeights(ranges: seq<HeightRange>): seq<nat> {
    if ranges == [] then []
    else
      RangeHeights(ranges[..|ranges| - 1])
      + Range(ranges[|ranges| - 1].start, (ranges[|ranges| - 1].stop as int) + 1)
  }

  ghost predicate AllFit(ranges: seq<HeightRange>, batchSize: uint64) {
    batchSize > 0 && forall i :: 0 <= i < |ranges| && ranges[i].start <= ranges[i].stop ==>
      Fits(ranges[i].start, ranges[i].stop, batchSize)
  }

  lemma {:induction false} PlanCovers(ranges: seq<HeightRange>, batchSize: uint64)
    requires AllFit(ranges, batchSize)
    ensures PlanOf(ranges, batchSize).Ok?
    ensures Flatten<nat>(PlanOf(ranges, batchSize).value) == RangeHeights(ranges)
    ensures [] !in PlanOf(ranges, batchSize).value
  {
    if ranges != [] {
      var init, rng := ranges[..|ranges| - 1], ranges[|ranges| - 1];
      PlanCovers(init, batchSize);
      if rng.start <= rng.stop {
        BinsCoverIff(rng.start, rng.stop, batchSize);
        EmptyBinIff(rng.start, rng.stop, batchSize);
        FlattenAppend<nat>(PlanOf(init, batchSize).value, BlockHeightBins(rng.start, rng.stop, batchSize).value);
      }
    }
  }

  /** When Resync returns nil, on any schedule and with any failures: its workers are gone, every bin was taken
      by one worker and finished once, and each height of each range was processed once per range holding it. */
  lemma ResyncDrains(ranges: seq<HeightRange>, configured: uint64, n: nat, k: nat, s: Pool)
    requires AllFit(ranges, EffectiveBatchSize(configured))
    requires PlanOf(ranges, EffectiveBatchSize(configured)).Ok?
    requires Reaches(PlanOf(ranges, EffectiveBatchSize(configured)).value, n, k, s) && s.phase.Returned?
    ensures |s.workers| == n && DrainedPool(PlanOf(ranges, EffectiveBatchSize(configured)).value, s)
    ensures multiset(s.attempted) == multiset(RangeHeights(ranges))
  {
    Drained(PlanOf(ranges, EffectiveBatchSize(configured)).value, n, k, s);
    PlanCovers(ranges, EffectiveBatchSize(configured));
  }

  lemma NothingFlat(bins: Bins)
    requires [] !in bins
    ensures Flatten<nat>(bins) == [] <==> bins == []
  {
    if bins != [] {
      assert bins[|bins| - 1] in bins;
    }
  }

  /** Resync is certain to return, whatever fails, if and only if it has workers or no heights to resync: it has none
      for a configured batch number of 2^63 or more, and then waits for ever to hand out its first bin. */
  lemma ResyncReturnsIff(ranges: seq<HeightRange>, configured: uint64, workers: uint64)
    requires AllFit(ranges, EffectiveBatchSize(configured))
    requires PlanOf(ranges, EffectiveBatchSize(configured)).Ok?
    ensures AlwaysReturns(PlanOf(ranges, EffectiveBatchSize(configured)).value, EffectiveWorkers(workers))
            <==> workers < TWO_64 / 2 || RangeHeights(ranges) == []
  {
    var bins := PlanOf(ranges, EffectiveBatchSize(configured)).value;
    PlanCovers(ranges, EffectiveBatchSize(configured));
    AlwaysReturnsIff(bins, EffectiveWorkers(workers));
    NothingFlat(bins);
    hide AlwaysReturns, PlanOf, RangeHeights;
  }
}
