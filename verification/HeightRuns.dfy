/** Splitting height ranges into bins and run-length encoding heights
    (libraries/shared/utilities/utils.go). */
module HeightRuns {
  import opened Seqs

  const TWO_64: nat := 0x1_0000_0000_0000_0000

  /** Go's uint64. Every sum below is reduced explicitly with Wrap. */
  type uint64 = n: int | 0 <= n < TWO_64

  /** A 64-bit sum of two 64-bit numbers. */
  function Wrap(sum: nat): uint64
    requires sum < 2 * TWO_64
  {
    if sum < TWO_64 then sum else sum - TWO_64
  }

  /** The 64-bit successor: 2^64 - 1 is followed by 0. */
  function Successor(h: nat): nat {
    if h == TWO_64 - 1 then 0 else h + 1
  }

  datatype Gap = Gap(start: nat, stop: nat)

  datatype BinError = EndBeforeStart | ZeroBatchSize

  // ---- GetBlockHeightBins ----

  /** ceil((end - start + 1) / batch), over the unbounded integers. */
  function BinCount(start: uint64, end: uint64, batch: nat): nat
    requires start <= end && batch > 0
  {
    (end - start + batch) / batch
  }

  /** No bin boundary reaches 2^64: what a caller has to check beforehand. */
  predicate Fits(start: uint64, end: uint64, batch: uint64)
    requires start <= end && batch > 0
  {
    start + BinCount(start, end, batch) * batch < TWO_64
  }

  /** Where bin i starts, over the unbounded integers: start + i * batch, by repeated addition. */
  function BinStart(start: nat, batch: nat, i: nat): nat {
    if i == 0 then start else BinStart(start, batch, i - 1) + batch
  }

  /** Block heights of the bin that starts at s, after the 64-bit sum s + batch has wrapped. */
  function BinFrom(s: nat, end: nat, batch: nat): seq<nat> {
    if s + batch < TWO_64 then Range(s, if s + batch <= end then s + batch else end + 1) else []
  }

  /** The first k bins. */
  function BinsUpTo(start: nat, end: nat, batch: nat, k: nat): (bins: seq<seq<nat>>)
    ensures |bins| == k
  {
    if k == 0 then [] else BinsUpTo(start, end, batch, k - 1) + [BinFrom(BinStart(start, batch, k - 1), end, batch)]
  }

  /** How many bins the 64-bit arithmetic allocates: none for the one range of 2^64 heights. */
  function BinsAllocated(start: uint64, end: uint64, batch: uint64): nat
    requires start <= end && batch > 0
  {
    if end - start + 1 == TWO_64 then 0 else BinCount(start, end, batch)
  }

  function BlockHeightBins(start: uint64, end: uint64, batch: uint64): Result<seq<seq<nat>>, BinError> {
    if end < start then Err(EndBeforeStart)
    else if batch == 0 then Err(ZeroBatchSize)
    else Ok(BinsUpTo(start, end, batch, BinsAllocated(start, end, batch)))
  }

  lemma DivBounds(a: nat, b: nat)
    requires b > 0
    ensures (a / b) * b <= a < (a / b) * b + b
  {
  }

  lemma MulStep(i: nat, b: nat)
    ensures (i + 1) * b == i * b + b
  {
  }

  lemma {:induction false} BinStartIsProduct(start: nat, batch: nat, i: nat)
    ensures BinStart(start, batch, i) == start + i * batch
  {
    if i > 0 {
      BinStartIsProduct(start, batch, i - 1);
      MulStep(i - 1, batch);
    }
  }

  lemma {:induction false} BinStartMonotone(start: nat, batch: nat, i: nat, j: nat)
    requires i <= j
    ensures start <= BinStart(start, batch, i) <= BinStart(start, batch, j)
  {
    if i < j {
      BinStartMonotone(start, batch, i, j - 1);
    } else if i > 0 {
      BinStartMonotone(start, batch, i - 1, j - 1);
    }
  }

  /** The last bin is the one that reaches past the end of the range. */
  lemma LastBin(start: uint64, end: uint64, batch: uint64)
    requires start <= end && batch > 0
    ensures var n := BinCount(start, end, batch);
            && n > 0
            && BinStart(start, batch, n - 1) <= end < BinStart(start, batch, n)
            && (Fits(start, end, batch) <==> BinStart(start, batch, n) < TWO_64)
  {
    var n := BinCount(start, end, batch);
    DivBounds(end - start + batch, batch);
    BinStartIsProduct(start, batch, n);
  }

  lemma BinStartsInside(start: uint64, end: uint64, batch: uint64, i: nat)
    requires start <= end && batch > 0 && i < BinCount(start, end, batch)
    ensures start <= BinStart(start, batch, i) <= end
    ensures BinStart(start, batch, i + 1) == BinStart(start, batch, i) + batch
    ensures i + 1 < BinCount(start, end, batch) <==> BinStart(start, batch, i + 1) <= end
  {
    var n := BinCount(start, end, batch);
    LastBin(start, end, batch);
    BinStartMonotone(start, batch, i, n - 1);
    if i + 1 < n {
      BinStartMonotone(start, batch, i + 1, n - 1);
    }
  }

  lemma CeilDiv(a: nat, b: nat)
    requires b > 0
    ensures a / b + (if a % b != 0 then 1 else 0) == (a + b - 1) / b
  {
    var q, m := a / b, a % b;
    assert a == q * b + m;
    if m == 0 {
      DivUnique(a + b - 1, b, q, b - 1);
    } else {
      MulStep(q, b);
      DivUnique(a + b - 1, b, q + 1, m - 1);
    }
  }

  lemma DivUnique(a: nat, b: nat, q: nat, m: nat)
    requires m < b && a == q * b + m
    ensures a / b == q
  {
    DivBounds(a, b);
    var d := a / b;
    if d < q {
      MulLe(d + 1, q, b);
      MulStep(d, b);
    } else if q < d {
      MulLe(q + 1, d, b);
      MulStep(q, b);
    }
  }

  lemma MulLe(i: nat, j: nat, b: nat)
    requires i <= j
    ensures i * b <= j * b
  {
  }

  lemma AllocatedBins(start: uint64, end: uint64, batch: uint64)
    requires start <= end && batch > 0
    ensures var length := Wrap(end - start + 1);
            length / batch + (if length % batch != 0 then 1 else 0) == BinsAllocated(start, end, batch)
  {
    var length := (end - start) as nat + 1;
    if length < TWO_64 {
      CeilDiv(length, batch);
      assert length + batch - 1 == end - start + batch;
    } else {
      ZeroDiv(batch);
    }
  }

  lemma ZeroDiv(b: nat)
    requires b > 0
    ensures 0 / b == 0 && 0 % b == 0
  {
  }

  /** The inner loop: the heights from start up to the next bin or the end of the range. */
  method FillBin(start: uint64, nextBinStart: uint64, endingBlock: uint64) returns (blockRange: seq<nat>)
    requires start <= endingBlock
    ensures blockRange == Range(start, if nextBinStart <= endingBlock then nextBinStart else endingBlock as int + 1)
  {
    blockRange := [];
    var j := start;
    while j < nextBinStart && j <= endingBlock
      invariant start <= j
      invariant nextBinStart <= start ==> j == start
      invariant start < nextBinStart ==> j <= nextBinStart && j <= (endingBlock as int) + 1
      invariant blockRange == Range(start, j)
      decreases nextBinStart - j
    {
      blockRange := blockRange + [j];
      j := Successor(j);
    }
  }

  method GetBlockHeightBins(startingBlock: uint64, endingBlock: uint64, batchSize: uint64)
    returns (r: Result<seq<seq<nat>>, BinError>)
    ensures r == BlockHeightBins(startingBlock, endingBlock, batchSize)
  {
    if endingBlock < startingBlock {
      return Err(EndBeforeStart);
    }
    if batchSize == 0 {
      return Err(ZeroBatchSize);
    }
    var length := Wrap(endingBlock - startingBlock + 1);
    var numberOfBins := length / batchSize;
    var remainder := length % batchSize;
    if remainder != 0 {
      numberOfBins := numberOfBins + 1;
    }
    AllocatedBins(startingBlock, endingBlock, batchSize);
    var blockRangeBins: seq<seq<nat>> := [];
    var start := startingBlock;
    for i := 0 to numberOfBins
      invariant blockRangeBins == BinsUpTo(startingBlock, endingBlock, batchSize, i)
      invariant i < numberOfBins ==> start == BinStart(startingBlock, batchSize, i)
    {
      BinStartsInside(startingBlock, endingBlock, batchSize, i);
      var nextBinStart := Wrap(start + batchSize);
      var blockRange := FillBin(start, nextBinStart, endingBlock);
      start := nextBinStart;
      blockRangeBins := blockRangeBins + [blockRange];
    }
    r := Ok(blockRangeBins);
  }

  /** A reversed range is refused, whatever the batch size, and so is a zero batch size, but nothing else. */
  lemma RefusedIff(start: uint64, end: uint64, batch: uint64)
    ensures BlockHeightBins(start, end, batch) == Err(EndBeforeStart) <==> end < start
    ensures BlockHeightBins(start, end, batch) == Err(ZeroBatchSize) <==> start <= end && batch == 0
    ensures BlockHeightBins(start, end, batch).Ok? <==> start <= end && batch > 0
  {
  }

  /** The one range of 2^64 heights gets no bins at all: its length wraps to zero. */
  lemma FullRangeNoBins(batch: uint64)
    requires batch > 0
    ensures BlockHeightBins(0, TWO_64 - 1, batch) == Ok([])
  {
  }

  /** Every bin but the last is full, and no bin is empty, when no boundary wraps. */
  lemma BinShape(start: uint64, end: uint64, batch: uint64, i: nat)
    requires start <= end && batch > 0 && i < BinCount(start, end, batch)
    requires Fits(start, end, batch)
    ensures var bins := BlockHeightBins(start, end, batch).value;
            && |bins| == BinCount(start, end, batch)
            && 1 <= |bins[i]| <= batch
            && (i + 1 < |bins| ==> |bins[i]| == batch)
  {
    BinStartsInside(start, end, batch, i);
    LastBin(start, end, batch);
    BinAt(start, end, batch, BinCount(start, end, batch), i);
    BinStartMonotone(start, batch, i + 1, BinCount(start, end, batch));
  }

  lemma {:induction false} BinAt(start: nat, end: nat, batch: nat, k: nat, i: nat)
    requires i < k
    ensures BinsUpTo(start, end, batch, k)[i] == BinFrom(BinStart(start, batch, i), end, batch)
  {
    if i < k - 1 {
      BinAt(start, end, batch, k - 1, i);
    }
  }

  lemma BinEmpty(start: uint64, end: uint64, batch: uint64, i: nat)
    requires start <= end && batch > 0 && i < BinCount(start, end, batch)
    ensures BinFrom(BinStart(start, batch, i), end, batch) == []
            <==> i + 1 == BinCount(start, end, batch) && !Fits(start, end, batch)
  {
    BinStartsInside(start, end, batch, i);
    LastBin(start, end, batch);
  }

  /** An empty bin, at which a worker panics, exists exactly if the last boundary wraps and the bins were allocated at
      all. */
  lemma EmptyBinIff(start: uint64, end: uint64, batch: uint64)
    requires start <= end && batch > 0
    ensures [] in BlockHeightBins(start, end, batch).value
            <==> !Fits(start, end, batch) && BinsAllocated(start, end, batch) > 0
  {
    var n := BinsAllocated(start, end, batch);
    var bins := BinsUpTo(start, end, batch, n);
    forall i | 0 <= i < n ensures bins[i] == [] <==> i + 1 == n && !Fits(start, end, batch) {
      BinAt(start, end, batch, n, i);
      BinEmpty(start, end, batch, i);
    }
    if n > 0 {
      assert bins[n - 1] in bins;
    }
  }

  /** The heights covered once the first k bins are laid out. */
  function Covered(start: uint64, end: uint64, batch: uint64, k: nat): seq<nat> {
    Range(start, if BinStart(start, batch, k) <= end then BinStart(start, batch, k) else (end as int) + 1)
  }

  lemma CoverBin(start: uint64, end: uint64, batch: uint64, i: nat)
    requires start <= end && batch > 0 && i < BinCount(start, end, batch)
    requires BinStart(start, batch, i + 1) < TWO_64
    ensures Covered(start, end, batch, i) + BinFrom(BinStart(start, batch, i), end, batch)
            == Covered(start, end, batch, i + 1)
  {
    BinStartsInside(start, end, batch, i);
    var s := BinStart(start, batch, i);
    RangeSplit(start, s, if s + batch <= end then s + batch else (end as int) + 1);
  }

  lemma {:induction false} BinsPrefix(start: uint64, end: uint64, batch: uint64, k: nat)
    requires start <= end && batch > 0 && k <= BinCount(start, end, batch)
    requires BinStart(start, batch, k) < TWO_64
    ensures Flatten<nat>(BinsUpTo(start, end, batch, k)) == Covered(start, end, batch, k)
  {
    if k > 0 {
      BinsPrefix(start, end, batch, k - 1);
      CoverBin(start, end, batch, k - 1);
      FlattenSnoc(BinsUpTo(start, end, batch, k - 1), BinFrom(BinStart(start, batch, k - 1), end, batch));
    }
  }

  /** The bins cover the range exactly, in order, if and only if no bin boundary wraps. */
  lemma BinsCoverIff(start: uint64, end: uint64, batch: uint64)
    requires start <= end && batch > 0
    ensures Flatten<nat>(BlockHeightBins(start, end, batch).value) == Range(start, (end as int) + 1)
            <==> Fits(start, end, batch)
  {
    var n := BinCount(start, end, batch);
    LastBin(start, end, batch);
    if Fits(start, end, batch) {
      BinsPrefix(start, end, batch, n);
    } else if BinsAllocated(start, end, batch) > 0 {
      BinsPrefix(start, end, batch, n - 1);
      BinStartsInside(start, end, batch, n - 1);
      FlattenSnoc(BinsUpTo(start, end, batch, n - 1), []);
    }
  }

  // ---- MissingHeightsToGaps ----

  /** The heights of a gap, both ends included. */
  function GapHeights(g: Gap): seq<nat> {
    Range(g.start, g.stop + 1)
  }

  /** Heights of a list of gaps, gap by gap. */
  function Expand(gaps: seq<Gap>): seq<nat> {
    if gaps == [] then [] else Expand(gaps[..|gaps| - 1]) + GapHeights(gaps[|gaps| - 1])
  }

  lemma ExpandSnoc(gaps: seq<Gap>, g: Gap)
    ensures Expand(gaps + [g]) == Expand(gaps) + GapHeights(g)
  {
    assert (gaps + [g])[..|gaps|] == gaps;
  }

  lemma ExpandAppendSnoc(a: seq<Gap>, b: seq<Gap>, g: Gap)
    requires Expand(a + b) == Expand(a) + Expand(b)
    ensures Expand(a + (b + [g])) == Expand(a) + Expand(b + [g])
  {
    hide *;
    assert a + (b + [g]) == (a + b) + [g];
    ExpandSnoc(a + b, g);
    ExpandSnoc(b, g);
  }

  lemma {:induction false} ExpandAppend(a: seq<Gap>, b: seq<Gap>)
    ensures Expand(a + b) == Expand(a) + Expand(b)
  {
    if b == [] {
      assert a + b == a;
    } else {
      hide *;
      assert b == b[..|b| - 1] + [b[|b| - 1]];
      ExpandAppend(a, b[..|b| - 1]);
      ExpandAppendSnoc(a, b[..|b| - 1], b[|b| - 1]);
    }
  }

  /** The same runs with the last one now stopping at h. */
  function ExtendLast(runs: seq<Gap>, h: nat): seq<Gap>
    requires runs != []
  {
    runs[..|runs| - 1] + [Gap(runs[|runs| - 1].start, h)]
  }

  /** A height either extends the last run by one or starts its own. */
  function AddHeight(runs: seq<Gap>, h: nat): (r: seq<Gap>)
    ensures r != [] && r[|r| - 1].stop == h
  {
    if runs != [] && h == Successor(runs[|runs| - 1].stop) then ExtendLast(runs, h) else runs + [Gap(h, h)]
  }

  function AddHeights(runs: seq<Gap>, heights: seq<nat>): seq<Gap> {
    if heights == [] then runs else AddHeight(AddHeights(runs, heights[..|heights| - 1]), heights[|heights| - 1])
  }

  /** The runs of a height list, height by height. */
  function RunsOf(heights: seq<nat>): seq<Gap> {
    AddHeights([], heights)
  }

  lemma AddHeightsSnoc(runs: seq<Gap>, heights: seq<nat>, h: nat)
    ensures AddHeights(runs, heights + [h]) == AddHeight(AddHeights(runs, heights), h)
  {
    assert (heights + [h])[..|heights|] == heights;
  }

  lemma AddHeightsAppendSnoc(runs: seq<Gap>, a: seq<nat>, b: seq<nat>, h: nat)
    requires AddHeights(runs, a + b) == AddHeights(AddHeights(runs, a), b)
    ensures AddHeights(runs, a + (b + [h])) == AddHeights(AddHeights(runs, a), b + [h])
  {
    hide *;
    assert a + (b + [h]) == (a + b) + [h];
    AddHeightsSnoc(runs, a + b, h);
    AddHeightsSnoc(AddHeights(runs, a), b, h);
  }

  lemma {:induction false} AddHeightsAppend(runs: seq<Gap>, a: seq<nat>, b: seq<nat>)
    ensures AddHeights(runs, a + b) == AddHeights(AddHeights(runs, a), b)
  {
    if b == [] {
      assert a + b == a;
    } else {
      hide *;
      assert b == b[..|b| - 1] + [b[|b| - 1]];
      AddHeightsAppend(runs, a, b[..|b| - 1]);
      AddHeightsAppendSnoc(runs, a, b[..|b| - 1], b[|b| - 1]);
    }
  }

  lemma RunsSnoc(heights: seq<nat>, h: nat)
    ensures RunsOf(heights + [h]) == AddHeight(RunsOf(heights), h)
  {
    AddHeightsSnoc([], heights, h);
  }

  /** What the loop returns: the runs, except that a lone height yields no gap at all. */
  function GapsOf(heights: seq<nat>): seq<Gap> {
    if |heights| == 1 then [] else RunsOf(heights)
  }

  lemma AddToOpenRun(gaps: seq<Gap>, start: nat, last: nat, h: nat)
    ensures AddHeight(gaps + [Gap(start, last)], h)
            == if h == Successor(last) then gaps + [Gap(start, h)] else gaps + [Gap(start, last)] + [Gap(h, h)]
  {
    var runs := gaps + [Gap(start, last)];
    assert runs[..|runs| - 1] == gaps;
  }

  method MissingHeightsToGaps(heights: seq<uint64>) returns (validationGaps: seq<Gap>)
    ensures validationGaps == GapsOf(heights)
  {
    validationGaps := [];
    if |heights| == 0 {
      return;
    }
    var start := heights[0];
    var lastHeight := start;
    assert heights[..1] == [] + [start];
    RunsSnoc([], start);
    for i := 0 to |heights| - 1
      invariant lastHeight == heights[i]
      invariant i + 1 < |heights| ==> validationGaps + [Gap(start, lastHeight)] == RunsOf(heights[..i + 1])
      invariant i + 1 == |heights| ==> validationGaps == GapsOf(heights)
    {
      var height := heights[i + 1];
      RunsSnoc(heights[..i + 1], height);
      AddToOpenRun(validationGaps, start, lastHeight, height);
      assert heights[..i + 2] == heights[..i + 1] + [height];
      if height != Successor(lastHeight) {
        validationGaps := validationGaps + [Gap(start, lastHeight)];
        start := height;
      }
      if i + 2 == |heights| {
        validationGaps := validationGaps + [Gap(start, height)];
        assert heights[..i + 2] == heights;
      }
      lastHeight := height;
    }
  }

  /** Somewhere the list steps from 2^64 - 1 to 0, which the 64-bit sum takes for a continuation. */
  ghost predicate WrapsAround(heights: seq<nat>) {
    exists i :: 0 <= i < |heights| - 1 && heights[i] == TWO_64 - 1 && heights[i + 1] == 0
  }

  ghost predicate Nondecreasing(heights: seq<nat>) {
    forall i, j :: 0 <= i < j < |heights| ==> heights[i] <= heights[j]
  }

  lemma SnocWraps(init: seq<nat>, h: nat)
    ensures WrapsAround(init + [h])
            <==> WrapsAround(init) || (init != [] && init[|init| - 1] == TWO_64 - 1 && h == 0)
  {
    var hs := init + [h];
    if WrapsAround(init) {
      var i :| 0 <= i < |init| - 1 && init[i] == TWO_64 - 1 && init[i + 1] == 0;
      assert hs[i] == TWO_64 - 1 && hs[i + 1] == 0;
    }
    if init != [] && init[|init| - 1] == TWO_64 - 1 && h == 0 {
      assert hs[|init| - 1] == TWO_64 - 1 && hs[|init| - 1 + 1] == 0;
    }
    if WrapsAround(hs) {
      var i :| 0 <= i < |hs| - 1 && hs[i] == TWO_64 - 1 && hs[i + 1] == 0;
      if i < |init| - 1 {
        assert init[i] == TWO_64 - 1 && init[i + 1] == 0;
      }
    }
  }

  lemma ExpandExtend(before: seq<Gap>, g: Gap)
    requires g.start <= g.stop + 1
    ensures Expand(before + [Gap(g.start, g.stop + 1)]) == Expand(before + [g]) + [g.stop + 1]
  {
    ExpandSnoc(before, g);
    ExpandSnoc(before, Gap(g.start, g.stop + 1));
    assert Expand(before) + (GapHeights(g) + [g.stop + 1]) == (Expand(before) + GapHeights(g)) + [g.stop + 1];
  }

  lemma ExpandBackwards(before: seq<Gap>, g: Gap)
    requires g.stop < g.start
    ensures Expand(before + [g]) == Expand(before)
  {
    ExpandSnoc(before, g);
  }

  lemma ExpandWrapped(before: seq<Gap>, start: nat)
    ensures |Expand(before + [Gap(start, 0)])| <= |Expand(before + [Gap(start, TWO_64 - 1)])|
  {
    ExpandSnoc(before, Gap(start, 0));
    ExpandSnoc(before, Gap(start, TWO_64 - 1));
  }

  lemma ExpandLone(runs: seq<Gap>, h: nat)
    ensures Expand(runs + [Gap(h, h)]) == Expand(runs) + [h]
  {
    ExpandSnoc(runs, Gap(h, h));
    assert GapHeights(Gap(h, h)) == [h];
  }

  /** One more height adds at most itself to the expansion, and nothing when it is taken for a wrapped successor. */
  lemma ExpandAddHeight(runs: seq<Gap>, h: nat)
    ensures var was, now := Expand(runs), Expand(AddHeight(runs, h));
            if runs == [] || h != Successor(runs[|runs| - 1].stop) then now == was + [h]
            else if h == 0 then |now| <= |was|
            else if runs[|runs| - 1].start <= h then now == was + [h]
            else |now| <= |was|
  {
    if runs == [] || h != Successor(runs[|runs| - 1].stop) {
      ExpandLone(runs, h);
    } else {
      var before, g := runs[..|runs| - 1], runs[|runs| - 1];
      assert runs == before + [g];
      if h == 0 {
        ExpandWrapped(before, g.start);
      } else if g.start <= h {
        ExpandExtend(before, g);
      } else {
        ExpandBackwards(before, g);
        ExpandBackwards(before, Gap(g.start, h));
      }
    }
  }

  /** Without a wrap the runs expand to the list; with one they expand to something shorter. */
  ghost predicate ExpandsUnlessWrapped(heights: seq<nat>) {
    var runs := RunsOf(heights);
    if WrapsAround(heights) then |Expand(runs)| < |heights|
    else Expand(runs) == heights && (runs != [] ==> runs[|runs| - 1].start <= runs[|runs| - 1].stop)
  }

  lemma ExpandsSnoc(init: seq<nat>, h: nat)
    requires ExpandsUnlessWrapped(init)
    ensures ExpandsUnlessWrapped(init + [h])
  {
    SnocWraps(init, h);
    RunsSnoc(init, h);
    ExpandAddHeight(RunsOf(init), h);
  }

  lemma {:induction false} RunsExpand(heights: seq<nat>)
    ensures ExpandsUnlessWrapped(heights)
  {
    if heights != [] {
      RunsExpand(heights[..|heights| - 1]);
      ExpandsSnoc(heights[..|heights| - 1], heights[|heights| - 1]);
      assert heights == heights[..|heights| - 1] + [heights[|heights| - 1]];
    }
  }

  /** Expanding the gaps gives the heights back exactly when the list is not a singleton and never wraps. */
  lemma GapsRoundTripIff(heights: seq<nat>)
    ensures Expand(GapsOf(heights)) == heights <==> |heights| != 1 && !WrapsAround(heights)
  {
    RunsExpand(heights);
  }

  /** The lists the retriever passes are sorted, so for them only the singleton is lost. */
  lemma SortedGapsRoundTrip(heights: seq<nat>)
    requires Nondecreasing(heights)
    ensures Expand(GapsOf(heights)) == heights <==> |heights| != 1
  {
    GapsRoundTripIff(heights);
  }

  /** Gaps that are nonempty, in order, and separated by at least one height. */
  ghost predicate Maximal(gaps: seq<Gap>) {
    && (forall i :: 0 <= i < |gaps| ==> gaps[i].start <= gaps[i].stop)
    && (forall i :: 0 < i < |gaps| ==> gaps[i - 1].stop < gaps[i].start - 1)
  }

  ghost predicate StrictlyIncreasing(heights: seq<nat>) {
    forall i, j :: 0 <= i < j < |heights| ==> heights[i] < heights[j]
  }

  lemma MaximalAdd(runs: seq<Gap>, h: nat)
    requires Maximal(runs)
    requires runs != [] ==> runs[|runs| - 1].stop < h < TWO_64
    ensures Maximal(AddHeight(runs, h))
  {
  }

  /** Gaps that are maximal share no height: each lies wholly before the next ones. */
  lemma {:induction false} MaximalOrdered(gaps: seq<Gap>, i: nat, j: nat)
    requires Maximal(gaps) && i < j < |gaps|
    ensures gaps[i].stop < gaps[j].start - 1
  {
    if i < j - 1 {
      MaximalOrdered(gaps, i, j - 1);
    }
  }

  lemma {:induction false} RunsMaximal(heights: seq<nat>)
    requires StrictlyIncreasing(heights)
    requires heights != [] ==> heights[|heights| - 1] < TWO_64
    ensures Maximal(RunsOf(heights))
  {
    if heights != [] {
      var init, h := heights[..|heights| - 1], heights[|heights| - 1];
      if init != [] {
        assert init[|init| - 1] == heights[|init| - 1] < h;
      }
      RunsMaximal(init);
      MaximalAdd(RunsOf(init), h);
    }
  }

  lemma GapsMaximal(heights: seq<uint64>)
    requires StrictlyIncreasing(heights)
    ensures Maximal(GapsOf(heights))
  {
    RunsMaximal(heights);
  }

  lemma RunOpens(runs: seq<Gap>, start: nat)
    requires start < TWO_64 && (runs != [] ==> runs[|runs| - 1].stop < start - 1)
    ensures AddHeights(runs, Range(start, start + 1)) == runs + [Gap(start, start)]
  {
    AddHeightsSnoc(runs, [], start);
    assert Range(start, start + 1) == [] + [start];
  }

  lemma RunContinues(runs: seq<Gap>, before: seq<nat>, start: nat, stop: nat)
    requires start < stop < TWO_64 && AddHeights(runs, before) == runs + [Gap(start, stop - 1)]
    ensures AddHeights(runs, before + [stop]) == runs + [Gap(start, stop)]
  {
    AddHeightsSnoc(runs, before, stop);
    AddToOpenRun(runs, start, stop - 1, stop);
  }

  /** Growing the last run one height at a time. */
  lemma {:induction false} RunsGrow(runs: seq<Gap>, start: nat, stop: nat)
    requires start <= stop < TWO_64
    requires runs != [] ==> runs[|runs| - 1].stop < start - 1
    ensures AddHeights(runs, Range(start, stop + 1)) == runs + [Gap(start, stop)]
    decreases stop
  {
    if start == stop {
      RunOpens(runs, start);
    } else {
      RunsGrow(runs, start, stop - 1);
      RunContinues(runs, Range(start, stop), start, stop);
    }
  }

  lemma MaximalInit(gaps: seq<Gap>)
    requires Maximal(gaps) && gaps != []
    ensures var init, g := gaps[..|gaps| - 1], gaps[|gaps| - 1];
            Maximal(init) && g.start <= g.stop && (init != [] ==> init[|init| - 1].stop < g.start - 1)
  {
  }

  lemma ReencodeLast(before: seq<nat>, init: seq<Gap>, g: Gap)
    requires RunsOf(before) == init
    requires g.start <= g.stop < TWO_64 && (init != [] ==> init[|init| - 1].stop < g.start - 1)
    ensures RunsOf(before + GapHeights(g)) == init + [g]
  {
    AddHeightsAppend([], before, GapHeights(g));
    RunsGrow(init, g.start, g.stop);
  }

  lemma {:induction false} RunsReencode(gaps: seq<Gap>)
    requires Maximal(gaps)
    requires gaps != [] ==> gaps[|gaps| - 1].stop < TWO_64
    ensures RunsOf(Expand(gaps)) == gaps
  {
    if gaps != [] {
      var init, g := gaps[..|gaps| - 1], gaps[|gaps| - 1];
      assert Maximal(init) && g.start <= g.stop && (init != [] ==> init[|init| - 1].stop < g.start - 1) by {
        MaximalInit(gaps);
      }
      RunsReencode(init);
      ReencodeLast(Expand(init), init, g);
    }
  }

  /** Encoding the heights of maximal gaps returns the gaps, unless they hold a single height. */
  lemma MaximalGapsReencode(gaps: seq<Gap>)
    requires Maximal(gaps)
    requires gaps != [] ==> gaps[|gaps| - 1].stop < TWO_64
    ensures GapsOf(Expand(gaps)) == gaps <==> |Expand(gaps)| != 1
  {
    RunsReencode(gaps);
  }
}
