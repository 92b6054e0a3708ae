/** The periodic gap filler: passes over a header table
    (pkg/super_node/backfiller.go, indexHeaderCID in pkg/super_node/eth/indexer.go). */
module BackFill {
  import opened Seqs
  import opened HeightRuns
  import opened GapSearch
  import opened WorkerPool

  // ---- passes follow one another ----

  /** All passes so far: the bins of each and its pool. The quit channel is shared by all of them. */
  datatype Service = Service(plans: seq<Bins>, pools: seq<Pool>)

  /** The dispatcher is at its select, where a tick makes it call RetrieveGapsInData. */
  ghost predicate AtSelect(s: Service) {
    s.pools == [] || s.pools[|s.pools| - 1].phase.Returned?
  }

  /** A tick: the gaps are retrieved, binned, and a fresh batch of n workers is started. */
  ghost predicate Tick(n: nat, s: Service, s': Service, bins: Bins) {
    && AtSelect(s)
    && s' == Service(s.plans + [bins], s.pools + [Init(bins, n)])
  }

  /** A step of one pool by itself. */
  ghost predicate PoolStep(s: Service, s': Service, i: nat) {
    && i < |s.pools| == |s.plans| == |s'.pools|
    && Next(s.plans[i], s.pools[i], s'.pools[i])
    && s' == s.(pools := s.pools[i := s'.pools[i]])
  }

  /** The current dispatcher's quit signal is received by an idle worker of an earlier pass. */
  ghost predicate StrayQuit(s: Service, s': Service, i: nat, w: nat) {
    var last := |s.pools| - 1;
    && i < last && s.pools[last].phase.Quitting?
    && w < |s.pools[i].workers| && s.pools[i].workers[w].Idle?
    && var told := s.pools[last].(phase := Quitting(s.pools[last].phase.told + 1));
       var stray := s.pools[i].(workers := s.pools[i].workers[w := Exited]);
       s' == s.(pools := s.pools[i := stray][last := told])
  }

  ghost predicate ServiceNext(n: nat, s: Service, s': Service) {
    || (exists bins :: Tick(n, s, s', bins))
    || (exists i: nat :: PoolStep(s, s', i))
    || (exists i: nat, w: nat :: StrayQuit(s, s', i, w))
  }

  /** Some schedule of k steps takes the service with n workers a pass to state s. */
  ghost predicate ServiceReaches(n: nat, k: nat, s: Service) {
    if k == 0 then s == Service([], [])
    else exists before :: ServiceReaches(n, k - 1, before) && ServiceNext(n, before, s)
  }

  /** Every pool keeps its own invariant, and all passes but the last have returned. */
  ghost predicate ServiceInv(n: nat, s: Service) {
    && |s.plans| == |s.pools|
    && (forall i :: 0 <= i < |s.pools| ==> Inv(s.plans[i], s.pools[i]) && |s.pools[i].workers| == n)
    && (forall i :: 0 <= i < |s.pools| - 1 ==> s.pools[i].phase.Returned?)
  }

  lemma TickInv(n: nat, s: Service, s': Service, bins: Bins)
    requires ServiceInv(n, s) && Tick(n, s, s', bins)
    ensures ServiceInv(n, s')
  {
    InitInv(bins, n);
  }

  lemma PoolStepInv(n: nat, s: Service, s': Service, i: nat)
    requires ServiceInv(n, s) && PoolStep(s, s', i)
    ensures ServiceInv(n, s')
  {
    NextInv(s.plans[i], s.pools[i], s'.pools[i]);
    if s.pools[i].phase.Returned? {
      ReturnedIsDrained(s.plans[i], s.pools[i]);
      DrainedCannotStep(s.plans[i], s.pools[i], s'.pools[i]);
    }
  }

  lemma DrainedCannotStep(bins: Bins, s: Pool, s': Pool)
    requires DrainedPool(bins, s) && s.phase.Returned?
    ensures !Next(bins, s, s')
  {
  }

  /** An earlier pass has no worker left to receive the signal. */
  lemma NoStrayQuit(n: nat, s: Service, s': Service, i: nat, w: nat)
    requires ServiceInv(n, s)
    ensures !StrayQuit(s, s', i, w)
  {
    if StrayQuit(s, s', i, w) {
      ReturnedIsDrained(s.plans[i], s.pools[i]);
    }
  }

  lemma ServiceNextInv(n: nat, s: Service, s': Service)
    requires ServiceInv(n, s) && ServiceNext(n, s, s')
    ensures ServiceInv(n, s')
  {
    if bins :| Tick(n, s, s', bins) {
      TickInv(n, s, s', bins);
    } else if i: nat :| PoolStep(s, s', i) {
      PoolStepInv(n, s, s', i);
    } else {
      var i: nat, w: nat :| StrayQuit(s, s', i, w);
      NoStrayQuit(n, s, s', i, w);
    }
  }

  lemma {:induction false} ServiceReachedInv(n: nat, k: nat, s: Service)
    requires ServiceReaches(n, k, s)
    ensures ServiceInv(n, s)
  {
    hide ServiceNext, Inv;
    if k > 0 {
      var before :| ServiceReaches(n, k - 1, before) && ServiceNext(n, before, s);
      ServiceReachedInv(n, k - 1, before);
      ServiceNextInv(n, before, s);
    }
  }

  /** Whenever the gaps are about to be retrieved, every earlier pass p is drained: no worker of it is alive and
      each of its bins was finished exactly once. */
  lemma NoWorkerAtRetrieval(n: nat, k: nat, s: Service, p: nat)
    requires ServiceReaches(n, k, s) && AtSelect(s) && p < |s.pools|
    ensures |s.plans| == |s.pools| && |s.pools[p].workers| == n && DrainedPool(s.plans[p], s.pools[p])
  {
    hide ServiceReaches, Inv;
    ServiceReachedInv(n, k, s);
    ReturnedIsDrained(s.plans[p], s.pools[p]);
  }

  // ---- the header table ----

  /** Position of the row with this key, or the length of the table. */
  function KeyIndex(t: Table, height: nat, hash: string): (i: nat)
    ensures i <= |t|
    ensures i < |t| ==> t[i].height == height && t[i].hash == hash
    ensures forall j :: 0 <= j < i ==> !(t[j].height == height && t[j].hash == hash)
    decreases |t|
  {
    if t == [] then 0
    else if t[0].height == height && t[0].hash == hash then 0
    else 1 + KeyIndex(t[1..], height, hash)
  }

  /** INSERT with times_validated 1, ON CONFLICT (block_number, block_hash) times_validated + 1. */
  function Upsert(t: Table, height: nat, hash: string): Table {
    var i := KeyIndex(t, height, hash);
    if i < |t| then t[i := t[i].(timesValidated := t[i].timesValidated + 1)] else t + [HeaderRow(height, hash, 1)]
  }

  class HeaderCids {
    var rows: Table

    constructor ()
      ensures rows == []
    {
      rows := [];
    }

    method IndexHeaderCID(height: nat, hash: string)
      modifies this
      ensures rows == Upsert(old(rows), height, hash)
    {
      var i := KeyIndex(rows, height, hash);
      if i < |rows| {
        var row := rows[i];
        rows := rows[i := row.(timesValidated := row.timesValidated + 1)];
      } else {
        rows := rows + [HeaderRow(height, hash, 1)];
      }
    }
  }

  type Key = (nat, string)

  /** No two rows of one height and hash. */
  ghost predicate UniqueKeys(t: Table) {
    forall i, j :: 0 <= i < j < |t| ==> t[i].height != t[j].height || t[i].hash != t[j].hash
  }

  /** The table has the row with this key, with these times. */
  ghost predicate HasRow(t: Table, k: Key, times: int) {
    HeaderRow(k.0, k.1, times) in t
  }

  lemma RowAt(t: Table, i: nat, times: int)
    requires UniqueKeys(t) && i < |t|
    ensures HasRow(t, (t[i].height, t[i].hash), times) <==> times == t[i].timesValidated
  {
    if times == t[i].timesValidated {
      assert t[i] in t;
    }
    if j :| 0 <= j < |t| && t[j] == HeaderRow(t[i].height, t[i].hash, times) {
      assert j == i;
    }
  }

  lemma IncrementRow(t: Table, i: nat, k: Key, times: int)
    requires UniqueKeys(t) && i < |t|
    ensures var t' := t[i := t[i].(timesValidated := t[i].timesValidated + 1)];
            && UniqueKeys(t')
            && (HasRow(t', k, times)
                <==> HasRow(t, k, if k == (t[i].height, t[i].hash) then times - 1 else times))
  {
    var t' := t[i := t[i].(timesValidated := t[i].timesValidated + 1)];
    assert forall j :: 0 <= j < |t| ==> t[j].height == t'[j].height && t[j].hash == t'[j].hash;
    if k == (t[i].height, t[i].hash) {
      RowAt(t, i, times - 1);
      RowAt(t', i, times);
    } else {
      if j :| 0 <= j < |t| && t[j] == HeaderRow(k.0, k.1, times) {
        assert t'[j] == t[j];
      }
      if j :| 0 <= j < |t'| && t'[j] == HeaderRow(k.0, k.1, times) {
        assert t[j] == t'[j];
      }
    }
  }

  /** Indexing a header, on any table with unique keys: its row counts one validation more, or is there with one if it
      was not there before; no other row, of that height or another, appears, disappears or changes. */
  lemma UpsertRows(t: Table, height: nat, hash: string, k: Key, times: int)
    requires UniqueKeys(t)
    ensures UniqueKeys(Upsert(t, height, hash))
    ensures k != (height, hash) ==> (HasRow(Upsert(t, height, hash), k, times) <==> HasRow(t, k, times))
    ensures (exists n :: HasRow(t, (height, hash), n)) ==>
              (HasRow(Upsert(t, height, hash), (height, hash), times) <==> HasRow(t, (height, hash), times - 1))
    ensures (forall n :: !HasRow(t, (height, hash), n)) ==>
              (HasRow(Upsert(t, height, hash), (height, hash), times) <==> times == 1)
  {
    var i := KeyIndex(t, height, hash);
    if i < |t| {
      assert t[i].height == height && t[i].hash == hash;
      RowAt(t, i, t[i].timesValidated);
      IncrementRow(t, i, k, times);
      IncrementRow(t, i, (height, hash), times);
    } else {
      forall n ensures !HasRow(t, (height, hash), n) {
      }
    }
  }

  /** The table after indexing headers in this order, from an empty one. */
  function Indexed(keys: seq<Key>): Table {
    if keys == [] then []
    else
      var k := keys[|keys| - 1];
      Upsert(Indexed(keys[..|keys| - 1]), k.0, k.1)
  }

  /** In every run the table has one row for each height and hash indexed so far, with as many validations as times. */
  lemma {:induction false} IndexedRows(keys: seq<Key>, k: Key, times: int)
    ensures UniqueKeys(Indexed(keys))
    ensures HasRow(Indexed(keys), k, times) <==> times > 0 && times == multiset(keys)[k]
  {
    if keys != [] {
      var init, last := keys[..|keys| - 1], keys[|keys| - 1];
      assert keys == init + [last];
      IndexedRows(init, k, times);
      IndexedRows(init, k, times - 1);
      IndexedRows(init, k, multiset(init)[k]);
      hide Upsert, HasRow, UniqueKeys;
      UpsertRows(Indexed(init), last.0, last.1, k, times);
      forall n | multiset(init)[last] == 0 ensures !HasRow(Indexed(init), last, n) {
        IndexedRows(init, last, n);
      }
      assert (last.0, last.1) == last;
    }
  }

  /** One header per height, and it is the one the archive node serves for that height. */
  ghost predicate Canonical(chain: nat -> string, t: Table) {
    && (forall i :: 0 <= i < |t| ==> t[i].hash == chain(t[i].height))
    && (forall i, j :: 0 <= i < j < |t| ==> t[i].height != t[j].height)
  }

  /** times_validated at a height; 0 where there is no header. */
  function Times(t: Table, h: nat): int {
    if t == [] then 0 else if t[|t| - 1].height == h then t[|t| - 1].timesValidated else Times(t[..|t| - 1], h)
  }

  lemma {:induction false} TimesAt(chain: nat -> string, t: Table, i: nat)
    requires Canonical(chain, t) && i < |t|
    ensures Times(t, t[i].height) == t[i].timesValidated
  {
    if i < |t| - 1 {
      assert t[i].height != t[|t| - 1].height;
      TimesAt(chain, t[..|t| - 1], i);
    }
  }

  lemma {:induction false} TimesAbsent(t: Table, h: nat)
    requires h !in Heights(t)
    ensures Times(t, h) == 0
  {
    if t != [] {
      HeightsSnoc(t);
      TimesAbsent(t[..|t| - 1], h);
    }
  }

  lemma MemberIndex(t: Table, h: nat) returns (i: nat)
    requires h in Heights(t)
    ensures i < |t| && t[i].height == h
  {
    var row :| row in t && row.height == h;
    i :| i < |t| && t[i] == row;
  }

  /** Counting one more validation in row i changes the times at its height only. */
  lemma IncrementTimes(chain: nat -> string, t: Table, i: nat, x: nat)
    requires Canonical(chain, t) && i < |t|
    ensures var t' := t[i := t[i].(timesValidated := t[i].timesValidated + 1)];
            && Canonical(chain, t')
            && (x in Heights(t') <==> x in Heights(t))
            && Times(t', x) == Times(t, x) + if x == t[i].height then 1 else 0
  {
    var t' := t[i := t[i].(timesValidated := t[i].timesValidated + 1)];
    SameHeights(t, t', x);
    if x in Heights(t) {
      var j := MemberIndex(t, x);
      TimesAt(chain, t, j);
      TimesAt(chain, t', j);
      assert j != i ==> t[j].height != t[i].height;
    } else {
      TimesAbsent(t, x);
      TimesAbsent(t', x);
      assert t[i] in t;
    }
  }

  lemma SameHeights(t: Table, t': Table, x: nat)
    requires |t| == |t'| && forall i :: 0 <= i < |t| ==> t[i].height == t'[i].height
    ensures x in Heights(t') <==> x in Heights(t)
  {
    if x in Heights(t) {
      var j := MemberIndex(t, x);
      assert t'[j] in t';
    }
    if x in Heights(t') {
      var j := MemberIndex(t', x);
      assert t[j] in t;
    }
  }

  lemma AppendTimes(t: Table, row: HeaderRow, x: nat)
    requires row.height !in Heights(t)
    ensures x in Heights(t + [row]) <==> x in Heights(t) || x == row.height
    ensures Times(t + [row], x) == Times(t, x) + if x == row.height then row.timesValidated else 0
  {
    HeightsSnoc(t + [row]);
    assert (t + [row])[..|t|] == t;
    TimesAbsent(t, row.height);
  }

  lemma NoKeyNoHeight(chain: nat -> string, t: Table, h: nat)
    requires Canonical(chain, t) && KeyIndex(t, h, chain(h)) == |t|
    ensures h !in Heights(t)
  {
    if h in Heights(t) {
      var j := MemberIndex(t, h);
    }
  }

  lemma AppendCanonical(chain: nat -> string, t: Table, h: nat)
    requires Canonical(chain, t) && h !in Heights(t)
    ensures Canonical(chain, t + [HeaderRow(h, chain(h), 1)])
  {
    forall i | 0 <= i < |t| ensures t[i].height != h {
      assert t[i] in t;
    }
  }

  /** Indexing a served header counts one more validation at its height and changes nothing else. */
  lemma UpsertTimes(chain: nat -> string, t: Table, h: nat, x: nat)
    requires Canonical(chain, t)
    ensures Canonical(chain, Upsert(t, h, chain(h)))
    ensures x in Heights(Upsert(t, h, chain(h))) <==> x in Heights(t) || x == h
    ensures Times(Upsert(t, h, chain(h)), x) == Times(t, x) + if x == h then 1 else 0
  {
    var i := KeyIndex(t, h, chain(h));
    if i < |t| {
      assert t[i] in t;
      IncrementTimes(chain, t, i, x);
    } else {
      NoKeyNoHeight(chain, t, h);
      AppendCanonical(chain, t, h);
      AppendTimes(t, HeaderRow(h, chain(h), 1), x);
    }
  }

  /** The table after indexing the served headers of the given heights in this order. */
  function IndexAll(chain: nat -> string, t: Table, heights: seq<nat>): Table {
    if heights == [] then t
    else
      var h := heights[|heights| - 1];
      Upsert(IndexAll(chain, t, heights[..|heights| - 1]), h, chain(h))
  }

  lemma {:induction false} IndexAllTimes(chain: nat -> string, t: Table, heights: seq<nat>, x: nat)
    requires Canonical(chain, t)
    ensures Canonical(chain, IndexAll(chain, t, heights))
    ensures x in Heights(IndexAll(chain, t, heights)) <==> x in Heights(t) || x in heights
    ensures Times(IndexAll(chain, t, heights), x) == Times(t, x) + multiset(heights)[x]
  {
    if heights != [] {
      var init, h := heights[..|heights| - 1], heights[|heights| - 1];
      assert heights == init + [h];
      IndexAllTimes(chain, t, init, x);
      UpsertTimes(chain, IndexAll(chain, t, init), h, x);
    }
  }

  // ---- one pass ----

  /** The bins of all gaps; a gap that GetBlockHeightBins rejects is skipped. */
  function PassPlan(gaps: seq<Gap>, batchSize: uint64): Bins {
    if gaps == [] then []
    else
      var g := gaps[|gaps| - 1];
      PassPlan(gaps[..|gaps| - 1], batchSize)
      + if g.start < TWO_64 && g.stop < TWO_64 && BlockHeightBins(g.start, g.stop, batchSize).Ok?
        then BlockHeightBins(g.start, g.stop, batchSize).value else []
  }

  lemma PassPlanSnoc(gaps: seq<Gap>, g: Gap, batchSize: uint64)
    ensures PassPlan(gaps + [g], batchSize) == PassPlan(gaps, batchSize) + PassPlan([g], batchSize)
  {
    assert (gaps + [g])[..|gaps|] == gaps && [g][..0] == [];
  }

  lemma PassPlanAppendSnoc(a: seq<Gap>, b: seq<Gap>, g: Gap, batchSize: uint64)
    requires PassPlan(a + b, batchSize) == PassPlan(a, batchSize) + PassPlan(b, batchSize)
    ensures PassPlan(a + (b + [g]), batchSize) == PassPlan(a, batchSize) + PassPlan(b + [g], batchSize)
  {
    hide *;
    assert a + (b + [g]) == (a + b) + [g];
    PassPlanSnoc(a + b, g, batchSize);
    PassPlanSnoc(b, g, batchSize);
  }

  lemma {:induction false} PassPlanAppend(a: seq<Gap>, b: seq<Gap>, batchSize: uint64)
    ensures PassPlan(a + b, batchSize) == PassPlan(a, batchSize) + PassPlan(b, batchSize)
  {
    if b == [] {
      assert a + b == a;
    } else {
      hide *;
      assert b == b[..|b| - 1] + [b[|b| - 1]];
      PassPlanAppend(a, b[..|b| - 1], batchSize);
      PassPlanAppendSnoc(a, b[..|b| - 1], b[|b| - 1], batchSize);
    }
  }

  /** A reversed gap, which GetBlockHeightBins rejects, does not end the pass: the gaps before it and after it are
      planned as if it were not there. */
  lemma RejectedGapSkipped(a: seq<Gap>, g: Gap, b: seq<Gap>, batchSize: uint64)
    requires g.stop < g.start
    ensures PassPlan(a + [g] + b, batchSize) == PassPlan(a + b, batchSize)
  {
    hide *;
    RejectedPlansNothing(g, batchSize);
    PassPlanAppend(a + [g], b, batchSize);
    PassPlanAppend(a, [g], batchSize);
    PassPlanAppend(a, b, batchSize);
  }

  lemma RejectedPlansNothing(g: Gap, batchSize: uint64)
    requires g.stop < g.start
    ensures PassPlan([g], batchSize) == []
  {
    hide BinsUpTo, BinsAllocated;
    assert [g][..0] == [];
  }

  method PlanPass(gaps: seq<Gap>, batchSize: uint64) returns (plan: Bins)
    requires forall i :: 0 <= i < |gaps| ==> gaps[i].start < TWO_64 && gaps[i].stop < TWO_64
    ensures plan == PassPlan(gaps, batchSize)
  {
    plan := [];
    for i := 0 to |gaps|
      invariant plan == PassPlan(gaps[..i], batchSize)
    {
      assert gaps[..i + 1][..i] == gaps[..i];
      var blockRangeBins := GetBlockHeightBins(gaps[i].start, gaps[i].stop, batchSize);
      if blockRangeBins.Err? {
        continue;
      }
      plan := plan + blockRangeBins.value;
    }
    assert gaps[..|gaps|] == gaps;
  }

  /** Every gap is nonempty and stops at or below a height. */
  ghost predicate GapsFit(gaps: seq<Gap>, last: nat) {
    forall i :: 0 <= i < |gaps| ==> gaps[i].start <= gaps[i].stop <= last
  }

  lemma SmallGapFits(start: uint64, stop: uint64, batchSize: uint64)
    requires start <= stop && batchSize > 0 && stop + batchSize < TWO_64
    ensures Fits(start, stop, batchSize)
  {
    DivBounds(stop - start + batchSize, batchSize);
  }

  lemma {:induction false} PassPlanCovers(gaps: seq<Gap>, last: nat, batchSize: uint64)
    requires GapsFit(gaps, last) && batchSize > 0 && last + batchSize < TWO_64
    ensures Flatten<nat>(PassPlan(gaps, batchSize)) == Expand(gaps)
    ensures [] !in PassPlan(gaps, batchSize)
  {
    if gaps != [] {
      var init, g := gaps[..|gaps| - 1], gaps[|gaps| - 1];
      PassPlanCovers(init, last, batchSize);
      SmallGapFits(g.start, g.stop, batchSize);
      BinsCoverIff(g.start, g.stop, batchSize);
      EmptyBinIff(g.start, g.stop, batchSize);
      FlattenAppend<nat>(PassPlan(init, batchSize), BlockHeightBins(g.start, g.stop, batchSize).value);
    }
  }
}
