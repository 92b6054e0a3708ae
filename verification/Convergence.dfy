/** Repeated backfill passes over a table nobody else writes converge
    (RetrieveGapsInData, BackFill and indexHeaderCID together). */
module Convergence {
  import opened Seqs
  import opened HeightRuns
  import opened GapSearch
  import opened WorkerPool
  import opened BackFill

  /** The served header of every height, the validation level, the batch size and the number of workers. */
  datatype Config = Config(chain: nat -> string, level: int, batchSize: uint64, workers: nat)

  /** The database's answers to the two queries, the length of the schedule, and the state it leads to. */
  datatype Pass = Pass(rows: seq<Gap>, below: seq<nat>, steps: nat, end: Pool)

  ghost predicate Ready(c: Config, t: Table) {
    t != [] && Canonical(c.chain, t) && c.batchSize > 0 && Last(t) + c.batchSize < TWO_64
  }

  ghost predicate Answers(t: Table, level: int, p: Pass) {
    t != [] && AnswersGapQuery(t, p.rows) && AnswersLevelQuery(t, level, p.below)
  }

  /** The gap list of a pass. */
  function PassGaps(t: Table, p: Pass): seq<Gap>
    requires t != []
  {
    AbsentGaps(t, p.rows) + GapsOf(p.below)
  }

  /** A complete pass on some schedule, in which every height handed out was also indexed. */
  ghost predicate PassBy(c: Config, t: Table, t': Table, p: Pass) {
    && Answers(t, c.level, p)
    && Reaches(PassPlan(PassGaps(t, p), c.batchSize), c.workers, p.steps, p.end)
    && p.end.phase.Returned? && |p.end.indexed| == |p.end.attempted|
    && t' == IndexAll(c.chain, t, p.end.indexed)
  }

  // ---- what a pass works on ----

  lemma FitAdd(runs: seq<Gap>, h: nat)
    requires runs != [] ==> GapsFit(runs, h)
    ensures GapsFit(AddHeight(runs, h), h)
  {
  }

  lemma {:induction false} RunsFit(heights: seq<nat>)
    requires Nondecreasing(heights) && heights != []
    ensures GapsFit(RunsOf(heights), heights[|heights| - 1])
  {
    var init, h := heights[..|heights| - 1], heights[|heights| - 1];
    if init != [] {
      RunsFit(init);
      assert init[|init| - 1] == heights[|heights| - 2] <= h;
    }
    FitAdd(RunsOf(init), h);
  }

  lemma BelowAtMostLast(t: Table, level: int, below: seq<nat>, x: nat)
    requires t != [] && AnswersLevelQuery(t, level, below) && x in below
    ensures x <= Last(t)
  {
    SameMembers(below, BelowLevel(t, level), x);
    BelowLevelMember(t, level, x);
    assert x in Heights(t);
  }

  lemma AbsentGapFits(t: Table, rows: seq<Gap>, g: Gap)
    requires t != [] && AnswersGapQuery(t, rows) && g in AbsentGaps(t, rows)
    ensures g.start <= g.stop <= Last(t)
  {
    AbsentGapKind(t, rows, g);
    if h :| OpensAfter(t, g, h) {
      OpenGapAbsent(t, g, h, 0);
    }
  }

  lemma AbsentGapsFit(t: Table, rows: seq<Gap>)
    requires t != [] && AnswersGapQuery(t, rows)
    ensures GapsFit(AbsentGaps(t, rows), Last(t))
  {
    var gaps := AbsentGaps(t, rows);
    hide AbsentGaps, AnswersGapQuery, Last;
    forall i | 0 <= i < |gaps| ensures gaps[i].start <= gaps[i].stop <= Last(t) {
      AbsentGapFits(t, rows, gaps[i]);
    }
  }

  lemma FitBelow(gaps: seq<Gap>, last: nat, more: nat)
    requires GapsFit(gaps, last) && last <= more
    ensures GapsFit(gaps, more)
  {
  }

  lemma FitAppend(a: seq<Gap>, b: seq<Gap>, last: nat)
    requires GapsFit(a, last) && GapsFit(b, last)
    ensures GapsFit(a + b, last)
  {
  }

  lemma BelowGapsFit(t: Table, level: int, below: seq<nat>)
    requires t != [] && AnswersLevelQuery(t, level, below)
    ensures GapsFit(GapsOf(below), Last(t))
  {
    if |below| > 1 {
      var last := below[|below| - 1];
      BelowAtMostLast(t, level, below, last);
      RunsFit(below);
      hide RunsOf, GapsFit, Last;
      FitBelow(RunsOf(below), last, Last(t));
    }
  }

  lemma PassGapsFit(t: Table, level: int, p: Pass)
    requires Answers(t, level, p)
    ensures GapsFit(PassGaps(t, p), Last(t))
  {
    hide AbsentGaps, GapsOf, GapsFit, Last, AnswersGapQuery, AnswersLevelQuery;
    AbsentGapsFit(t, p.rows);
    BelowGapsFit(t, level, p.below);
    FitAppend(AbsentGaps(t, p.rows), GapsOf(p.below), Last(t));
  }

  lemma {:induction false} BelowCount(chain: nat -> string, t: Table, level: int, x: nat)
    requires Canonical(chain, t)
    ensures multiset(BelowLevel(t, level))[x] == if x in Heights(t) && Times(t, x) < level then 1 else 0
  {
    if t != [] {
      var init, row := t[..|t| - 1], t[|t| - 1];
      HeightsSnoc(t);
      BelowCount(chain, init, level, x);
      if row.height in Heights(init) {
        var j := MemberIndex(init, row.height);
      }
    }
  }

  /** Each absent height of [0, last] once, and each height below the level once unless there is only one. */
  lemma PassCounts(c: Config, t: Table, p: Pass, x: nat)
    requires Canonical(c.chain, t) && Answers(t, c.level, p)
    ensures multiset(Expand(PassGaps(t, p)))[x]
            == (if x <= Last(t) && x !in Heights(t) then 1 else 0)
             + (if |p.below| != 1 && x in Heights(t) && Times(t, x) < c.level then 1 else 0)
  {
    ExpandAppend(AbsentGaps(t, p.rows), GapsOf(p.below));
    AbsentHeightsDistinct(t, p.rows);
    DistinctCount(Expand(AbsentGaps(t, p.rows)), x);
    ExpandMember(AbsentGaps(t, p.rows), x);
    AbsentGapsCover(t, p.rows, x);
    SortedGapsRoundTrip(p.below);
    BelowCount(c.chain, t, c.level, x);
  }

  lemma BagFull(a: multiset<nat>, b: multiset<nat>)
    requires a <= b && |a| == |b|
    ensures a == b
  {
    assert b == a + (b - a);
  }

  /** A pass re-indexes exactly the heights of its gaps, whatever the schedule. */
  lemma PassIndexes(c: Config, t: Table, t': Table, p: Pass)
    requires Ready(c, t) && PassBy(c, t, t', p)
    ensures multiset(p.end.indexed) == multiset(Expand(PassGaps(t, p)))
  {
    Drained(PassPlan(PassGaps(t, p), c.batchSize), c.workers, p.steps, p.end);
    PassGapsFit(t, c.level, p);
    PassPlanCovers(PassGaps(t, p), Last(t), c.batchSize);
    BagFull(multiset(p.end.indexed), multiset(p.end.attempted));
  }

  /** The table after a pass: every gap height gained one validation, and nothing else changed. */
  lemma PassEffect(c: Config, t: Table, t': Table, p: Pass, x: nat)
    requires Ready(c, t) && PassBy(c, t, t', p)
    ensures Canonical(c.chain, t')
    ensures x in Heights(t') <==> x in Heights(t) || x <= Last(t)
    ensures Times(t', x) == Times(t, x)
            + (if x <= Last(t) && x !in Heights(t) then 1 else 0)
            + (if |p.below| != 1 && x in Heights(t) && Times(t, x) < c.level then 1 else 0)
  {
    var indexed: seq<nat> := p.end.indexed;
    PassIndexes(c, t, t', p);
    PassCounts(c, t, p, x);
    IndexAllTimes(c.chain, t, indexed, x);
    assert x in indexed <==> multiset(indexed)[x] > 0;
  }

  // ---- the measure ----

  function Shortfall(level: int, times: int): nat {
    if times < level then level - times else 0
  }

  function Weight(t: Table, level: int, h: nat): nat {
    (if h in Heights(t) then 0 else 1) + Shortfall(level, Times(t, h))
  }

  /** Absent heights below k, plus the validations still missing at each height below k. */
  function Deficit(t: Table, level: int, k: nat): nat {
    if k == 0 then 0 else Deficit(t, level, k - 1) + Weight(t, level, k - 1)
  }

  ghost predicate NoHeavier(t: Table, t': Table, level: int, k: nat) {
    forall h: nat :: h < k ==> Weight(t', level, h) <= Weight(t, level, h)
  }

  lemma {:induction false} DeficitDrops(t: Table, t': Table, level: int, k: nat, w: nat)
    requires NoHeavier(t, t', level, k)
    requires w < k ==> Weight(t', level, w) < Weight(t, level, w)
    ensures Deficit(t', level, k) <= Deficit(t, level, k)
    ensures w < k ==> Deficit(t', level, k) < Deficit(t, level, k)
  {
    if k > 0 {
      DeficitDrops(t, t', level, k - 1, w);
    }
  }

  lemma PassWeight(c: Config, t: Table, t': Table, p: Pass, h: nat)
    requires Ready(c, t) && PassBy(c, t, t', p) && h <= Last(t)
    ensures Weight(t', c.level, h) <= Weight(t, c.level, h)
    ensures multiset(Expand(PassGaps(t, p)))[h] > 0 ==> Weight(t', c.level, h) < Weight(t, c.level, h)
  {
    PassAnswers(c, t, t', p);
    hide *;
    PassEffect(c, t, t', p, h);
    PassCounts(c, t, p, h);
    if h !in Heights(t) {
      TimesAbsent(t, h);
    }
    WeightGain(t, t', c.level, h, multiset(Expand(PassGaps(t, p)))[h]);
  }

  lemma PassAnswers(c: Config, t: Table, t': Table, p: Pass)
    requires Ready(c, t) && PassBy(c, t, t', p)
    ensures Canonical(c.chain, t) && Answers(t, c.level, p) && t != []
  {
  }

  /** A height gains one validation for each time it is listed, once at most and only if it lacks one. */
  lemma WeightGain(t: Table, t': Table, level: int, h: nat, listed: nat)
    requires h in Heights(t') && (h !in Heights(t) ==> Times(t, h) == 0)
    requires Times(t', h) == Times(t, h) + listed
    requires listed <= 1 && (listed == 1 ==> h !in Heights(t) || Times(t, h) < level)
    ensures Weight(t', level, h) <= Weight(t, level, h)
    ensures listed > 0 ==> Weight(t', level, h) < Weight(t, level, h)
  {
    hide Heights, Times;
  }

  lemma PassKeepsLast(c: Config, t: Table, t': Table, p: Pass)
    requires Ready(c, t) && PassBy(c, t, t', p)
    ensures Ready(c, t') && Last(t') == Last(t)
  {
    PassEffect(c, t, t', p, Last(t));
    assert t' != [];
    PassEffect(c, t, t', p, Last(t'));
  }

  lemma SomeWork(t: Table, level: int, p: Pass) returns (h: nat)
    requires Answers(t, level, p) && PassGaps(t, p) != []
    ensures h <= Last(t) && multiset(Expand(PassGaps(t, p)))[h] > 0
  {
    PassGapsFit(t, level, p);
    var g := PassGaps(t, p)[0];
    h := g.start;
    assert g in PassGaps(t, p) && Contains(g, h);
    ExpandMember(PassGaps(t, p), h);
  }

  lemma PassLightens(c: Config, t: Table, t': Table, p: Pass) returns (w: nat)
    requires Ready(c, t) && PassBy(c, t, t', p) && PassGaps(t, p) != []
    ensures w <= Last(t) && Weight(t', c.level, w) < Weight(t, c.level, w)
    ensures NoHeavier(t, t', c.level, Last(t) + 1)
  {
    w := SomeWork(t, c.level, p);
    PassWeight(c, t, t', p, w);
    forall h: nat | h < Last(t) + 1 ensures Weight(t', c.level, h) <= Weight(t, c.level, h) {
      PassWeight(c, t, t', p, h);
    }
  }

  /** Every pass that found gaps strictly decreases the measure over the heights up to the last one. */
  lemma PassDecreases(c: Config, t: Table, t': Table, p: Pass)
    requires Ready(c, t) && PassBy(c, t, t', p) && PassGaps(t, p) != []
    ensures Deficit(t', c.level, Last(t) + 1) < Deficit(t, c.level, Last(t) + 1)
  {
    hide PassBy, PassGaps, Weight;
    var w := PassLightens(c, t, t', p);
    DeficitDrops(t, t', c.level, Last(t) + 1, w);
  }

  /** Some pass that found gaps leads from t to t'. */
  ghost predicate Filled(c: Config, t: Table, t': Table) {
    exists p :: PassBy(c, t, t', p) && PassGaps(t, p) != []
  }

  /** k passes in a row, each of which found gaps, lead from t to t'. */
  ghost predicate FilledTimes(c: Config, k: nat, t: Table, t': Table) {
    if k == 0 then t' == t
    else exists before :: FilledTimes(c, k - 1, t, before) && Filled(c, before, t')
  }

  /** However the passes are scheduled, each that finds gaps lowers the measure, so at most Deficit of them do. */
  lemma {:induction false} PassesEnd(c: Config, k: nat, t: Table, t': Table)
    requires Ready(c, t) && FilledTimes(c, k, t, t')
    ensures Ready(c, t') && Last(t') == Last(t)
    ensures k + Deficit(t', c.level, Last(t) + 1) <= Deficit(t, c.level, Last(t) + 1)
  {
    hide PassBy, PassGaps, Ready, Deficit;
    if k > 0 {
      var before :| FilledTimes(c, k - 1, t, before) && Filled(c, before, t');
      PassesEnd(c, k - 1, t, before);
      var p :| PassBy(c, before, t', p) && PassGaps(before, p) != [];
      PassKeepsLast(c, before, t', p);
      PassDecreases(c, before, t', p);
    }
  }

  lemma NoAbsentGapsIff(t: Table, rows: seq<Gap>)
    requires t != [] && AnswersGapQuery(t, rows)
    ensures AbsentGaps(t, rows) == [] <==> forall h :: 0 <= h <= Last(t) ==> h in Heights(t)
  {
    if AbsentGaps(t, rows) == [] {
      forall h | 0 <= h <= Last(t) ensures h in Heights(t) {
        AbsentGapsCover(t, rows, h);
      }
    } else {
      var g := AbsentGaps(t, rows)[0];
      AbsentGapFits(t, rows, g);
      CoveredIsAbsent(t, rows, g, g.start);
    }
  }

  lemma SameLength(a: seq<nat>, b: seq<nat>)
    requires multiset(a) == multiset(b)
    ensures |a| == |b|
  {
    assert |a| == |multiset(a)| && |b| == |multiset(b)|;
  }

  lemma {:induction false} RunsEmptyIff(heights: seq<nat>)
    ensures GapsOf(heights) == [] <==> |heights| <= 1
  {
  }

  /** The search finds nothing exactly when no height up to the last is absent and at most one row is below the
      level: the one MissingHeightsToGaps drops. */
  lemma NothingFoundIff(t: Table, level: int, p: Pass)
    requires Answers(t, level, p)
    ensures PassGaps(t, p) == []
            <==> (forall h :: 0 <= h <= Last(t) ==> h in Heights(t)) && |BelowLevel(t, level)| <= 1
  {
    SameLength(p.below, BelowLevel(t, level));
    NoAbsentGapsIff(t, p.rows);
    RunsEmptyIff(p.below);
  }

  // ---- a pass can always be made ----

  lemma {:induction false} Enumerated(gaps: set<Gap>) returns (rows: seq<Gap>)
    ensures Distinct(rows) && (set g | g in rows) == gaps
    decreases gaps
  {
    if gaps == {} {
      rows := [];
    } else {
      var g :| g in gaps;
      var others := Enumerated(gaps - {g});
      assert g in (set x | x in others) <==> g in others;
      rows := others + [g];
      SetSnoc(others, g);
      assert gaps == (gaps - {g}) + {g};
    }
  }

  lemma SetSnoc(gaps: seq<Gap>, g: Gap)
    ensures (set x | x in gaps + [g]) == (set x | x in gaps) + {g}
  {
  }

  /** A height put into a sorted list. */
  function Inserted(heights: seq<nat>, h: nat): seq<nat> {
    if heights == [] || heights[|heights| - 1] <= h then heights + [h]
    else Inserted(heights[..|heights| - 1], h) + [heights[|heights| - 1]]
  }

  lemma {:induction false} InsertedBag(heights: seq<nat>, h: nat)
    ensures multiset(Inserted(heights, h)) == multiset(heights) + multiset{h}
  {
    if heights != [] && heights[|heights| - 1] > h {
      InsertedBag(heights[..|heights| - 1], h);
      assert heights == heights[..|heights| - 1] + [heights[|heights| - 1]];
    }
  }

  lemma InsertedBound(heights: seq<nat>, h: nat, x: nat)
    requires x in Inserted(heights, h)
    ensures x in heights || x == h
  {
    InsertedBag(heights, h);
    assert x in multiset(Inserted(heights, h));
  }

  lemma {:induction false} InsertedSorted(heights: seq<nat>, h: nat)
    requires Nondecreasing(heights)
    ensures Nondecreasing(Inserted(heights, h))
  {
    if heights != [] && heights[|heights| - 1] > h {
      var init, last := heights[..|heights| - 1], heights[|heights| - 1];
      InsertedSorted(init, h);
      forall x | x in Inserted(init, h) ensures x <= last {
        InsertedBound(init, h, x);
      }
      hide Inserted;
      SortedSnoc(Inserted(init, h), last);
    } else {
      forall x | x in heights ensures x <= h {
        var i :| 0 <= i < |heights| && heights[i] == x;
        assert heights[i] <= heights[|heights| - 1];
      }
      SortedSnoc(heights, h);
    }
  }

  lemma SortedSnoc(heights: seq<nat>, h: nat)
    requires Nondecreasing(heights) && forall x :: x in heights ==> x <= h
    ensures Nondecreasing(heights + [h])
  {
    forall i | 0 <= i < |heights| ensures heights[i] <= h {
      assert heights[i] in heights;
    }
  }

  lemma {:induction false} SortedCopy(heights: seq<nat>) returns (sorted: seq<nat>)
    ensures Nondecreasing(sorted) && multiset(sorted) == multiset(heights)
  {
    if heights == [] {
      sorted := [];
    } else {
      var before := SortedCopy(heights[..|heights| - 1]);
      sorted := Inserted(before, heights[|heights| - 1]);
      InsertedSorted(before, heights[|heights| - 1]);
      InsertedBag(before, heights[|heights| - 1]);
      assert heights == heights[..|heights| - 1] + [heights[|heights| - 1]];
    }
  }

  /** Whatever the table, with a worker there is a pass over it. */
  lemma PassExists(c: Config, t: Table) returns (p: Pass, t': Table)
    requires Ready(c, t) && c.workers > 0
    ensures PassBy(c, t, t', p)
  {
    var rows := Enumerated(GapRows(t));
    var below := SortedCopy(BelowLevel(t, c.level));
    var plan := PassPlan(AbsentGaps(t, rows) + GapsOf(below), c.batchSize);
    p := Pass(rows, below, 0, Init([], 0));
    PassGapsFit(t, c.level, p);
    PassPlanCovers(PassGaps(t, p), Last(t), c.batchSize);
    var steps, end := CompletePass(plan, c.workers, true);
    p := Pass(rows, below, steps, end);
    t' := IndexAll(c.chain, t, end.indexed);
    hide Reaches, GapRows, BelowLevel, PassPlan, IndexAll, GapsOf;
  }

  // ---- convergence ----

  /** No height up to the last is absent, and at most one row is below the level. */
  ghost predicate Settled(t: Table, level: int)
    requires t != []
  {
    (forall h :: 0 <= h <= Last(t) ==> h in Heights(t)) && |BelowLevel(t, level)| <= 1
  }

  /** A pass that finds gaps is possible exactly until the table is settled. */
  lemma FilledIff(c: Config, t: Table)
    requires Ready(c, t) && c.workers > 0
    ensures (exists t' :: Filled(c, t, t')) <==> !Settled(t, c.level)
  {
    hide PassGaps, Settled;
    if t' :| Filled(c, t, t') {
      var p :| PassBy(c, t, t', p) && PassGaps(t, p) != [];
      SettledIff(t, c.level, p);
    }
    var p, t' := PassExists(c, t);
    SettledIff(t, c.level, p);
    if PassGaps(t, p) != [] {
      assert Filled(c, t, t');
    }
  }

  lemma SettledIff(t: Table, level: int, p: Pass)
    requires Answers(t, level, p)
    ensures PassGaps(t, p) == [] <==> Settled(t, level)
  {
    NothingFoundIff(t, level, p);
    hide PassGaps, Answers, Heights, BelowLevel;
  }

  /** k passes in a row can find gaps. */
  ghost predicate CanFill(c: Config, k: nat, t: Table) {
    exists t' :: FilledTimes(c, k, t, t')
  }

  /** Backfill converges: however the passes are scheduled, at most Deficit of them in a row find gaps, and they go on
      finding gaps exactly until nothing up to the last height is absent and at most one row is below the level. */
  lemma Converges(c: Config, k: nat, t: Table, t': Table)
    requires Ready(c, t) && c.workers > 0 && FilledTimes(c, k, t, t')
    ensures k + Deficit(t', c.level, Last(t) + 1) <= Deficit(t, c.level, Last(t) + 1)
    ensures t' != [] && ((forall more :: !Filled(c, t', more)) <==> Settled(t', c.level))
    ensures !Settled(t', c.level) ==> CanFill(c, k + 1, t)
  {
    PassesEnd(c, k, t, t');
    FilledIff(c, t');
    hide Filled, Settled, Deficit;
    if more :| Filled(c, t', more) {
      assert FilledTimes(c, k + 1, t, more);
    }
  }

  /** The dropped singleton: if exactly one row is below the level and nothing is absent, no search finds it, and a pass
      leaves the table as it is. */
  lemma LoneHeaderNeverRevalidated(c: Config, t: Table, t': Table, p: Pass)
    requires Ready(c, t) && PassBy(c, t, t', p)
    requires (forall h :: 0 <= h <= Last(t) ==> h in Heights(t)) && |BelowLevel(t, c.level)| == 1
    ensures PassGaps(t, p) == [] && t' == t
  {
    NothingFoundIff(t, c.level, p);
    PassIndexes(c, t, t', p);
    hide PassGaps, Answers, Reaches;
    assert Expand([]) == [];
    assert |multiset(p.end.indexed)| == |p.end.indexed| == 0;
  }
}
