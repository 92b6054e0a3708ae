/** The search for missing or under-validated heights
    (RetrieveGapsInData in pkg/super_node/eth/cid_retriever.go). */
module GapSearch {
  import opened Seqs
  import opened HeightRuns

  /** A row of eth.header_cids; (height, hash) is its unique key. */
  datatype HeaderRow = HeaderRow(height: nat, hash: string, timesValidated: int)

  type Table = seq<HeaderRow>

  function Heights(t: Table): set<nat> {
    set row | row in t :: row.height
  }

  // ---- the gap query, as SQL evaluates it ----

  function Matches<A, B>(a: A, right: seq<B>, on: (A, B) -> bool): seq<B> {
    if right == [] then []
    else Matches(a, right[..|right| - 1], on) + if on(a, right[|right| - 1]) then [right[|right| - 1]] else []
  }

  function Paired<A, B>(a: A, bs: seq<B>): seq<(A, Option<B>)> {
    if bs == [] then [] else Paired(a, bs[..|bs| - 1]) + [(a, Some(bs[|bs| - 1]))]
  }

  /** LEFT JOIN: every left row with each of its matches, or once with NULL if it has none. */
  function LeftJoin<A, B>(left: seq<A>, right: seq<B>, on: (A, B) -> bool): seq<(A, Option<B>)> {
    if left == [] then []
    else
      var a := left[|left| - 1];
      var bs := Matches(a, right, on);
      LeftJoin(left[..|left| - 1], right, on) + if bs == [] then [(a, None)] else Paired(a, bs)
  }

  lemma {:induction false} MatchesMember<A, B>(a: A, right: seq<B>, on: (A, B) -> bool, b: B)
    ensures b in Matches(a, right, on) <==> b in right && on(a, b)
  {
    if right != [] {
      MatchesMember(a, right[..|right| - 1], on, b);
      assert right == right[..|right| - 1] + [right[|right| - 1]];
    }
  }

  lemma {:induction false} PairedMember<A, B>(a: A, bs: seq<B>, p: (A, Option<B>))
    ensures p in Paired(a, bs) <==> p.0 == a && p.1.Some? && p.1.value in bs
  {
    if bs != [] {
      PairedMember(a, bs[..|bs| - 1], p);
      assert bs == bs[..|bs| - 1] + [bs[|bs| - 1]];
    }
  }

  /** What a LEFT JOIN contains. */
  ghost predicate Joined<A, B>(left: seq<A>, right: seq<B>, on: (A, B) -> bool, p: (A, Option<B>)) {
    && p.0 in left
    && match p.1
       case Some(b) => b in right && on(p.0, b)
       case None => Matches(p.0, right, on) == []
  }

  lemma {:induction false} LeftJoinMember<A, B>(left: seq<A>, right: seq<B>, on: (A, B) -> bool, p: (A, Option<B>))
    ensures p in LeftJoin(left, right, on) <==> Joined(left, right, on, p)
  {
    if left != [] {
      var init, a := left[..|left| - 1], left[|left| - 1];
      assert left == init + [a];
      LeftJoinMember(init, right, on, p);
      PairedMember(a, Matches(a, right, on), p);
      if p.1.Some? {
        MatchesMember(a, right, on, p.1.value);
      }
    }
  }

  type GapJoinRow = ((HeaderRow, Option<HeaderRow>), Option<HeaderRow>)

  predicate Follows(h: HeaderRow, r: HeaderRow) {
    h.height == r.height - 1
  }

  predicate Later(hr: (HeaderRow, Option<HeaderRow>), fr: HeaderRow) {
    hr.0.height < fr.height
  }

  /** header_cids LEFT JOIN r on the next height LEFT JOIN fr on every later height. */
  function GapJoin(t: Table): seq<GapJoinRow> {
    LeftJoin(LeftJoin(t, t, Follows), t, Later)
  }

  /** WHERE r IS NULL AND fr IS NOT NULL, grouped by header_cids.block_number (r is NULL in every group). */
  function GroupHeights(t: Table, h: nat): set<nat> {
    set p | p in GapJoin(t) && p.0.1.None? && p.1.Some? && p.0.0.height == h :: p.1.value.height
  }

  function GroupKeys(t: Table): set<nat> {
    set p | p in GapJoin(t) && p.0.1.None? && p.1.Some? :: p.0.0.height
  }

  ghost function Min(s: set<nat>): (m: nat)
    requires s != {}
    ensures m in s && forall x :: x in s ==> m <= x
  {
    var y :| y in s;
    HasMin(s, 0, y);
    var m :| m in s && forall x :: x in s ==> m <= x;
    m
  }

  /** Searching upwards from a lower bound. */
  lemma {:induction false} HasMin(s: set<nat>, lo: nat, y: nat)
    requires y in s && forall x :: x in s ==> lo <= x
    ensures exists m :: m in s && forall x :: x in s ==> m <= x
    decreases y - lo
  {
    if lo !in s {
      HasMin(s, lo + 1, y);
    }
  }

  /** The heights of the table above h. */
  function Above(t: Table, h: nat): set<nat> {
    set x | x in Heights(t) && h < x
  }

  lemma NoSuccessor(t: Table, h: HeaderRow)
    ensures Matches(h, t, Follows) == [] <==> h.height + 1 !in Heights(t)
  {
    var ms := Matches(h, t, Follows);
    if ms != [] {
      MatchesMember(h, t, Follows, ms[0]);
      assert ms[0] in t && ms[0].height == h.height + 1;
    }
    if h.height + 1 in Heights(t) {
      var row :| row in t && row.height == h.height + 1;
      MatchesMember(h, t, Follows, row);
    }
  }

  lemma GroupMember(t: Table, h: HeaderRow, fr: HeaderRow)
    ensures ((h, None), Some(fr)) in GapJoin(t)
            <==> h in t && h.height + 1 !in Heights(t) && fr in t && h.height < fr.height
  {
    LeftJoinMember(LeftJoin(t, t, Follows), t, Later, ((h, None), Some(fr)));
    LeftJoinMember(t, t, Follows, (h, None));
    NoSuccessor(t, h);
  }

  /** What the grouped join amounts to: a group for every height whose successor is absent but not last. */
  lemma GroupMeaning(t: Table, h: nat)
    ensures h in GroupKeys(t) <==> h in Heights(t) && h + 1 !in Heights(t) && Above(t, h) != {}
    ensures h in GroupKeys(t) ==> GroupHeights(t, h) == Above(t, h)
  {
    forall x | x in GroupHeights(t, h) ensures x in Above(t, h) && h in Heights(t) && h + 1 !in Heights(t) {
      GroupedIsAbove(t, h, x);
    }
    if h in GroupKeys(t) {
      var p :| p in GapJoin(t) && p.0.1.None? && p.1.Some? && p.0.0.height == h;
      assert p.1.value.height in GroupHeights(t, h);
    }
    if h in Heights(t) && h + 1 !in Heights(t) {
      forall x | x in Above(t, h) ensures x in GroupHeights(t, h) && h in GroupKeys(t) {
        AboveIsGrouped(t, h, x);
      }
    }
  }

  lemma RowIsAbove(t: Table, row: HeaderRow, fr: HeaderRow)
    requires ((row, None), Some(fr)) in GapJoin(t)
    ensures fr.height in Above(t, row.height) && row.height in Heights(t) && row.height + 1 !in Heights(t)
  {
    hide GapJoin;
    GroupMember(t, row, fr);
  }

  lemma GroupedIsAbove(t: Table, h: nat, x: nat)
    requires x in GroupHeights(t, h)
    ensures x in Above(t, h) && h in Heights(t) && h + 1 !in Heights(t)
  {
    var p :| p in GapJoin(t) && p.0.1.None? && p.1.Some? && p.0.0.height == h && p.1.value.height == x;
    hide GapJoin, GroupHeights, Heights, Above;
    assert p == ((p.0.0, None), Some(p.1.value));
    RowIsAbove(t, p.0.0, p.1.value);
  }

  lemma RowIsGrouped(t: Table, row: HeaderRow, fr: HeaderRow)
    requires row in t && row.height + 1 !in Heights(t) && fr in t && row.height < fr.height
    ensures fr.height in GroupHeights(t, row.height) && row.height in GroupKeys(t)
  {
    hide GapJoin, Heights;
    GroupMember(t, row, fr);
    var p: GapJoinRow := ((row, None), Some(fr));
    assert p in GapJoin(t) && p.0.1.None? && p.1.Some?;
  }

  lemma AboveIsGrouped(t: Table, h: nat, x: nat)
    requires h in Heights(t) && h + 1 !in Heights(t) && x in Above(t, h)
    ensures x in GroupHeights(t, h) && h in GroupKeys(t)
  {
    var row :| row in t && row.height == h;
    var fr :| fr in t && fr.height == x;
    hide Heights, GroupHeights, GroupKeys;
    RowIsGrouped(t, row, fr);
  }

  /** SELECT height + 1 AS start, min(fr) - 1 AS stop. */
  ghost function GroupRow(t: Table, h: nat): Gap
    requires h in GroupKeys(t)
  {
    GroupMeaning(t, h);
    assert Min(GroupHeights(t, h)) in Above(t, h);
    Gap(h + 1, Min(GroupHeights(t, h)) - 1)
  }

  /** One row per group. */
  ghost function GapRows(t: Table): set<Gap> {
    set h | h in GroupKeys(t) :: GroupRow(t, h)
  }

  /** The gap that opens after height h. */
  ghost predicate OpensAfter(t: Table, g: Gap, h: nat) {
    && h in Heights(t) && h + 1 !in Heights(t) && Above(t, h) != {}
    && g.start == h + 1 && g.stop + 1 == Min(Above(t, h))
  }

  lemma GapRowsMeaning(t: Table, g: Gap)
    ensures g in GapRows(t) <==> exists h :: OpensAfter(t, g, h)
  {
    if g in GapRows(t) {
      var h :| h in GroupKeys(t) && g == GroupRow(t, h);
      GroupMeaning(t, h);
      assert OpensAfter(t, g, h);
    }
    if h :| OpensAfter(t, g, h) {
      GroupMeaning(t, h);
      assert g == GroupRow(t, h);
    }
  }

  // ---- RetrieveGapsInData ----

  function First(t: Table): (m: nat)
    requires t != []
    ensures m in Heights(t) && forall x :: x in Heights(t) ==> m <= x
  {
    if |t| == 1 then assert t[0] in t; t[0].height
    else
      var init, row := t[..|t| - 1], t[|t| - 1];
      HeightsSnoc(t);
      if First(init) < row.height then First(init) else row.height
  }

  function Last(t: Table): (m: nat)
    requires t != []
    ensures m in Heights(t) && forall x :: x in Heights(t) ==> x <= m
  {
    if |t| == 1 then assert t[0] in t; t[0].height
    else
      var init, row := t[..|t| - 1], t[|t| - 1];
      HeightsSnoc(t);
      if Last(init) > row.height then Last(init) else row.height
  }

  lemma HeightsSnoc(t: Table)
    requires t != []
    ensures Heights(t) == Heights(t[..|t| - 1]) + {t[|t| - 1].height}
  {
    assert t == t[..|t| - 1] + [t[|t| - 1]];
  }

  /** Heights of the rows validated fewer than level times, in table order. */
  function BelowLevel(t: Table, level: int): seq<nat> {
    if t == [] then []
    else
      BelowLevel(t[..|t| - 1], level)
      + if t[|t| - 1].timesValidated < level then [t[|t| - 1].height] else []
  }

  /** The rows of the gap query in some order, each once: the query has no ORDER BY. */
  ghost predicate AnswersGapQuery(t: Table, rows: seq<Gap>) {
    Distinct(rows) && (set g | g in rows) == GapRows(t)
  }

  /** The rows of the validation query: ORDER BY block_number, duplicates kept. */
  ghost predicate AnswersLevelQuery(t: Table, level: int, heights: seq<nat>) {
    && Nondecreasing(heights)
    && multiset(heights) == multiset(BelowLevel(t, level))
  }

  datatype RetrieveError = NoHeaders

  function InitialGap(t: Table): seq<Gap>
    requires t != []
  {
    if First(t) != 0 then [Gap(0, First(t) - 1)] else []
  }

  /** The three searches, given the database's answers to the two queries. */
  method RetrieveGapsInData(t: Table, ghost validationLevel: int, results: seq<Gap>, heights: seq<uint64>)
    returns (r: Result<seq<Gap>, RetrieveError>)
    requires AnswersGapQuery(t, results) && AnswersLevelQuery(t, validationLevel, heights)
    ensures r == if t == [] then Err(NoHeaders) else Ok(InitialGap(t) + results + GapsOf(heights))
  {
    if t == [] {
      return Err(NoHeaders);
    }
    var startingBlock := First(t);
    var initialGap: seq<Gap> := [];
    if startingBlock != 0 {
      initialGap := [Gap(0, startingBlock - 1)];
    }
    var emptyGaps: seq<Gap> := [];
    for i := 0 to |results|
      invariant emptyGaps == results[..i]
    {
      emptyGaps := emptyGaps + [Gap(results[i].start, results[i].stop)];
    }
    var validationGaps := MissingHeightsToGaps(heights);
    assert results[..|results|] == results;
    r := Ok(initialGap + emptyGaps + validationGaps);
  }

  // ---- what the gaps cover ----

  predicate Contains(g: Gap, x: nat) {
    g.start <= x <= g.stop
  }

  /** The nearest height of the table below an absent one. */
  lemma {:induction false} NearestBelow(t: Table, x: nat) returns (h: nat)
    requires t != [] && First(t) < x && x !in Heights(t)
    ensures h in Heights(t) && h < x && forall y :: h < y <= x ==> y !in Heights(t)
  {
    if x - 1 in Heights(t) {
      h := x - 1;
    } else {
      h := NearestBelow(t, x - 1);
    }
  }

  /** A gap that opens after some height holds only absent heights, up to the next present one. */
  lemma OpenGapAbsent(t: Table, g: Gap, h: nat, x: nat)
    requires OpensAfter(t, g, h)
    ensures g.start <= g.stop && First(t) < g.start && g.stop < Last(t)
    ensures Contains(g, x) ==> x !in Heights(t)
  {
    var m := Min(Above(t, h));
    assert m in Above(t, h);
    if x in Heights(t) && h < x {
      assert x in Above(t, h);
    }
  }

  /** Two gaps that open after different heights are disjoint. */
  lemma OpenGapsDisjoint(t: Table, g1: Gap, h1: nat, g2: Gap, h2: nat, x: nat)
    requires OpensAfter(t, g1, h1) && OpensAfter(t, g2, h2) && Contains(g1, x) && Contains(g2, x)
    ensures g1 == g2
  {
    assert h2 in Above(t, h1) <==> h1 < h2;
    assert h1 in Above(t, h2) <==> h2 < h1;
  }

  /** Every absent height between the first and the last lies in a gap that opens after some height. */
  lemma AbsentIsCovered(t: Table, x: nat) returns (g: Gap)
    requires t != [] && First(t) < x < Last(t) && x !in Heights(t)
    ensures g in GapRows(t) && Contains(g, x)
  {
    var h := NearestBelow(t, x);
    assert Last(t) in Above(t, h);
    assert h + 1 !in Heights(t);
    var m := Min(Above(t, h));
    assert m in Above(t, h);
    g := Gap(h + 1, m - 1);
    assert OpensAfter(t, g, h);
    GapRowsMeaning(t, g);
  }

  /** The absent part of the answer: heights before the first one, then the gap rows. */
  function AbsentGaps(t: Table, rows: seq<Gap>): seq<Gap>
    requires t != []
  {
    InitialGap(t) + rows
  }

  lemma AbsentGapKind(t: Table, rows: seq<Gap>, g: Gap)
    requires t != [] && AnswersGapQuery(t, rows)
    ensures g in AbsentGaps(t, rows)
            <==> (First(t) != 0 && g == Gap(0, First(t) - 1)) || exists h :: OpensAfter(t, g, h)
  {
    GapRowsMeaning(t, g);
  }

  lemma CoveredIsAbsent(t: Table, rows: seq<Gap>, g: Gap, x: nat)
    requires t != [] && AnswersGapQuery(t, rows)
    requires g in AbsentGaps(t, rows) && Contains(g, x)
    ensures x <= Last(t) && x !in Heights(t)
  {
    AbsentGapKind(t, rows, g);
    if h :| OpensAfter(t, g, h) {
      OpenGapAbsent(t, g, h, x);
    }
  }

  lemma AbsentIsListed(t: Table, rows: seq<Gap>, x: nat) returns (g: Gap)
    requires t != [] && AnswersGapQuery(t, rows)
    requires x <= Last(t) && x !in Heights(t)
    ensures g in AbsentGaps(t, rows) && Contains(g, x)
  {
    if x < First(t) {
      g := Gap(0, First(t) - 1);
    } else {
      g := AbsentIsCovered(t, x);
      assert g in rows;
    }
  }

  /** The absent part covers exactly the heights of [0, last] that have no header. */
  lemma AbsentGapsCover(t: Table, rows: seq<Gap>, x: nat)
    requires t != [] && AnswersGapQuery(t, rows)
    ensures (exists g :: g in AbsentGaps(t, rows) && Contains(g, x)) <==> x <= Last(t) && x !in Heights(t)
  {
    if g :| g in AbsentGaps(t, rows) && Contains(g, x) {
      CoveredIsAbsent(t, rows, g, x);
    }
    if x <= Last(t) && x !in Heights(t) {
      var g := AbsentIsListed(t, rows, x);
    }
  }

  /** No height lies in two of the absent gaps. */
  lemma AbsentGapsDisjoint(t: Table, rows: seq<Gap>, i: nat, j: nat, x: nat)
    requires t != [] && AnswersGapQuery(t, rows)
    requires i < j < |AbsentGaps(t, rows)|
    ensures !(Contains(AbsentGaps(t, rows)[i], x) && Contains(AbsentGaps(t, rows)[j], x))
  {
    var gaps := AbsentGaps(t, rows);
    var gi, gj := gaps[i], gaps[j];
    assert gj in rows;
    GapRowsMeaning(t, gj);
    var hj :| OpensAfter(t, gj, hj);
    OpenGapAbsent(t, gj, hj, x);
    if i >= |InitialGap(t)| {
      assert gi in rows;
      GapRowsMeaning(t, gi);
      var hi :| OpensAfter(t, gi, hi);
      if Contains(gi, x) && Contains(gj, x) {
        OpenGapsDisjoint(t, gi, hi, gj, hj, x);
      }
    }
  }

  lemma {:induction false} BelowLevelMember(t: Table, level: int, x: nat)
    ensures x in BelowLevel(t, level) <==> exists row :: row in t && row.height == x && row.timesValidated < level
  {
    if t != [] {
      var init, row := t[..|t| - 1], t[|t| - 1];
      assert t == init + [row];
      BelowLevelMember(init, level, x);
    }
  }

  lemma SameMembers(a: seq<nat>, b: seq<nat>, x: nat)
    requires multiset(a) == multiset(b)
    ensures x in a <==> x in b
  {
    assert x in a <==> x in multiset(a);
    assert x in b <==> x in multiset(b);
  }

  /** The rows of one height that are below the level. */
  function RowsBelow(t: Table, level: int, x: nat): set<nat> {
    set i: nat | i < |t| && t[i].height == x && t[i].timesValidated < level
  }

  lemma RowsBelowSnoc(t: Table, level: int, x: nat)
    requires t != []
    ensures var last := |t| - 1;
            RowsBelow(t, level, x)
            == RowsBelow(t[..last], level, x)
               + if t[last].height == x && t[last].timesValidated < level then {last as nat} else {}
  {
  }

  lemma {:induction false} BelowLevelRows(t: Table, level: int, x: nat)
    ensures multiset(BelowLevel(t, level))[x] == |RowsBelow(t, level, x)|
  {
    if t != [] {
      BelowLevelRows(t[..|t| - 1], level, x);
      RowsBelowSnoc(t, level, x);
      assert |t| - 1 !in RowsBelow(t[..|t| - 1], level, x);
    }
  }

  /** The validation query lists a height once for each of its rows below the level. */
  lemma LevelAnswerRows(t: Table, level: int, heights: seq<nat>, x: nat)
    requires AnswersLevelQuery(t, level, heights)
    ensures multiset(heights)[x] == |RowsBelow(t, level, x)|
  {
    BelowLevelRows(t, level, x);
    hide BelowLevel;
  }

  /** The validation gaps hold only present heights below the level, and all of them unless there is just one row. */
  lemma ValidationGapsExact(t: Table, level: int, heights: seq<uint64>, x: nat)
    requires AnswersLevelQuery(t, level, heights)
    ensures Expand(GapsOf(heights)) == if |heights| == 1 then [] else heights
    ensures x in Expand(GapsOf(heights))
            <==> |heights| != 1 && exists row :: row in t && row.height == x && row.timesValidated < level
  {
    SortedGapsRoundTrip(heights);
    BelowLevelMember(t, level, x);
    SameMembers(heights, BelowLevel(t, level), x);
  }

  lemma {:induction false} ExpandMember(gaps: seq<Gap>, x: nat)
    ensures x in Expand(gaps) <==> exists g :: g in gaps && Contains(g, x)
  {
    if gaps != [] {
      var init, g := gaps[..|gaps| - 1], gaps[|gaps| - 1];
      assert gaps == init + [g];
      ExpandMember(init, x);
      RangeMember(g.start, g.stop + 1, x);
      assert x in Expand(gaps) <==> x in Expand(init) || Contains(g, x);
      if Contains(g, x) {
        assert g in gaps;
      }
      if before :| before in init && Contains(before, x) {
        assert before in gaps;
      }
    }
  }

  /** The whole answer: absent heights of [0, last] and below-level heights, the two parts never overlapping. */
  lemma GapSetExact(t: Table, level: int, rows: seq<Gap>, heights: seq<uint64>, x: nat)
    requires t != [] && AnswersGapQuery(t, rows) && AnswersLevelQuery(t, level, heights)
    ensures x in Expand(AbsentGaps(t, rows)) <==> x <= Last(t) && x !in Heights(t)
    ensures x in Expand(GapsOf(heights))
            <==> |heights| != 1 && exists row :: row in t && row.height == x && row.timesValidated < level
    ensures x in Expand(AbsentGaps(t, rows)) ==> x !in Expand(GapsOf(heights))
  {
    ExpandMember(AbsentGaps(t, rows), x);
    AbsentGapsCover(t, rows, x);
    ValidationGapsExact(t, level, heights, x);
  }

  /** The absent heights are listed once each. */
  lemma {:induction false} DisjointGapsDistinct(gaps: seq<Gap>)
    requires forall i, j, x :: 0 <= i < j < |gaps| && Contains(gaps[i], x) ==> !Contains(gaps[j], x)
    ensures Distinct(Expand(gaps))
  {
    if gaps != [] {
      var init, g := gaps[..|gaps| - 1], gaps[|gaps| - 1];
      DisjointGapsDistinct(init);
      RangeDistinct(g.start, g.stop + 1);
      forall x | x in Expand(init) ensures x !in GapHeights(g) {
        ExpandMember(init, x);
        RangeMember(g.start, g.stop + 1, x);
        var before :| before in init && Contains(before, x);
        var i :| 0 <= i < |init| && init[i] == before;
        assert gaps[i] == before;
      }
      DistinctAppend(Expand(init), GapHeights(g));
    }
  }

  lemma AbsentHeightsDistinct(t: Table, rows: seq<Gap>)
    requires t != [] && AnswersGapQuery(t, rows)
    ensures Distinct(Expand(AbsentGaps(t, rows)))
  {
    var gaps := AbsentGaps(t, rows);
    forall i, j, x | 0 <= i < j < |gaps| && Contains(gaps[i], x) ensures !Contains(gaps[j], x) {
      AbsentGapsDisjoint(t, rows, i, j, x);
    }
    DisjointGapsDistinct(gaps);
  }
}
