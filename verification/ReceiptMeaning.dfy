/** What the receipt query means, and where it agrees with the live filter. */
module ReceiptMeaning {
  import opened Seqs
  import opened SqlCondition
  import opened ReceiptQuery

  // ---- the condition the query text stands for ----

  /** Only the first four topic slots have a column. */
  predicate HasEarlyTopic(topics: seq<seq<string>>) {
    exists i :: 0 <= i < |topics| && i < 4 && topics[i] != []
  }

  /** Wanted topics, but none in the first four slots. */
  predicate OnlyLateTopics(filter: ReceiptFilter) {
    HasTopic(filter.topics) && !HasEarlyTopic(filter.topics)
  }

  lemma {:induction false} ChecksIff(topics: seq<seq<string>>, k: nat, id: nat)
    requires k <= |topics|
    ensures TopicChecks(topics, k, id) != [] <==> exists i :: 0 <= i < k && i < 4 && topics[i] != []
  {
    if k > 0 {
      ChecksIff(topics, k - 1, id);
    }
  }

  function AllTopicChecks(filter: ReceiptFilter, id: nat): seq<Check> {
    TopicChecks(filter.topics, |filter.topics|, id + |ContractArgs(filter)|)
  }

  function TxPlaceholder(filter: ReceiptFilter, id: nat): nat {
    id + |ContractArgs(filter)| + |TopicArgs(filter.topics, |filter.topics|)|
  }

  lemma SomeChecks(filter: ReceiptFilter, id: nat)
    ensures AllTopicChecks(filter, id) != [] <==> HasEarlyTopic(filter.topics)
  {
    ChecksIff(filter.topics, |filter.topics|, id + |ContractArgs(filter)|);
    hide TopicChecks;
  }

  /** Contract and topics. */
  function Matching(filter: ReceiptFilter, id: nat): Conj<Check>
    requires filter.logAddresses != [] || AllTopicChecks(filter, id) != []
  {
    var topics := AllTopicChecks(filter, id);
    if filter.logAddresses == [] then AllOf(topics)
    else if topics == [] then One(Atom(ContractsOverlap(id)))
    else AndThen(Atom(ContractsOverlap(id)), One(Paren(Just(AllOf(topics)))))
  }

  function Alternatives(filter: ReceiptFilter, txs: seq<nat>, id: nat): Disj<Check>
    requires filter.logAddresses != [] || AllTopicChecks(filter, id) != []
  {
    var matching := One(Paren(Just(Matching(filter, id))));
    if ByTx(filter, txs) then OrElse(matching, Just(One(Atom(TxIn(TxPlaceholder(filter, id)))))) else Just(matching)
  }

  function Condition(filter: ReceiptFilter, txs: seq<nat>, id: nat): Option<Prim<Check>> {
    if filter.logAddresses != [] || AllTopicChecks(filter, id) != [] then Some(Paren(Alternatives(filter, txs, id)))
    else if ByTx(filter, txs) then Some(Atom(TxIn(TxPlaceholder(filter, id))))
    else None
  }

  lemma PrintOne(p: Prim<Check>)
    ensures PrintDisj(Just(One(p))) == PrintConj(One(p)) == PrintPrim(p)
  {
  }

  lemma PrintJust(c: Conj<Check>)
    ensures PrintDisj(Just(c)) == PrintConj(c)
    ensures PrintPrim(Paren(Just(c))) == [Open] + PrintConj(c) + [Close]
  {
  }

  lemma PrintAndThen(p: Prim<Check>, more: Conj<Check>)
    ensures PrintConj(AndThen(p, more)) == PrintPrim(p) + ([And] + PrintConj(more))
  {
  }

  lemma PrintMatching(filter: ReceiptFilter, id: nat)
    requires filter.logAddresses != [] || AllTopicChecks(filter, id) != []
    ensures var topics := AllTopicChecks(filter, id);
            PrintConj(Matching(filter, id))
            == if filter.logAddresses == [] then Joined(topics)
               else [Test(ContractsOverlap(id))]
                    + if topics != [] then [And, Open] + Joined(topics) + [Close] else []
  {
    hide AllTopicChecks, Joined, AllOf, PrintConj, PrintPrim, PrintDisj;
    var topics := AllTopicChecks(filter, id);
    var a := Atom(ContractsOverlap(id));
    PrintAtom(ContractsOverlap(id));
    PrintOne(a);
    if topics != [] {
      PrintAll(topics);
      PrintJust(AllOf(topics));
      PrintOne(Paren(Just(AllOf(topics))));
      PrintAndThen(a, One(Paren(Just(AllOf(topics)))));
    }
  }

  lemma PrintAlternatives(filter: ReceiptFilter, txs: seq<nat>, id: nat)
    requires filter.logAddresses != [] || AllTopicChecks(filter, id) != []
    ensures PrintDisj(Alternatives(filter, txs, id))
            == [Open] + PrintConj(Matching(filter, id)) + [Close] + OrTx(filter, txs, TxPlaceholder(filter, id))
  {
    var m, n := Matching(filter, id), TxPlaceholder(filter, id);
    var left := One(Paren(Just(m)));
    PrintOrElse(left, Just(One(Atom(TxIn(n)))));
    hide AllTopicChecks, Matching, TxPlaceholder, PrintConj, PrintPrim, PrintDisj;
    PrintJust(m);
    PrintJust(left);
    PrintOne(Paren(Just(m)));
    PrintAtom(TxIn(n));
    PrintOne(Atom(TxIn(n)));
  }

  lemma PrintOrElse(c: Conj<Check>, others: Disj<Check>)
    ensures PrintDisj(OrElse(c, others)) == PrintConj(c) + ([Or] + PrintDisj(others))
  {
  }

  /** The text appended for the filter is the condition, printed. */
  lemma FilterPrinted(filter: ReceiptFilter, txs: seq<nat>, id: nat)
    requires !OnlyLateTopics(filter)
    ensures FilterTokens(filter, txs, id)
            == match Condition(filter, txs, id)
               case Some(p) => [And] + PrintPrim(p)
               case None => []
  {
    SomeChecks(filter, id);
    hide AllTopicChecks, TopicChecks, TopicArgs, Joined, Matching, Alternatives, OrTx;
    assert HasTopic(filter.topics) <==> HasEarlyTopic(filter.topics) by {
      if HasEarlyTopic(filter.topics) {
        assert HasTopic(filter.topics);
      }
    }
    hide HasTopic, HasEarlyTopic;
    if filter.logAddresses != [] || AllTopicChecks(filter, id) != [] {
      PrintMatching(filter, id);
      PrintAlternatives(filter, txs, id);
      PrintInner(Alternatives(filter, txs, id));
      FilterText(filter, txs, id);
    } else {
      PrintAtom(TxIn(TxPlaceholder(filter, id)));
    }
  }

  lemma PrintInner(d: Disj<Check>)
    ensures PrintPrim(Paren(d)) == [Open] + PrintDisj(d) + [Close]
  {
  }

  lemma FilterText(filter: ReceiptFilter, txs: seq<nat>, id: nat)
    requires filter.logAddresses != [] || AllTopicChecks(filter, id) != []
    requires HasTopic(filter.topics) <==> AllTopicChecks(filter, id) != []
    ensures var topics := AllTopicChecks(filter, id);
            var matching := if filter.logAddresses == [] then Joined(topics)
                            else [Test(ContractsOverlap(id))]
                                 + if topics != [] then [And, Open] + Joined(topics) + [Close] else [];
            FilterTokens(filter, txs, id)
            == [And] + ([Open] + ([Open] + matching + [Close] + OrTx(filter, txs, TxPlaceholder(filter, id))) + [Close])
  {
    hide TopicChecks, TopicArgs, Joined, OrTx, HasTopic;
  }

  function QueryCondition(place: Place, filter: ReceiptFilter, txs: seq<nat>): Disj<Check> {
    Just(match Condition(filter, txs, |PlaceArgs(place)| + 1)
         case Some(p) => Ending(PlaceChecks(place), p)
         case None => AllOf(PlaceChecks(place)))
  }

  /** The query text parses, as this condition, unless all wanted topics are beyond the fourth slot. */
  lemma QueryParsed(place: Place, filter: ReceiptFilter, txs: seq<nat>)
    requires !OnlyLateTopics(filter)
    ensures Parse(QueryText(place, filter, txs)) == Some(QueryCondition(place, filter, txs))
  {
    var id := |PlaceArgs(place)| + 1;
    FilterPrinted(filter, txs, id);
    assert PlaceChecks(place) != [];
    hide Condition, FilterTokens, PlaceChecks, PlaceArgs, OnlyLateTopics, Joined, Parse, Ending, AllOf;
    match Condition(filter, txs, id)
    case Some(p) =>
      PrintEnding(PlaceChecks(place), p);
      assert PrintDisj(QueryCondition(place, filter, txs)) == QueryText(place, filter, txs);
      ParsePrinted(QueryCondition(place, filter, txs));
    case None =>
      PrintAll(PlaceChecks(place));
      assert PrintDisj(QueryCondition(place, filter, txs)) == QueryText(place, filter, txs);
      ParsePrinted(QueryCondition(place, filter, txs));
  }

  // ---- the empty parentheses ----

  lemma {:induction false} BadAfter(checks: seq<Check>, bad: Tokens)
    requires checks != [] && ParseConj(bad) == None
    ensures ParseConj(Joined(checks) + [And] + bad) == None
  {
    if |checks| == 1 {
      BadAfterOne(checks[0], bad);
    } else {
      BadAfter(checks[1..], bad);
      assert checks == [checks[0]] + checks[1..];
      JoinedCons(checks[0], checks[1..]);
      var rest := Joined(checks[1..]) + [And] + bad;
      hide ParseConj, Joined;
      assert ([Test(checks[0]), And] + Joined(checks[1..])) + [And] + bad == [Test(checks[0])] + [And] + rest;
      BadAfterOne(checks[0], rest);
    }
  }

  lemma BadAfterOne(c: Check, bad: Tokens)
    requires ParseConj(bad) == None
    ensures ParseConj([Test(c)] + [And] + bad) == None
  {
    var ts := [Test(c)] + [And] + bad;
    assert ts[1..] == [And] + bad && ([And] + bad)[1..] == bad;
    assert ParsePrim(ts) == Some((Atom(c), [And] + bad));
  }

  /** Something that starts like `((` or `((x AND (` and goes on with a closing parenthesis is no condition. */
  lemma EmptyParens(rest: Tokens)
    ensures ParseConj([Open, Open, Close] + rest) == None
  {
    var one := [Close] + rest;
    assert ParseDisj(one) == None by {
      assert ParsePrim(one) == None;
      assert ParseConj(one) == None;
    }
    OpenBad(one);
    var two := [Open] + one;
    NoDisj(two);
    OpenBad(two);
    assert [Open] + two == [Open, Open, Close] + rest;
  }

  lemma OpenBad(bad: Tokens)
    requires ParseDisj(bad) == None
    ensures ParsePrim([Open] + bad) == None && ParseConj([Open] + bad) == None
  {
    assert ([Open] + bad)[1..] == bad;
  }

  lemma NoDisj(bad: Tokens)
    requires ParseConj(bad) == None
    ensures ParseDisj(bad) == None
  {
  }

  lemma EmptyParensAfter(c: Check, rest: Tokens)
    ensures ParseConj([Open, Open, Test(c), And, Open, Close] + rest) == None
  {
    var one := [Close] + rest;
    assert ParseDisj(one) == None by {
      assert ParsePrim(one) == None;
      assert ParseConj(one) == None;
    }
    OpenBad(one);
    var two := [Test(c)] + [And] + ([Open] + one);
    BadAfterOne(c, [Open] + one);
    NoDisj(two);
    OpenBad(two);
    NoDisj([Open] + two);
    OpenBad([Open] + two);
    assert [Open] + ([Open] + two) == [Open, Open, Test(c), And, Open, Close] + rest;
  }

  /** If all wanted topics are beyond the fourth slot the query text is not a condition: the database rejects it. */
  lemma LateTopicsRejected(place: Place, filter: ReceiptFilter, txs: seq<nat>)
    requires OnlyLateTopics(filter)
    ensures Parse(QueryText(place, filter, txs)) == None
  {
    hide *;
    var id := |PlaceArgs(place)| + 1;
    NoChecks(filter, id);
    var bad := LateText(filter, txs, id);
    PlaceNonempty(place);
    BadAfter(PlaceChecks(place), bad);
    var text := QueryText(place, filter, txs);
    LateQuery(place, filter, txs, bad);
    NoDisj(text);
    NotParsed(text);
  }

  lemma NoChecks(filter: ReceiptFilter, id: nat)
    requires OnlyLateTopics(filter)
    ensures AllTopicChecks(filter, id) == []
  {
    SomeChecks(filter, id);
    hide AllTopicChecks, HasTopic, HasEarlyTopic;
  }

  lemma PlaceNonempty(place: Place)
    ensures PlaceChecks(place) != []
  {
  }

  lemma LateQuery(place: Place, filter: ReceiptFilter, txs: seq<nat>, bad: Tokens)
    requires FilterTokens(filter, txs, |PlaceArgs(place)| + 1) == [And] + bad
    ensures QueryText(place, filter, txs) == Joined(PlaceChecks(place)) + [And] + bad
  {
    hide FilterTokens, Joined, PlaceChecks, PlaceArgs;
  }

  lemma NotParsed(text: Tokens)
    requires ParseDisj(text) == None
    ensures Parse(text) == None
  {
  }

  lemma LateText(filter: ReceiptFilter, txs: seq<nat>, id: nat) returns (bad: Tokens)
    requires OnlyLateTopics(filter) && AllTopicChecks(filter, id) == []
    ensures FilterTokens(filter, txs, id) == [And] + bad && ParseConj(bad) == None
  {
    hide TopicChecks, TopicArgs, OrTx, HasTopic, HasEarlyTopic, ParseConj;
    var next := TxPlaceholder(filter, id);
    var tail := OrTx(filter, txs, next) + [Close];
    if filter.logAddresses == [] {
      bad := [Open, Open, Close] + tail;
      EmptyParens(tail);
    } else {
      bad := [Open, Open, Test(ContractsOverlap(id)), And, Open, Close] + ([Close] + tail);
      EmptyParensAfter(ContractsOverlap(id), [Close] + tail);
    }
  }

  // ---- placeholders ----

  function Placeholder(c: Check): seq<nat> {
    if c.TxJoin? || c.HeaderJoin? then [] else [c.n]
  }

  function Placeholders(ts: Tokens): seq<nat> {
    if ts == [] then []
    else Placeholders(ts[..|ts| - 1]) + if ts[|ts| - 1].Test? then Placeholder(ts[|ts| - 1].atom) else []
  }

  lemma PlaceholdersSnoc(ts: Tokens, t: Token<Check>)
    ensures Placeholders(ts + [t]) == Placeholders(ts) + if t.Test? then Placeholder(t.atom) else []
  {
    assert (ts + [t])[..|ts|] == ts;
  }

  lemma PlaceholdersAppendSnoc(a: Tokens, b: Tokens, last: Token<Check>)
    requires Placeholders(a + b) == Placeholders(a) + Placeholders(b)
    ensures Placeholders(a + (b + [last])) == Placeholders(a) + Placeholders(b + [last])
  {
    hide *;
    assert a + (b + [last]) == (a + b) + [last];
    PlaceholdersSnoc(a + b, last);
    PlaceholdersSnoc(b, last);
  }

  lemma {:induction false} PlaceholdersAppend(a: Tokens, b: Tokens)
    ensures Placeholders(a + b) == Placeholders(a) + Placeholders(b)
  {
    if b == [] {
      assert a + b == a;
    } else {
      hide *;
      var init, last := b[..|b| - 1], b[|b| - 1];
      assert b == init + [last];
      PlaceholdersAppend(a, init);
      PlaceholdersAppendSnoc(a, init, last);
    }
  }

  lemma CheckSnoc(before: seq<Check>, c: Check)
    ensures Placeholders(Joined(before + [c])) == Placeholders(Joined(before)) + Placeholder(c)
  {
    hide *;
    JoinedSnoc(before, c);
    OneMore(Joined(before), if before == [] then [] else [And], c);
  }

  lemma TopicUnfold(topics: seq<seq<string>>, k: nat, id: nat)
    requires 0 < k <= |topics|
    ensures var before := TopicChecks(topics, k - 1, id);
            TopicChecks(topics, k, id)
            == if k - 1 < 4 && topics[k - 1] != [] then before + [TopicsOverlap(k - 1, id + |before|)] else before
    ensures |TopicArgs(topics, k)| == |TopicArgs(topics, k - 1)| + if k - 1 < 4 && topics[k - 1] != [] then 1 else 0
  {
  }

  lemma TopicPlaceholder(slot: nat, n: nat)
    ensures Placeholder(TopicsOverlap(slot, n)) == [n]
  {
  }

  lemma RangeSnoc(lo: nat, hi: nat)
    requires lo <= hi
    ensures Range(lo, hi + 1) == Range(lo, hi) + [hi]
  {
  }

  lemma TopicStep(topics: seq<seq<string>>, k: nat, id: nat)
    requires 0 < k <= |topics|
    requires Placeholders(Joined(TopicChecks(topics, k - 1, id))) == Range(id, id + |TopicArgs(topics, k - 1)|)
    ensures Placeholders(Joined(TopicChecks(topics, k, id))) == Range(id, id + |TopicArgs(topics, k)|)
  {
    hide *;
    AsManyArgs(topics, k - 1, id);
    var before := TopicChecks(topics, k - 1, id);
    var c := TopicsOverlap(k - 1, id + |before|);
    TopicUnfold(topics, k, id);
    if k - 1 < 4 && topics[k - 1] != [] {
      CheckSnoc(before, c);
      TopicPlaceholder(k - 1, id + |before|);
      RangeSnoc(id, id + |before|);
    }
  }

  lemma {:induction false} TopicPlaceholders(topics: seq<seq<string>>, k: nat, id: nat)
    requires k <= |topics|
    ensures Placeholders(Joined(TopicChecks(topics, k, id))) == Range(id, id + |TopicArgs(topics, k)|)
  {
    if k == 0 {
      JoinedNone();
    } else {
      hide *;
      TopicPlaceholders(topics, k - 1, id);
      TopicStep(topics, k, id);
    }
  }

  lemma OneMore(ts: Tokens, sep: Tokens, c: Check)
    requires sep == [] || sep == [And]
    ensures Placeholders(ts + sep + [Test(c)]) == Placeholders(ts) + Placeholder(c)
  {
    PlaceholdersSnoc(ts + sep, Test(c));
    if sep == [] {
      assert ts + sep == ts;
    } else {
      PlaceholdersSnoc(ts, And);
    }
  }

  lemma PlaceholdersOne(t: Token<Check>)
    ensures Placeholders([t]) == if t.Test? then Placeholder(t.atom) else []
  {
    var none: Tokens := [];
    PlaceholdersSnoc(none, t);
    assert none + [t] == [t];
  }

  lemma PlaceholdersTwo(s: Token<Check>, t: Token<Check>)
    ensures Placeholders([s, t]) == Placeholders([s]) + if t.Test? then Placeholder(t.atom) else []
  {
    var one: Tokens := [s];
    PlaceholdersSnoc(one, t);
    assert one + [t] == [s, t];
  }

  lemma PlaceholdersThree(r: Token<Check>, s: Token<Check>, t: Token<Check>)
    ensures Placeholders([r, s, t]) == Placeholders([r, s]) + if t.Test? then Placeholder(t.atom) else []
  {
    var two: Tokens := [r, s];
    PlaceholdersSnoc(two, t);
    assert two + [t] == [r, s, t];
  }

  /** Tokens without tests have no placeholder. */
  lemma NoPlaceholders()
    ensures Placeholders([]) == [] && Placeholders([Close]) == [] && Placeholders([And]) == []
    ensures Placeholders([And, Open]) == [] && Placeholders([And, Open, Open]) == []
  {
    PlaceholdersOne(Close);
    PlaceholdersOne(And);
    PlaceholdersTwo(And, Open);
    PlaceholdersThree(And, Open, Open);
  }

  lemma TestPlaceholder(ts: Tokens, c: Check)
    requires Placeholders(ts) == []
    ensures Placeholders(ts + [Test(c)]) == Placeholder(c)
  {
    PlaceholdersSnoc(ts, Test(c));
  }

  lemma OrTxPlaceholders(filter: ReceiptFilter, txs: seq<nat>, id: nat)
    ensures Placeholders(OrTx(filter, txs, id)) == Range(id, id + |TxArgs(filter, txs)|)
  {
    PlaceholdersOne(Or);
    PlaceholdersTwo(Or, Test(TxIn(id)));
    RangeOne(id);
    NoPlaceholders();
    hide Placeholders;
  }

  lemma RangeOne(id: nat)
    ensures Range(id, id + 1) == [id]
  {
    assert Range(id, id) == [];
  }

  /** Three parts of a range. */
  lemma ThreeRanges(id: nat, a: nat, b: nat, c: nat)
    ensures Range(id, id + a) + Range(id + a, id + a + b) + Range(id + a + b, id + a + b + c) == Range(id, id + a + b + c)
  {
    RangeSplit(id, id + a, id + a + b);
    RangeSplit(id, id + a + b, id + a + b + c);
  }

  function TopicGroup(filter: ReceiptFilter, id: nat): Tokens {
    if HasTopic(filter.topics) then [And, Open] + Joined(TopicChecks(filter.topics, |filter.topics|, id)) + [Close] else []
  }

  lemma GroupPlaceholders(filter: ReceiptFilter, id: nat)
    ensures Placeholders(TopicGroup(filter, id)) == Range(id, id + |TopicArgs(filter.topics, |filter.topics|)|)
  {
    hide Placeholders, TopicChecks, TopicArgs, Joined, HasTopic;
    NoPlaceholders();
    if HasTopic(filter.topics) {
      var topics := Joined(TopicChecks(filter.topics, |filter.topics|, id));
      TopicPlaceholders(filter.topics, |filter.topics|, id);
      hide Range;
      PlaceholdersAppend([And, Open], topics);
      PlaceholdersAppend([And, Open] + topics, [Close]);
    } else {
      NoTopicNoArgs(filter.topics, |filter.topics|);
    }
  }

  lemma AddressedText(filter: ReceiptFilter, txs: seq<nat>, id: nat)
    requires filter.logAddresses != []
    ensures FilterTokens(filter, txs, id)
            == [And, Open, Open, Test(ContractsOverlap(id))] + TopicGroup(filter, id + 1) + [Close]
               + OrTx(filter, txs, id + 1 + |TopicArgs(filter.topics, |filter.topics|)|) + [Close]
    ensures |FilterArgs(filter, txs)| == 1 + |TopicArgs(filter.topics, |filter.topics|)| + |TxArgs(filter, txs)|
  {
    hide Joined, TopicChecks, TopicArgs, HasTopic, OrTx, TxArgs;
  }

  lemma AddressedPlaceholders(filter: ReceiptFilter, txs: seq<nat>, id: nat)
    requires filter.logAddresses != []
    ensures Placeholders(FilterTokens(filter, txs, id)) == Range(id, id + |FilterArgs(filter, txs)|)
  {
    hide *;
    var n := |TopicArgs(filter.topics, |filter.topics|)|;
    AddressedText(filter, txs, id);
    GroupPlaceholders(filter, id + 1);
    OrTxPlaceholders(filter, txs, id + 1 + n);
    HeadPlaceholders(id);
    FourParts([And, Open, Open, Test(ContractsOverlap(id))], TopicGroup(filter, id + 1), OrTx(filter, txs, id + 1 + n));
    ThreeRanges(id, 1, n, |TxArgs(filter, txs)|);
  }

  lemma HeadPlaceholders(id: nat)
    ensures Placeholders([And, Open, Open, Test(ContractsOverlap(id))]) == Range(id, id + 1)
  {
    hide Placeholders;
    var open: Tokens := [And, Open, Open];
    NoPlaceholders();
    TestPlaceholder(open, ContractsOverlap(id));
    assert open + [Test(ContractsOverlap(id))] == [And, Open, Open, Test(ContractsOverlap(id))];
    RangeOne(id);
  }

  lemma FourParts(head: Tokens, group: Tokens, tail: Tokens)
    ensures Placeholders(head + group + [Close] + tail + [Close])
            == Placeholders(head) + Placeholders(group) + Placeholders(tail)
  {
    hide Placeholders;
    NoPlaceholders();
    PlaceholdersAppend(head, group);
    PlaceholdersAppend(head + group, [Close]);
    PlaceholdersAppend(head + group + [Close], tail);
    PlaceholdersAppend(head + group + [Close] + tail, [Close]);
  }

  lemma TopicsText(filter: ReceiptFilter, txs: seq<nat>, id: nat)
    requires filter.logAddresses == [] && HasTopic(filter.topics)
    ensures FilterTokens(filter, txs, id)
            == [And, Open, Open] + Joined(TopicChecks(filter.topics, |filter.topics|, id)) + [Close]
               + OrTx(filter, txs, id + |TopicArgs(filter.topics, |filter.topics|)|) + [Close]
    ensures |FilterArgs(filter, txs)| == |TopicArgs(filter.topics, |filter.topics|)| + |TxArgs(filter, txs)|
  {
    hide Joined, TopicChecks, TopicArgs, HasTopic, OrTx, TxArgs;
  }

  lemma TopicsPlaceholders(filter: ReceiptFilter, txs: seq<nat>, id: nat)
    requires filter.logAddresses == [] && HasTopic(filter.topics)
    ensures Placeholders(FilterTokens(filter, txs, id)) == Range(id, id + |FilterArgs(filter, txs)|)
  {
    hide *;
    var n := |TopicArgs(filter.topics, |filter.topics|)|;
    TopicsText(filter, txs, id);
    NoPlaceholders();
    TopicPlaceholders(filter.topics, |filter.topics|, id);
    OrTxPlaceholders(filter, txs, id + n);
    FourParts([And, Open, Open], Joined(TopicChecks(filter.topics, |filter.topics|, id)), OrTx(filter, txs, id + n));
    RangeSplit(id, id + n, id + n + |TxArgs(filter, txs)|);
  }

  lemma TxPlaceholders(filter: ReceiptFilter, txs: seq<nat>, id: nat)
    requires filter.logAddresses == [] && !HasTopic(filter.topics)
    ensures Placeholders(FilterTokens(filter, txs, id)) == Range(id, id + |FilterArgs(filter, txs)|)
  {
    hide Placeholders, Range, TopicChecks, TopicArgs, Joined, HasTopic;
    NoPlaceholders();
    NoTopicNoArgs(filter.topics, |filter.topics|);
    PlaceholdersTwo(And, Test(TxIn(id)));
    RangeOne(id);
    RangeNone(id);
  }

  lemma RangeNone(id: nat)
    ensures Range(id, id) == []
  {
  }

  lemma HeaderPlaceholders(id: int)
    ensures Placeholders(Joined(PlaceChecks(ByHeader(id)))) == Range(1, 2)
  {
    PlaceText(ByHeader(id));
    hide *;
    var base: Tokens := [Test(TxJoin), And, Test(HeaderJoin)];
    BasePlaceholders();
    OneMore(base, [And], HeaderIdIs(1));
    assert base + [And] + [Test(HeaderIdIs(1))] == [Test(TxJoin), And, Test(HeaderJoin), And, Test(HeaderIdIs(1))];
    HeaderIdPlaceholder();
    RangeOne(1);
  }

  lemma HeaderIdPlaceholder()
    ensures Placeholder(HeaderIdIs(1)) == [1]
  {
  }

  lemma PlacePlaceholders(place: Place)
    ensures Placeholders(Joined(PlaceChecks(place))) == Range(1, |PlaceArgs(place)| + 1)
  {
    match place
    case ByHeader(id) => HeaderPlaceholders(id);
    case ByBlock(number, hash) =>
      PlaceText(place);
      hide Placeholders, Joined;
      BasePlaceholders();
      BlockPlaceholders([Test(TxJoin), And, Test(HeaderJoin)], number > 0, hash.Some?);
      RangeOne(1);
      assert Range(1, 3) == Range(1, 2) + [2];
  }

  lemma BlockPlaceholders(base: Tokens, number: bool, hash: bool)
    requires Placeholders(base) == []
    ensures Placeholders(base
                         + (if number then [And, Test(BlockNumberIs(1))] else [])
                         + if hash then [And, Test(BlockHashIs(if number then 2 else 1))] else [])
            == (if number then [1] else []) + if hash then [if number then 2 else 1] else []
  {
    hide Placeholders;
    var first := base + if number then [And, Test(BlockNumberIs(1))] else [];
    OneMore(base, [And], BlockNumberIs(1));
    assert base + [And] + [Test(BlockNumberIs(1))] == base + [And, Test(BlockNumberIs(1))];
    assert base + [] == base;
    var n := if number then 2 else 1;
    OneMore(first, [And], BlockHashIs(n));
    assert first + [And] + [Test(BlockHashIs(n))] == first + [And, Test(BlockHashIs(n))];
    assert first + [] == first;
  }

  lemma BasePlaceholders()
    ensures Placeholders([Test(TxJoin), And, Test(HeaderJoin)]) == []
  {
    PlaceholdersOne(Test(TxJoin));
    PlaceholdersTwo(Test(TxJoin), And);
    PlaceholdersThree(Test(TxJoin), And, Test(HeaderJoin));
    hide Placeholders;
  }

  /** The placeholders are $1, $2, ... in order, as many as there are arguments. */
  lemma PlaceholdersCount(place: Place, filter: ReceiptFilter, txs: seq<nat>)
    ensures Placeholders(QueryText(place, filter, txs)) == Range(1, |QueryArgs(place, filter, txs)| + 1)
  {
    hide Placeholders, Joined, FilterTokens, FilterArgs, PlaceChecks, PlaceArgs, Range, HasTopic;
    var id := |PlaceArgs(place)| + 1;
    PlacePlaceholders(place);
    if filter.logAddresses != [] {
      AddressedPlaceholders(filter, txs, id);
    } else if HasTopic(filter.topics) {
      TopicsPlaceholders(filter, txs, id);
    } else {
      TxPlaceholders(filter, txs, id);
    }
    PlaceholdersAppend(Joined(PlaceChecks(place)), FilterTokens(filter, txs, id));
    RangeSplit(1, id, id + |FilterArgs(filter, txs)|);
  }

  // ---- meaning ----

  function Listed(column: Option<seq<string>>): seq<string> {
    if column.Some? then column.value else []
  }

  /** The receipt's topics as the live filter sees them: NULL is no topics. */
  function ActualTopics(row: Row): seq<seq<string>>
    requires |row.topics| == 4
  {
    [Listed(row.topics[0]), Listed(row.topics[1]), Listed(row.topics[2]), Listed(row.topics[3])]
  }

  lemma OverlapShares(column: Option<seq<string>>, wanted: seq<string>)
    ensures Overlap(column, StringsArg(wanted)) == True <==> Share(Listed(column), wanted)
  {
    var both := Elements(Listed(column)) * Elements(wanted);
    if s :| s in Listed(column) && s in wanted {
      assert s in both;
    }
    if s :| s in both {
      assert s in Listed(column) && s in wanted;
    }
  }

  /** Placeholders from id on are bound to these arguments. */
  ghost predicate BoundFrom(args: seq<Arg>, id: nat, xs: seq<Arg>) {
    forall j :: 0 <= j < |xs| ==> Bound(args, id + j) == xs[j]
  }

  lemma BoundPart(before: seq<Arg>, xs: seq<Arg>, after: seq<Arg>)
    ensures BoundFrom(before + xs + after, |before| + 1, xs)
  {
  }

  /** Each slot below k with wanted topics has one of them. */
  ghost predicate SlotsMatch(topics: seq<seq<string>>, actual: seq<seq<string>>, k: nat)
    requires |actual| == 4
  {
    forall i :: 0 <= i < k && i < 4 ==> SlotMatches(topics, actual, i)
  }

  lemma {:induction false} TopicsAnswered(row: Row, args: seq<Arg>, topics: seq<seq<string>>, k: nat, id: nat)
    requires |row.topics| == 4 && k <= |topics| && BoundFrom(args, id, TopicArgs(topics, k))
    ensures AllTrue(row, args, TopicChecks(topics, k, id)) <==> SlotsMatch(topics, ActualTopics(row), k)
  {
    if k > 0 {
      hide *;
      BoundBefore(args, topics, k, id);
      TopicsAnswered(row, args, topics, k - 1, id);
      TopicAnswered(row, args, topics, k, id);
    }
  }

  lemma TopicChecksStep(topics: seq<seq<string>>, k: nat, id: nat)
    requires 0 < k <= |topics|
    ensures var before := TopicChecks(topics, k - 1, id);
            TopicChecks(topics, k, id)
            == if k - 1 < 4 && topics[k - 1] != [] then before + [TopicsOverlap(k - 1, id + |before|)] else before
  {
  }

  lemma TopicAnswered(row: Row, args: seq<Arg>, topics: seq<seq<string>>, k: nat, id: nat)
    requires |row.topics| == 4 && 0 < k <= |topics| && BoundFrom(args, id, TopicArgs(topics, k))
    requires |ActualTopics(row)| == 4
    requires AllTrue(row, args, TopicChecks(topics, k - 1, id)) <==> SlotsMatch(topics, ActualTopics(row), k - 1)
    ensures AllTrue(row, args, TopicChecks(topics, k, id)) <==> SlotsMatch(topics, ActualTopics(row), k)
  {
    hide *;
    TopicChecksStep(topics, k, id);
    SlotsSnoc(topics, ActualTopics(row), k);
    if k - 1 < 4 {
      if topics[k - 1] != [] {
        SlotAnswered(row, args, topics, k, id);
        var before := TopicChecks(topics, k - 1, id);
        AllSnoc(row, args, before, TopicsOverlap(k - 1, id + |before|));
      } else {
        NoWish(topics, ActualTopics(row), k - 1);
      }
    }
  }

  lemma NoWish(topics: seq<seq<string>>, actual: seq<seq<string>>, i: nat)
    requires i < |actual| && i < |topics| && topics[i] == []
    ensures SlotMatches(topics, actual, i)
  {
  }

  lemma SlotAnswered(row: Row, args: seq<Arg>, topics: seq<seq<string>>, k: nat, id: nat)
    requires |row.topics| == 4 && 0 < k <= |topics| && k <= 4 && topics[k - 1] != []
    requires BoundFrom(args, id, TopicArgs(topics, k))
    ensures Outcome(row, args, TopicsOverlap(k - 1, id + |TopicChecks(topics, k - 1, id)|)) == True
            <==> SlotMatches(topics, ActualTopics(row), k - 1)
  {
    hide Share, Bound, Overlap;
    AsManyArgs(topics, k - 1, id);
    var n := |TopicArgs(topics, k - 1)|;
    assert TopicArgs(topics, k)[n] == StringsArg(topics[k - 1]);
    assert Bound(args, id + n) == StringsArg(topics[k - 1]);
    OverlapShares(row.topics[k - 1], topics[k - 1]);
  }

  /** Every test is true, not just not false. */
  ghost predicate AllTrue(row: Row, args: seq<Arg>, checks: seq<Check>) {
    forall j :: 0 <= j < |checks| ==> Outcome(row, args, checks[j]) == True
  }

  lemma AllSnoc(row: Row, args: seq<Arg>, before: seq<Check>, c: Check)
    ensures AllTrue(row, args, before + [c]) <==> AllTrue(row, args, before) && Outcome(row, args, c) == True
  {
    hide Outcome;
    var all := before + [c];
    assert all[|before|] == c;
    assert forall j :: 0 <= j < |before| ==> all[j] == before[j];
  }

  lemma SlotsSnoc(topics: seq<seq<string>>, actual: seq<seq<string>>, k: nat)
    requires |actual| == 4 && k > 0
    ensures SlotsMatch(topics, actual, k)
            <==> SlotsMatch(topics, actual, k - 1) && (k - 1 < 4 ==> SlotMatches(topics, actual, k - 1))
  {
    hide SlotMatches;
  }

  lemma BoundBefore(args: seq<Arg>, topics: seq<seq<string>>, k: nat, id: nat)
    requires 0 < k <= |topics| && BoundFrom(args, id, TopicArgs(topics, k))
    ensures BoundFrom(args, id, TopicArgs(topics, k - 1))
  {
    hide Bound;
    var xs, ys := TopicArgs(topics, k - 1), TopicArgs(topics, k);
    assert xs <= ys;
  }

  lemma SlotsAll(topics: seq<seq<string>>, actual: seq<seq<string>>)
    requires |actual| == 4
    ensures SlotsMatch(topics, actual, |topics|) <==> TopicsMatch(topics, actual)
  {
    hide Share;
    forall i | |topics| <= i < 4 ensures SlotMatches(topics, actual, i) {
    }
    hide SlotMatches;
  }

  /** What the filter asks of a receipt's own columns. */
  ghost predicate ReceiptMatches(filter: ReceiptFilter, row: Row)
    requires |row.topics| == 4
  {
    && TopicsMatch(filter.topics, ActualTopics(row))
    && (filter.logAddresses == [] || Share(filter.logAddresses, Listed(row.contracts)))
  }

  /** The filter's arguments are where the placeholders from id on expect them. */
  ghost predicate FilterBound(args: seq<Arg>, id: nat, filter: ReceiptFilter, txs: seq<nat>) {
    && BoundFrom(args, id, ContractArgs(filter))
    && BoundFrom(args, id + |ContractArgs(filter)|, TopicArgs(filter.topics, |filter.topics|))
    && BoundFrom(args, TxPlaceholder(filter, id), TxArgs(filter, txs))
  }

  lemma ArgsBound(place: Place, filter: ReceiptFilter, txs: seq<nat>)
    ensures FilterBound(QueryArgs(place, filter, txs), |PlaceArgs(place)| + 1, filter, txs)
  {
    hide TopicArgs, PlaceArgs, BoundFrom, ContractArgs, TxArgs;
    var p, c := PlaceArgs(place), ContractArgs(filter);
    var t, x := TopicArgs(filter.topics, |filter.topics|), TxArgs(filter, txs);
    var args := QueryArgs(place, filter, txs);
    assert args == p + c + (t + x) && args == (p + c) + t + x && args == (p + c + t) + x + [];
    BoundPart(p, c, t + x);
    BoundPart(p + c, t, x);
    BoundPart(p + c + t, x, []);
  }

  lemma ContractAnswered(row: Row, args: seq<Arg>, filter: ReceiptFilter, id: nat)
    requires filter.logAddresses != [] && BoundFrom(args, id, ContractArgs(filter))
    ensures Outcome(row, args, ContractsOverlap(id)) == True <==> Share(filter.logAddresses, Listed(row.contracts))
  {
    assert ContractArgs(filter)[0] == StringsArg(filter.logAddresses);
    assert Bound(args, id + 0) == StringsArg(filter.logAddresses);
    OverlapShares(row.contracts, filter.logAddresses);
    ShareSymmetric(filter.logAddresses, Listed(row.contracts));
  }

  lemma ShareSymmetric(a: seq<string>, b: seq<string>)
    ensures Share(a, b) <==> Share(b, a)
  {
  }

  lemma MatchingMeans(row: Row, args: seq<Arg>, filter: ReceiptFilter, txs: seq<nat>, id: nat)
    requires |row.topics| == 4 && FilterBound(args, id, filter, txs)
    requires filter.logAddresses != [] || AllTopicChecks(filter, id) != []
    ensures EvalConj(Matching(filter, id), Answered(row, args)) == True <==> ReceiptMatches(filter, row)
  {
    var f, topics := Answered(row, args), AllTopicChecks(filter, id);
    hide Outcome, Share, TopicsMatch, ActualTopics, TopicChecks, TopicArgs, AllTrue, BoundFrom, AllOf, EvalConj;
    TopicsMean(row, args, filter, id);
    if filter.logAddresses != [] {
      ContractAnswered(row, args, filter, id);
    }
    if topics == [] {
      EvalOne(ContractsOverlap(id), f);
      NothingToTest(row, args);
    } else {
      EvalTopics(row, args, topics);
      EvalBoth(ContractsOverlap(id), AllOf(topics), f);
    }
  }

  lemma TopicsMean(row: Row, args: seq<Arg>, filter: ReceiptFilter, id: nat)
    requires |row.topics| == 4
    requires BoundFrom(args, id + |ContractArgs(filter)|, TopicArgs(filter.topics, |filter.topics|))
    ensures AllTrue(row, args, AllTopicChecks(filter, id)) <==> TopicsMatch(filter.topics, ActualTopics(row))
  {
    hide AllTrue, TopicsMatch, SlotsMatch, TopicChecks, TopicArgs, BoundFrom;
    TopicsAnswered(row, args, filter.topics, |filter.topics|, id + |ContractArgs(filter)|);
    SlotsAll(filter.topics, ActualTopics(row));
  }

  lemma EvalTopics(row: Row, args: seq<Arg>, checks: seq<Check>)
    requires checks != []
    ensures EvalConj(AllOf(checks), Answered(row, args)) == True <==> AllTrue(row, args, checks)
  {
    hide Outcome, AllOf, EvalConj;
    EvalAll(checks, Answered(row, args));
  }

  lemma NothingToTest(row: Row, args: seq<Arg>)
    ensures AllTrue(row, args, [])
  {
  }

  lemma EvalOne(c: Check, f: Check -> Truth)
    ensures EvalConj(One(Atom(c)), f) == f(c)
  {
  }

  lemma EvalInner(c: Conj<Check>, f: Check -> Truth)
    ensures EvalConj(One(Paren(Just(c))), f) == EvalConj(c, f)
    ensures EvalPrim(Paren(Just(One(Paren(Just(c))))), f) == EvalConj(c, f)
  {
    assert EvalPrim(Paren(Just(c)), f) == EvalDisj(Just(c), f) == EvalConj(c, f);
    var o := One(Paren(Just(c)));
    assert EvalConj(o, f) == EvalPrim(Paren(Just(c)), f);
    assert EvalPrim(Paren(Just(o)), f) == EvalDisj(Just(o), f) == EvalConj(o, f);
  }

  lemma EvalBoth(c: Check, more: Conj<Check>, f: Check -> Truth)
    ensures EvalConj(AndThen(Atom(c), One(Paren(Just(more)))), f) == True <==> f(c) == True && EvalConj(more, f) == True
  {
    EvalInner(more, f);
    assert EvalPrim(Atom(c), f) == f(c);
  }

  lemma EvalOr(c: Conj<Check>, t: Check, f: Check -> Truth)
    ensures EvalPrim(Paren(Just(One(Paren(Just(c))))), f) == EvalConj(c, f)
    ensures EvalPrim(Paren(OrElse(One(Paren(Just(c))), Just(One(Atom(t))))), f) == True
            <==> EvalConj(c, f) == True || f(t) == True
  {
    EvalInner(c, f);
    var l, r := One(Paren(Just(c))), Just(One(Atom(t)));
    assert EvalDisj(r, f) == EvalConj(One(Atom(t)), f) by { EvalOne(t, f); }
    EvalOne(t, f);
    assert EvalDisj(OrElse(l, r), f) == Either(EvalConj(l, f), EvalDisj(r, f));
    assert EvalPrim(Paren(OrElse(l, r)), f) == EvalDisj(OrElse(l, r), f);
  }

  lemma TxAnswered(row: Row, args: seq<Arg>, filter: ReceiptFilter, txs: seq<nat>, id: nat)
    requires ByTx(filter, txs) && BoundFrom(args, id, TxArgs(filter, txs))
    ensures Outcome(row, args, TxIn(id)) == True <==> row.txId in txs
  {
    assert TxArgs(filter, txs)[0] == TxsArg(txs);
    assert Bound(args, id + 0) == TxsArg(txs);
  }

  /** What the query asks: transactions are an alternative to the other wishes, or, without any, the only wish. */
  ghost predicate Wanted(filter: ReceiptFilter, txs: seq<nat>, row: Row)
    requires |row.topics| == 4
  {
    if filter.logAddresses == [] && !HasTopic(filter.topics) then ByTx(filter, txs) ==> row.txId in txs
    else ReceiptMatches(filter, row) || (ByTx(filter, txs) && row.txId in txs)
  }

  lemma ConditionMeans(row: Row, args: seq<Arg>, filter: ReceiptFilter, txs: seq<nat>, id: nat)
    requires |row.topics| == 4 && FilterBound(args, id, filter, txs) && !OnlyLateTopics(filter)
    ensures match Condition(filter, txs, id)
            case Some(p) => EvalPrim(p, Answered(row, args)) == True <==> Wanted(filter, txs, row)
            case None => Wanted(filter, txs, row)
  {
    SomeChecks(filter, id);
    var f, n := Answered(row, args), TxPlaceholder(filter, id);
    if ByTx(filter, txs) {
      TxAnswered(row, args, filter, txs, n);
    }
    EarlyIsTopic(filter.topics);
    hide Outcome, HasTopic, HasEarlyTopic, AllTopicChecks, ReceiptMatches, TxPlaceholder;
    if filter.logAddresses != [] || AllTopicChecks(filter, id) != [] {
      MatchingMeans(row, args, filter, txs, id);
      EvalOr(Matching(filter, id), TxIn(n), f);
      hide EvalPrim, EvalConj, FilterBound, Matching;
    } else {
      hide FilterBound;
    }
  }

  lemma EarlyIsTopic(topics: seq<seq<string>>)
    ensures HasEarlyTopic(topics) ==> HasTopic(topics)
  {
  }

  ghost predicate Placed(place: Place, row: Row) {
    && row.txId == row.transactionId && row.transactionHeader == row.headerId
    && match place
       case ByHeader(id) => row.headerId == id
       case ByBlock(number, hash) => (number > 0 ==> row.number == number) && (hash.Some? ==> row.hash == hash.value)
  }

  lemma PlaceMeans(place: Place, filter: ReceiptFilter, txs: seq<nat>, row: Row)
    ensures AllTrue(row, QueryArgs(place, filter, txs), PlaceChecks(place)) <==> Placed(place, row)
  {
    hide FilterArgs;
    var args, checks := QueryArgs(place, filter, txs), PlaceChecks(place);
    BoundPart([], PlaceArgs(place), FilterArgs(filter, txs));
    assert [] + PlaceArgs(place) + FilterArgs(filter, txs) == args;
    assert forall j :: 0 <= j < |PlaceArgs(place)| ==> Bound(args, 1 + j) == PlaceArgs(place)[j];
    assert |PlaceArgs(place)| > 0 ==> Bound(args, 1 + 0) == PlaceArgs(place)[0];
    assert |PlaceArgs(place)| > 1 ==> Bound(args, 1 + 1) == PlaceArgs(place)[1];
    hide Bound, QueryArgs;
    assert checks[0] == TxJoin && checks[1] == HeaderJoin;
    assert AllTrue(row, args, checks) ==>
        && Outcome(row, args, checks[0]) == True && Outcome(row, args, checks[1]) == True
        && (|checks| > 2 ==> Outcome(row, args, checks[2]) == True)
        && (|checks| > 3 ==> Outcome(row, args, checks[3]) == True);
  }

  /** The rows the query selects, unless all wanted topics are beyond the fourth slot. */
  lemma QueryMeans(place: Place, filter: ReceiptFilter, txs: seq<nat>, row: Row)
    requires |row.topics| == 4 && !OnlyLateTopics(filter)
    ensures Keeps(QueryText(place, filter, txs), Answered(row, QueryArgs(place, filter, txs)))
            <==> Placed(place, row) && Wanted(filter, txs, row)
  {
    var args, id, checks := QueryArgs(place, filter, txs), |PlaceArgs(place)| + 1, PlaceChecks(place);
    var f := Answered(row, args);
    assert checks != [];
    hide OnlyLateTopics, QueryText, QueryArgs, Condition, PlaceChecks, PlaceArgs, Placed, Wanted, Outcome, Parse;
    QueryParsed(place, filter, txs);
    ArgsBound(place, filter, txs);
    ConditionMeans(row, args, filter, txs, id);
    PlaceMeans(place, filter, txs, row);
    match Condition(filter, txs, id)
    case Some(p) => EvalEnding(checks, p, f);
    case None => EvalAll(checks, f);
  }

  /** What the live filter does with the receipt of a row, the hashes it is given being those of txs. */
  ghost predicate KeptLive(filter: ReceiptFilter, txs: seq<nat>, row: Row)
    requires |row.topics| == 4
  {
    Kept(filter.topics, ActualTopics(row), filter.logAddresses, Listed(row.contracts),
         if filter.matchTxs then txs else [], row.txId)
  }

  /** Query and live filter agree on every receipt of the place, except exactly on receipts of other transactions when
      nothing but transactions is asked for: those the live filter keeps and the query drops. */
  lemma AgreeIff(place: Place, filter: ReceiptFilter, txs: seq<nat>, row: Row)
    requires |row.topics| == 4 && !OnlyLateTopics(filter) && Placed(place, row)
    ensures (Keeps(QueryText(place, filter, txs), Answered(row, QueryArgs(place, filter, txs)))
             <==> KeptLive(filter, txs, row))
            <==> !(filter.logAddresses == [] && !HasTopic(filter.topics) && ByTx(filter, txs) && row.txId !in txs)
  {
    QueryMeans(place, filter, txs, row);
    if !HasTopic(filter.topics) {
      NoTopicMatches(filter.topics, ActualTopics(row));
    }
    hide Keeps, QueryText, QueryArgs, Answered, TopicsMatch, HasTopic, Placed, Share, ActualTopics;
  }

  lemma NoTopicMatches(topics: seq<seq<string>>, actual: seq<seq<string>>)
    requires !HasTopic(topics)
    ensures TopicsMatch(topics, actual)
  {
  }
}
