/** Receipt filtering, done twice: live on a converted block (pkg/super_node/eth/filterer.go) and by a SQL query put
    together piece by piece (pkg/super_node/eth/cid_retriever.go). */
module ReceiptQuery {
  import opened Seqs
  import opened SqlCondition

  datatype ReceiptFilter = ReceiptFilter(matchTxs: bool, logAddresses: seq<string>, topics: seq<seq<string>>)

  // ---- the live filter ----

  predicate Share(a: seq<string>, b: seq<string>) {
    exists s :: s in a && s in b
  }

  method SlicesShareString(slice1: seq<string>, slice2: seq<string>) returns (r: nat)
    ensures r == if Share(slice1, slice2) then 1 else 0
  {
    for i := 0 to |slice1|
      invariant forall k :: 0 <= k < i ==> slice1[k] !in slice2
    {
      for j := 0 to |slice2|
        invariant forall k :: 0 <= k < j ==> slice2[k] != slice1[i]
      {
        if slice1[i] == slice2[j] {
          assert slice1[i] in slice1 && slice1[i] in slice2;
          return 1;
        }
      }
    }
    return 0;
  }

  /** A slot with wanted topics needs one of them. */
  predicate SlotMatches(wanted: seq<seq<string>>, actual: seq<seq<string>>, i: nat)
    requires i < |actual|
  {
    i < |wanted| && wanted[i] != [] ==> Share(actual[i], wanted[i])
  }

  predicate TopicsMatch(wanted: seq<seq<string>>, actual: seq<seq<string>>) {
    forall i :: 0 <= i < |actual| ==> SlotMatches(wanted, actual, i)
  }

  method FilterMatch(wanted: seq<seq<string>>, actual: seq<seq<string>>) returns (r: bool)
    requires |actual| == 4
    ensures r == TopicsMatch(wanted, actual)
  {
    var matches := 0;
    for i := 0 to |actual|
      invariant 0 <= matches <= i
      invariant matches == i <==> forall k :: 0 <= k < i ==> SlotMatches(wanted, actual, k)
    {
      hide Share;
      if i < |wanted| && |wanted[i]| > 0 {
        var n := SlicesShareString(actual[i], wanted[i]);
        assert SlotMatches(wanted, actual, i) <==> n == 1;
        matches := matches + n;
      } else {
        assert SlotMatches(wanted, actual, i);
        matches := matches + 1;
      }
    }
    return matches == 4;
  }

  /** What the live filter keeps: receipts of wanted transactions, and those whose topics match and that have a log of
      a wanted contract, if any contract is wanted. */
  predicate Kept(wantedTopics: seq<seq<string>>, topics: seq<seq<string>>, wantedAddresses: seq<string>,
                 contracts: seq<string>, wantedTxs: seq<nat>, tx: nat) {
    || tx in wantedTxs
    || (TopicsMatch(wantedTopics, topics) && (wantedAddresses == [] || Share(wantedAddresses, contracts)))
  }

  lemma NothingWanted(actual: seq<seq<string>>)
    ensures TopicsMatch([], actual)
  {
  }

  method CheckReceipts(tx: nat, wantedTopics: seq<seq<string>>, topics: seq<seq<string>>, wantedAddresses: seq<string>,
                       contracts: seq<string>, wantedTxs: seq<nat>) returns (keep: bool)
    requires |topics| == 4
    ensures keep == Kept(wantedTopics, topics, wantedAddresses, contracts, wantedTxs, tx)
  {
    if |wantedTopics| == 0 && |wantedAddresses| == 0 && |wantedTxs| == 0 {
      NothingWanted(topics);
      return true;
    }
    hide TopicsMatch;
    for i := 0 to |wantedTxs|
      invariant forall k :: 0 <= k < i ==> wantedTxs[k] != tx
    {
      if wantedTxs[i] == tx {
        return true;
      }
    }
    if |wantedAddresses| == 0 {
      var match0 := FilterMatch(wantedTopics, topics);
      if match0 {
        return true;
      }
    }
    for i := 0 to |wantedAddresses|
      invariant forall k :: 0 <= k < i ==> wantedAddresses[k] !in contracts || !TopicsMatch(wantedTopics, topics)
    {
      for j := 0 to |contracts|
        invariant (forall k :: 0 <= k < j ==> contracts[k] != wantedAddresses[i]) || !TopicsMatch(wantedTopics, topics)
      {
        if wantedAddresses[i] == contracts[j] {
          var match1 := FilterMatch(wantedTopics, topics);
          if match1 {
            assert wantedAddresses[i] in wantedAddresses && wantedAddresses[i] in contracts;
            return true;
          }
        }
      }
    }
    return false;
  }

  // ---- the query ----

  /** The tests that occur in the query; n numbers a placeholder. */
  datatype Check =
    | TxJoin | HeaderJoin
    | HeaderIdIs(n: nat) | BlockNumberIs(n: nat) | BlockHashIs(n: nat)
    | ContractsOverlap(n: nat) | TopicsOverlap(slot: nat, n: nat) | TxIn(n: nat)

  datatype Arg = IntArg(i: int) | StringArg(s: string) | StringsArg(ss: seq<string>) | TxsArg(ids: seq<nat>)

  /** A row of the three tables; an array column may be NULL. */
  datatype Row = Row(txId: nat, transactionId: nat, transactionHeader: int, headerId: int, number: int, hash: string,
                     contracts: Option<seq<string>>, topics: seq<Option<seq<string>>>)

  function Truly(b: bool): Truth {
    if b then True else False
  }

  function Elements(ss: seq<string>): set<string> {
    set s | s in ss
  }

  /** SQL's && on arrays: they have an element in common. */
  function Overlap(column: Option<seq<string>>, arg: Arg): Truth {
    if column.None? || !arg.StringsArg? then Unknown else Truly(Elements(column.value) * Elements(arg.ss) != {})
  }

  function Bound(args: seq<Arg>, n: nat): Arg {
    if 1 <= n <= |args| then args[n - 1] else IntArg(0)
  }

  function Outcome(row: Row, args: seq<Arg>, c: Check): Truth {
    match c
    case TxJoin => Truly(row.txId == row.transactionId)
    case HeaderJoin => Truly(row.transactionHeader == row.headerId)
    case HeaderIdIs(n) => Truly(Bound(args, n) == IntArg(row.headerId))
    case BlockNumberIs(n) => Truly(Bound(args, n) == IntArg(row.number))
    case BlockHashIs(n) => Truly(Bound(args, n) == StringArg(row.hash))
    case ContractsOverlap(n) => Overlap(row.contracts, Bound(args, n))
    case TopicsOverlap(slot, n) => if slot < |row.topics| then Overlap(row.topics[slot], Bound(args, n)) else Unknown
    case TxIn(n) => Truly(Bound(args, n).TxsArg? && row.txId in Bound(args, n).ids)
  }

  function Answered(row: Row, args: seq<Arg>): Check -> Truth {
    (c: Check) => Outcome(row, args, c)
  }

  type Tokens = seq<Token<Check>>

  predicate HasTopic(topics: seq<seq<string>>) {
    exists i :: 0 <= i < |topics| && topics[i] != []
  }

  method HasTopics(topics: seq<seq<string>>) returns (r: bool)
    ensures r == HasTopic(topics)
  {
    for i := 0 to |topics|
      invariant forall k :: 0 <= k < i ==> topics[k] == []
    {
      if |topics[i]| > 0 {
        return true;
      }
    }
    return false;
  }

  /** The tests for the first k topic slots, placeholders from id on, and what they are bound to. */
  function TopicChecks(topics: seq<seq<string>>, k: nat, id: nat): seq<Check>
    requires k <= |topics|
  {
    if k == 0 then []
    else
      var before := TopicChecks(topics, k - 1, id);
      if k - 1 < 4 && topics[k - 1] != [] then before + [TopicsOverlap(k - 1, id + |before|)] else before
  }

  function TopicArgs(topics: seq<seq<string>>, k: nat): seq<Arg>
    requires k <= |topics|
  {
    if k == 0 then []
    else
      var before := TopicArgs(topics, k - 1);
      if k - 1 < 4 && topics[k - 1] != [] then before + [StringsArg(topics[k - 1])] else before
  }

  lemma {:induction false} AsManyArgs(topics: seq<seq<string>>, k: nat, id: nat)
    requires k <= |topics|
    ensures |TopicChecks(topics, k, id)| == |TopicArgs(topics, k)|
  {
    if k > 0 {
      AsManyArgs(topics, k - 1, id);
    }
  }

  lemma JoinedSnoc(checks: seq<Check>, c: Check)
    ensures Joined(checks + [c]) == Joined(checks) + (if checks == [] then [] else [And]) + [Test(c)]
  {
    if checks != [] {
      assert (checks + [c])[..|checks|] == checks;
      assert Joined(checks) + [And, Test(c)] == Joined(checks) + [And] + [Test(c)];
    } else {
      assert [] + [c] == [c];
    }
  }

  /** The loop over the topic slots. */
  method AppendTopics(topics: seq<seq<string>>, pg: Tokens, args: seq<Arg>, id: nat)
      returns (pgStr: Tokens, newArgs: seq<Arg>, next: nat)
    ensures pgStr == pg + Joined(TopicChecks(topics, |topics|, id))
    ensures newArgs == args + TopicArgs(topics, |topics|)
    ensures next == id + |TopicArgs(topics, |topics|)|
  {
    pgStr, newArgs, next := pg, args, id;
    var first := true;
    hide Joined;
    assert Joined<Check>([]) == [] by { JoinedNone(); }
    for i := 0 to |topics|
      invariant pgStr == pg + Joined(TopicChecks(topics, i, id))
      invariant newArgs == args + TopicArgs(topics, i)
      invariant next == id + |TopicChecks(topics, i, id)| == id + |TopicArgs(topics, i)|
      invariant first <==> TopicChecks(topics, i, id) == []
    {
      if i < 4 && |topics[i]| > 0 {
        JoinedSnoc(TopicChecks(topics, i, id), TopicsOverlap(i, next));
        if first {
          pgStr := pgStr + [Test(TopicsOverlap(i, next))];
          first := false;
        } else {
          pgStr := pgStr + [And, Test(TopicsOverlap(i, next))];
        }
        newArgs := newArgs + [StringsArg(topics[i])];
        next := next + 1;
      }
    }
  }

  lemma JoinedNone()
    ensures Joined<Check>([]) == []
  {
  }

  predicate ByTx(filter: ReceiptFilter, txs: seq<nat>) {
    filter.matchTxs && txs != []
  }

  function ContractArgs(filter: ReceiptFilter): seq<Arg> {
    if filter.logAddresses != [] then [StringsArg(filter.logAddresses)] else []
  }

  function TxArgs(filter: ReceiptFilter, txs: seq<nat>): seq<Arg> {
    if ByTx(filter, txs) then [TxsArg(txs)] else []
  }

  function FilterArgs(filter: ReceiptFilter, txs: seq<nat>): seq<Arg> {
    ContractArgs(filter) + TopicArgs(filter.topics, |filter.topics|) + TxArgs(filter, txs)
  }

  function OrTx(filter: ReceiptFilter, txs: seq<nat>, id: nat): Tokens {
    if ByTx(filter, txs) then [Or, Test(TxIn(id))] else []
  }

  /** The text after the conditions that place the receipt, with placeholders from id on. */
  function FilterTokens(filter: ReceiptFilter, txs: seq<nat>, id: nat): Tokens {
    var first := id + |ContractArgs(filter)|;
    var topics := Joined(TopicChecks(filter.topics, |filter.topics|, first));
    var next := first + |TopicArgs(filter.topics, |filter.topics|)|;
    if filter.logAddresses != [] then
      [And, Open, Open, Test(ContractsOverlap(id))]
      + (if HasTopic(filter.topics) then [And, Open] + topics + [Close] else [])
      + [Close] + OrTx(filter, txs, next) + [Close]
    else if HasTopic(filter.topics) then
      [And, Open, Open] + topics + [Close] + OrTx(filter, txs, next) + [Close]
    else if ByTx(filter, txs) then [And, Test(TxIn(next))] else []
  }

  lemma {:induction false} NoTopicNoArgs(topics: seq<seq<string>>, k: nat)
    requires k <= |topics| && !HasTopic(topics)
    ensures TopicArgs(topics, k) == []
  {
    if k > 0 {
      NoTopicNoArgs(topics, k - 1);
    }
  }

  method AppendWithAddresses(filter: ReceiptFilter, txs: seq<nat>, pg: Tokens, args: seq<Arg>, id: nat)
      returns (pgStr: Tokens, newArgs: seq<Arg>)
    requires filter.logAddresses != []
    ensures pgStr == pg + FilterTokens(filter, txs, id)
    ensures newArgs == args + FilterArgs(filter, txs)
  {
    hide Joined, TopicChecks, TopicArgs, HasTopic;
    pgStr := pg + [And, Open, Open, Test(ContractsOverlap(id))];
    newArgs := args + [StringsArg(filter.logAddresses)];
    var next := id + 1;
    var topics := HasTopics(filter.topics);
    if topics {
      pgStr := pgStr + [And, Open];
      pgStr, newArgs, next := AppendTopics(filter.topics, pgStr, newArgs, next);
      pgStr := pgStr + [Close];
    } else {
      NoTopicNoArgs(filter.topics, |filter.topics|);
    }
    pgStr := pgStr + [Close];
    if filter.matchTxs && |txs| > 0 {
      pgStr := pgStr + [Or, Test(TxIn(next))];
      newArgs := newArgs + [TxsArg(txs)];
    }
    pgStr := pgStr + [Close];
  }

  method AppendWithoutAddresses(filter: ReceiptFilter, txs: seq<nat>, pg: Tokens, args: seq<Arg>, id: nat)
      returns (pgStr: Tokens, newArgs: seq<Arg>)
    requires filter.logAddresses == []
    ensures pgStr == pg + FilterTokens(filter, txs, id)
    ensures newArgs == args + FilterArgs(filter, txs)
  {
    hide Joined, TopicChecks, TopicArgs, HasTopic;
    pgStr, newArgs := pg, args;
    var next := id;
    var topics := HasTopics(filter.topics);
    if topics {
      pgStr := pgStr + [And, Open, Open];
      pgStr, newArgs, next := AppendTopics(filter.topics, pgStr, newArgs, next);
      pgStr := pgStr + [Close];
      if filter.matchTxs && |txs| > 0 {
        pgStr := pgStr + [Or, Test(TxIn(next))];
        newArgs := newArgs + [TxsArg(txs)];
      }
      pgStr := pgStr + [Close];
    } else {
      NoTopicNoArgs(filter.topics, |filter.topics|);
      if filter.matchTxs && |txs| > 0 {
        pgStr := pgStr + [And, Test(TxIn(next))];
        newArgs := newArgs + [TxsArg(txs)];
      }
    }
  }

  /** The part both queries share. */
  method AppendFilter(filter: ReceiptFilter, txs: seq<nat>, pg: Tokens, args: seq<Arg>, id: nat)
      returns (pgStr: Tokens, newArgs: seq<Arg>)
    ensures pgStr == pg + FilterTokens(filter, txs, id)
    ensures newArgs == args + FilterArgs(filter, txs)
  {
    hide FilterTokens, FilterArgs;
    if |filter.logAddresses| > 0 {
      pgStr, newArgs := AppendWithAddresses(filter, txs, pg, args, id);
    } else {
      pgStr, newArgs := AppendWithoutAddresses(filter, txs, pg, args, id);
    }
  }

  /** Which receipts a query is about: those under a header, or at a block number or block hash. */
  datatype Place = ByHeader(id: int) | ByBlock(number: int, hash: Option<string>)

  function PlaceArgs(place: Place): seq<Arg> {
    match place
    case ByHeader(id) => [IntArg(id)]
    case ByBlock(number, hash) =>
      (if number > 0 then [IntArg(number)] else []) + if hash.Some? then [StringArg(hash.value)] else []
  }

  function PlaceChecks(place: Place): seq<Check> {
    match place
    case ByHeader(id) => [TxJoin, HeaderJoin, HeaderIdIs(1)]
    case ByBlock(number, hash) =>
      [TxJoin, HeaderJoin]
      + (if number > 0 then [BlockNumberIs(1)] else [])
      + if hash.Some? then [BlockHashIs(if number > 0 then 2 else 1)] else []
  }

  function QueryText(place: Place, filter: ReceiptFilter, txs: seq<nat>): Tokens {
    Joined(PlaceChecks(place)) + FilterTokens(filter, txs, |PlaceArgs(place)| + 1)
  }

  function QueryArgs(place: Place, filter: ReceiptFilter, txs: seq<nat>): seq<Arg> {
    PlaceArgs(place) + FilterArgs(filter, txs)
  }

  method RetrieveRctCIDsByHeaderID(filter: ReceiptFilter, headerID: int, txs: seq<nat>)
      returns (pgStr: Tokens, args: seq<Arg>)
    ensures pgStr == QueryText(ByHeader(headerID), filter, txs)
    ensures args == QueryArgs(ByHeader(headerID), filter, txs)
  {
    pgStr := [Test(TxJoin), And, Test(HeaderJoin), And, Test(HeaderIdIs(1))];
    PlaceText(ByHeader(headerID));
    var id := 2;
    args := [IntArg(headerID)];
    hide Joined, FilterTokens, FilterArgs;
    pgStr, args := AppendFilter(filter, txs, pgStr, args, id);
  }

  method RetrieveRctCIDs(filter: ReceiptFilter, blockNumber: int, blockHash: Option<string>, txs: seq<nat>)
      returns (pgStr: Tokens, args: seq<Arg>)
    ensures pgStr == QueryText(ByBlock(blockNumber, blockHash), filter, txs)
    ensures args == QueryArgs(ByBlock(blockNumber, blockHash), filter, txs)
  {
    pgStr, args := [Test(TxJoin), And, Test(HeaderJoin)], [];
    PlaceText(ByBlock(blockNumber, blockHash));
    var id := 1;
    hide Joined, FilterTokens, FilterArgs;
    if blockNumber > 0 {
      pgStr := pgStr + [And, Test(BlockNumberIs(id))];
      args := args + [IntArg(blockNumber)];
      id := id + 1;
    }
    if blockHash.Some? {
      pgStr := pgStr + [And, Test(BlockHashIs(id))];
      args := args + [StringArg(blockHash.value)];
      id := id + 1;
    }
    assert pgStr == Joined(PlaceChecks(ByBlock(blockNumber, blockHash)));
    assert args == PlaceArgs(ByBlock(blockNumber, blockHash)) && id == |args| + 1;
    pgStr, args := AppendFilter(filter, txs, pgStr, args, id);
  }

  lemma JoinedOptional(checks: seq<Check>, present: bool, c: Check)
    requires checks != []
    ensures Joined(checks + if present then [c] else []) == Joined(checks) + if present then [And, Test(c)] else []
  {
    hide Joined;
    if present {
      JoinedSnoc(checks, c);
      assert Joined(checks) + [And] + [Test(c)] == Joined(checks) + [And, Test(c)];
    } else {
      assert checks + [] == checks;
    }
  }

  lemma PlaceText(place: Place)
    ensures Joined(PlaceChecks(place))
            == match place
               case ByHeader(_) => [Test(TxJoin), And, Test(HeaderJoin), And, Test(HeaderIdIs(1))]
               case ByBlock(number, hash) =>
                 [Test(TxJoin), And, Test(HeaderJoin)]
                 + (if number > 0 then [And, Test(BlockNumberIs(1))] else [])
                 + if hash.Some? then [And, Test(BlockHashIs(if number > 0 then 2 else 1))] else []
  {
    hide Joined;
    JoinedNone();
    JoinedSnoc([], TxJoin);
    JoinedSnoc([TxJoin], HeaderJoin);
    assert [] + [TxJoin] == [TxJoin] && [TxJoin] + [HeaderJoin] == [TxJoin, HeaderJoin];
    var base := [TxJoin, HeaderJoin];
    assert Joined(base) == [Test(TxJoin), And, Test(HeaderJoin)];
    match place
    case ByHeader(_) =>
      JoinedOptional(base, true, HeaderIdIs(1));
      assert base + [HeaderIdIs(1)] == [TxJoin, HeaderJoin, HeaderIdIs(1)];
    case ByBlock(number, hash) =>
      JoinedOptional(base, number > 0, BlockNumberIs(1));
      JoinedOptional(base + if number > 0 then [BlockNumberIs(1)] else [], hash.Some?,
                     BlockHashIs(if number > 0 then 2 else 1));
  }
}
