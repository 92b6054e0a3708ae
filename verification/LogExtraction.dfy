/** Extracting watched logs header by header (libraries/shared/logs/extractor.go) over the check counts of
    pkg/eth/datastore/postgres/repositories/checked_headers_repository.go. Any call may fail; a failed call changes
    nothing and ends the operation. */
module LogExtraction {
  import opened Seqs

  type Address(==, !new)
  type Topic(==, !new)
  type HeaderId = nat

  datatype Log = Log(address: Address, topic: Topic, index: nat)

  type Pair = (Address, Topic)

  datatype Config = Config(addresses: seq<Address>, topic: Topic, startingBlock: int)

  const RECHECK_HEADER_CAP := 5

  /** The tables. The repository records which pairs are watched; from which block each was first watched is kept here
      to state what must be persisted. */
  datatype Tables = Tables(blocks: map<HeaderId, int>, checks: map<HeaderId, nat>, watched: map<Pair, int>,
                           persisted: set<(HeaderId, Log)>)

  datatype State = State(tables: Tables, addresses: seq<Address>, topics: seq<Topic>, startingBlock: Option<int>)

  /** The logs of each header's block. */
  type Chain = HeaderId -> set<Log>

  // ---- the repositories ----

  function Pairs(c: Config): set<Pair> {
    set a | a in c.addresses :: (a, c.topic)
  }

  predicate AlreadyWatchingLog(t: Tables, c: Config) {
    Pairs(c) <= t.watched.Keys
  }

  function MarkHeadersUnchecked(t: Tables, startingBlock: int): Tables {
    t.(checks := map id | id in t.checks :: if id in t.blocks && t.blocks[id] >= startingBlock then 0 else t.checks[id])
  }

  function MarkLogWatched(t: Tables, c: Config): Tables {
    t.(watched := map p | p in t.watched.Keys + Pairs(c) :: if p in t.watched then t.watched[p] else c.startingBlock)
  }

  function MarkHeaderChecked(t: Tables, id: HeaderId): Tables {
    if id in t.checks then t.(checks := t.checks[id := t.checks[id] + 1]) else t
  }

  function Unchecked(t: Tables, startingBlock: int, checkCount: nat): set<HeaderId> {
    set id | id in t.blocks && id in t.checks && t.checks[id] < checkCount && t.blocks[id] >= startingBlock
  }

  /** Every topic on every address. */
  function FetchLogs(chain: Chain, addresses: seq<Address>, topics: seq<Topic>, id: HeaderId): set<Log> {
    set log | log in chain(id) && log.address in addresses && log.topic in topics
  }

  function CreateLogs(t: Tables, id: HeaderId, logs: set<Log>): Tables {
    t.(persisted := t.persisted + set log | log in logs :: (id, log))
  }

  // ---- what the operations do ----

  /** calls: how many repository calls succeed before one fails. */
  function Updated(t: Tables, c: Config, calls: nat): (Tables, bool) {
    if calls == 0 then (t, false)
    else if AlreadyWatchingLog(t, c) then (t, true)
    else if calls == 1 then (t, false)
    else if calls == 2 then (MarkHeadersUnchecked(t, c.startingBlock), false)
    else (MarkLogWatched(MarkHeadersUnchecked(t, c.startingBlock), c), true)
  }

  function Earliest(start: Option<int>, startingBlock: int): Option<int> {
    if start.None? || startingBlock < start.value then Some(startingBlock) else start
  }

  function Configured(s: State, c: Config, calls: nat): State {
    var (t, ok) := Updated(s.tables, c, calls);
    if !ok then s.(tables := t)
    else State(t, s.addresses + c.addresses, s.topics + [c.topic], Earliest(s.startingBlock, c.startingBlock))
  }

  /** Headers handled completely, one after the other. */
  function Handled(chain: Chain, s: State, ids: seq<HeaderId>): Tables {
    if ids == [] then s.tables
    else
      var before, id := Handled(chain, s, ids[..|ids| - 1]), ids[|ids| - 1];
      MarkHeaderChecked(CreateLogs(before, id, FetchLogs(chain, s.addresses, s.topics, id)), id)
  }

  /** A failure may leave one more header with its logs persisted but not marked. */
  function Extracted(chain: Chain, s: State, ids: seq<HeaderId>, half: Option<HeaderId>): State {
    var t := Handled(chain, s, ids);
    s.(tables := if half.Some? then CreateLogs(t, half.value, FetchLogs(chain, s.addresses, s.topics, half.value)) else t)
  }

  /** Calls made for a header: fetching its logs, syncing their transactions and persisting them if there are any, and
      marking it checked. */
  function HeaderCalls(chain: Chain, s: State, id: HeaderId): nat {
    if FetchLogs(chain, s.addresses, s.topics, id) == {} then 2 else 4
  }

  function AllCalls(chain: Chain, s: State, ids: seq<HeaderId>): nat {
    if ids == [] then 0 else AllCalls(chain, s, ids[..|ids| - 1]) + HeaderCalls(chain, s, ids[|ids| - 1])
  }

  /** Every pair of the config is watched. */
  ghost predicate AllWatched(t: Tables, c: Config) {
    forall a :: a in c.addresses ==> (a, c.topic) in t.watched
  }

  /** The config is accepted: the first call works and, unless its pairs are watched already, so do the other two. */
  ghost predicate Accepts(s: State, c: Config, calls: nat) {
    calls >= 1 && (AllWatched(s.tables, c) || calls >= 3)
  }

  lemma AllWatchedIff(t: Tables, c: Config)
    ensures AlreadyWatchingLog(t, c) <==> AllWatched(t, c)
  {
    forall a | a in c.addresses ensures (a, c.topic) in Pairs(c) {
    }
  }

  /** The headers among ids that have a log to be fetched. */
  function WithLogs(chain: Chain, s: State, ids: seq<HeaderId>): seq<HeaderId> {
    if ids == [] then []
    else
      var id := ids[|ids| - 1];
      WithLogs(chain, s, ids[..|ids| - 1])
      + if exists log :: log in chain(id) && log.address in s.addresses && log.topic in s.topics then [id] else []
  }

  /** Two calls a header, and two more for each that has logs. */
  lemma {:induction false} CallsCounted(chain: Chain, s: State, ids: seq<HeaderId>)
    ensures AllCalls(chain, s, ids) == 2 * |ids| + 2 * |WithLogs(chain, s, ids)|
  {
    if ids != [] {
      CallsCounted(chain, s, ids[..|ids| - 1]);
      SomeFetched(chain, s, ids[|ids| - 1]);
      hide FetchLogs;
    }
  }

  lemma SomeFetched(chain: Chain, s: State, id: HeaderId)
    ensures FetchLogs(chain, s.addresses, s.topics, id) != {}
            <==> exists log :: log in chain(id) && log.address in s.addresses && log.topic in s.topics
  {
    if log :| log in chain(id) && log.address in s.addresses && log.topic in s.topics {
      assert log in FetchLogs(chain, s.addresses, s.topics, id);
    }
  }

  // ---- the code ----

  datatype Error = NoWatchedAddresses | NoUncheckedHeaders | CallFailed

  class LogExtractor {
    var tables: Tables
    var addresses: seq<Address>
    var topics: seq<Topic>
    var startingBlock: Option<int>

    ghost function Current(): State
      reads this
    {
      State(tables, addresses, topics, startingBlock)
    }

    constructor (tables: Tables)
      ensures Current() == State(tables, [], [], None)
    {
      this.tables, addresses, topics, startingBlock := tables, [], [], None;
    }

    method UpdateCheckedHeaders(config: Config, calls: nat) returns (ok: bool)
      modifies this`tables
      ensures (tables, ok) == Updated(old(tables), config, calls)
    {
      if calls == 0 {
        return false;
      }
      if !AlreadyWatchingLog(tables, config) {
        if calls == 1 {
          return false;
        }
        tables := MarkHeadersUnchecked(tables, config.startingBlock);
        if calls == 2 {
          return false;
        }
        tables := MarkLogWatched(tables, config);
      }
      return true;
    }

    method AddTransformerConfig(config: Config, calls: nat) returns (ok: bool)
      modifies this
      ensures Current() == Configured(old(Current()), config, calls)
      ensures ok <==> Accepts(old(Current()), config, calls)
    {
      AllWatchedIff(tables, config);
      ok := UpdateCheckedHeaders(config, calls);
      if !ok {
        return;
      }
      if startingBlock.None? {
        startingBlock := Some(config.startingBlock);
      } else if config.startingBlock < startingBlock.value {
        startingBlock := Some(config.startingBlock);
      }
      addresses := addresses + config.addresses;
      topics := topics + [config.topic];
    }

    /** headers: what the query for unchecked headers answers, in the database's order. */
    method ExtractLogs(chain: Chain, recheck: bool, headers: seq<HeaderId>, calls: nat)
        returns (err: Option<Error>, ghost done: nat, ghost half: Option<HeaderId>)
      requires addresses != [] ==> startingBlock.Some?
      requires addresses != [] ==>
                 Distinct(headers)
                 && (set id | id in headers)
                    == Unchecked(tables, startingBlock.value, if recheck then RECHECK_HEADER_CAP else 1)
      modifies this`tables
      ensures done <= |headers| && Current() == Extracted(chain, old(Current()), headers[..done], half)
      ensures err == Some(NoWatchedAddresses) <==> addresses == []
      ensures err == Some(NoUncheckedHeaders) <==> addresses != [] && calls > 0 && headers == []
      ensures err == None <==> addresses != [] && headers != [] && calls > AllCalls(chain, old(Current()), headers)
      ensures err == None ==> done == |headers| && half == None
      ensures err == Some(CallFailed) && calls == 0 ==> done == 0 && half == None
      ensures err == Some(CallFailed) && calls > 0 ==>
                && done < |headers|
                && AllCalls(chain, old(Current()), headers[..done]) < calls
                && calls <= AllCalls(chain, old(Current()), headers[..done + 1])
                && half == if calls == AllCalls(chain, old(Current()), headers[..done + 1]) then Some(headers[done])
                           else None
    {
      done, half := 0, None;
      if |addresses| < 1 {
        return Some(NoWatchedAddresses), 0, None;
      }
      if calls == 0 {
        return Some(CallFailed), 0, None;
      }
      if |headers| < 1 {
        return Some(NoUncheckedHeaders), 0, None;
      }
      var left := calls - 1;
      ghost var s := Current();
      assert headers[..0] == [];
      assert AllCalls(chain, s, []) == 0 && Handled(chain, s, []) == s.tables;
      hide FetchLogs, CreateLogs, MarkHeaderChecked, Unchecked, Distinct, AllCalls, Handled;
      for i := 0 to |headers|
        invariant done == i && half == None
        invariant Current() == s.(tables := Handled(chain, s, headers[..i]))
        invariant left >= 0 && left + 1 + AllCalls(chain, s, headers[..i]) == calls
      {
        var id := headers[i];
        OneHeader(chain, s, headers, i);
        if left == 0 {
          return Some(CallFailed), i, None;
        }
        left := left - 1;
        var logs := FetchLogs(chain, addresses, topics, id);
        if logs != {} {
          if left <= 1 {
            // syncing transactions or persisting the logs fails
            return Some(CallFailed), i, None;
          }
          left := left - 2;
          tables := CreateLogs(tables, id, logs);
        } else {
          CreateNothing(tables, id);
        }
        if left == 0 {
          return Some(CallFailed), i, Some(id);
        }
        left := left - 1;
        tables := MarkHeaderChecked(tables, id);
        done := i + 1;
      }
      assert headers[..|headers|] == headers;
      return None, |headers|, None;
    }
  }

  lemma OneHeader(chain: Chain, s: State, ids: seq<HeaderId>, i: nat)
    requires i < |ids|
    ensures AllCalls(chain, s, ids[..i + 1]) == AllCalls(chain, s, ids[..i]) + HeaderCalls(chain, s, ids[i])
    ensures AllCalls(chain, s, ids[..i + 1]) <= AllCalls(chain, s, ids)
    ensures Handled(chain, s, ids[..i + 1])
            == MarkHeaderChecked(CreateLogs(Handled(chain, s, ids[..i]), ids[i],
                                            FetchLogs(chain, s.addresses, s.topics, ids[i])), ids[i])
  {
    hide FetchLogs, CreateLogs, MarkHeaderChecked, HeaderCalls;
    assert ids[..i + 1][..i] == ids[..i];
    MoreCalls(chain, s, ids, i + 1);
  }

  lemma {:induction false} MoreCalls(chain: Chain, s: State, ids: seq<HeaderId>, k: nat)
    requires k <= |ids|
    ensures AllCalls(chain, s, ids[..k]) <= AllCalls(chain, s, ids)
  {
    if k < |ids| {
      assert ids[..|ids| - 1][..k] == ids[..k];
      MoreCalls(chain, s, ids[..|ids| - 1], k);
    } else {
      assert ids[..k] == ids;
    }
  }

  lemma CreateNothing(t: Tables, id: HeaderId)
    ensures CreateLogs(t, id, {}) == t
  {
    assert t.persisted + (set log | log in {} :: (id, log)) == t.persisted;
  }

  // ---- exactly what changes ----

  /** Adding a config unchecks the known headers at or above its starting block, and no other, if one of its pairs is
      new and the first two calls work. */
  lemma ConfigUnchecks(s: State, c: Config, calls: nat, id: HeaderId)
    ensures var t, u := s.tables, Configured(s, c, calls).tables;
            && u.blocks == t.blocks && u.persisted == t.persisted
            && (id in u.checks <==> id in t.checks)
            && (id in t.checks ==>
                  u.checks[id] == if !AllWatched(t, c) && calls >= 2 && id in t.blocks && t.blocks[id] >= c.startingBlock
                                  then 0 else t.checks[id])
  {
    AllWatchedIff(s.tables, c);
    hide AllWatched, AlreadyWatchingLog, Pairs;
  }

  /** Its pairs become watched, and no other, if all three calls work; pairs watched before keep their block. */
  lemma ConfigWatches(s: State, c: Config, calls: nat, p: Pair)
    ensures var t, u := s.tables, Configured(s, c, calls).tables;
            && (p in u.watched
                <==> p in t.watched || (!AllWatched(t, c) && calls >= 3 && p.0 in c.addresses && p.1 == c.topic))
            && (p in t.watched ==> u.watched[p] == t.watched[p])
            && (p in u.watched && p !in t.watched ==> u.watched[p] == c.startingBlock)
  {
    AllWatchedIff(s.tables, c);
    hide AllWatched, AlreadyWatchingLog;
    assert p in Pairs(c) <==> p.0 in c.addresses && p.1 == c.topic;
  }

  /** An extraction counts one check more for each header handled completely. */
  lemma {:induction false} HandledChecks(chain: Chain, s: State, ids: seq<HeaderId>, h: HeaderId)
    ensures var t := Handled(chain, s, ids);
            && (h in t.checks <==> h in s.tables.checks)
            && (h in t.checks ==> t.checks[h] == s.tables.checks[h] + multiset(ids)[h])
  {
    if ids != [] {
      hide FetchLogs;
      var init, id := ids[..|ids| - 1], ids[|ids| - 1];
      assert ids == init + [id];
      HandledChecks(chain, s, init, h);
    }
  }

  lemma PersistStep(chain: Chain, s: State, ids: seq<HeaderId>, h: HeaderId, log: Log)
    requires ids != []
    ensures var t, u, id := Handled(chain, s, ids[..|ids| - 1]), Handled(chain, s, ids), ids[|ids| - 1];
            (h, log) in u.persisted
            <==> (h, log) in t.persisted
                 || (h == id && log in chain(id) && log.address in s.addresses && log.topic in s.topics)
  {
  }

  lemma {:induction false} HandledPersists(chain: Chain, s: State, ids: seq<HeaderId>, h: HeaderId, log: Log)
    ensures (h, log) in Handled(chain, s, ids).persisted
            <==> (h, log) in s.tables.persisted
                 || (h in ids && log in chain(h) && log.address in s.addresses && log.topic in s.topics)
  {
    if ids != [] {
      hide Handled;
      HandledPersists(chain, s, ids[..|ids| - 1], h, log);
      PersistStep(chain, s, ids, h, log);
      assert ids == ids[..|ids| - 1] + [ids[|ids| - 1]];
    } else {
      assert Handled(chain, s, []) == s.tables;
    }
  }

  /** It persists the logs of the given headers, and of the one it stopped at, that have a held address and a held
      topic, and nothing else; and counts one check for each of the given ones. */
  lemma ExtractEffect(chain: Chain, s: State, ids: seq<HeaderId>, half: Option<HeaderId>, h: HeaderId)
    ensures var t := Extracted(chain, s, ids, half).tables;
            && (h in t.checks <==> h in s.tables.checks)
            && (h in t.checks ==> t.checks[h] == s.tables.checks[h] + multiset(ids)[h])
            && forall log ::
                 (h, log) in t.persisted
                 <==> (h, log) in s.tables.persisted
                      || ((h in ids || half == Some(h))
                          && log in chain(h) && log.address in s.addresses && log.topic in s.topics)
  {
    HandledChecks(chain, s, ids, h);
    hide Handled;
    forall log
      ensures (h, log) in Extracted(chain, s, ids, half).tables.persisted
              <==> (h, log) in s.tables.persisted
                   || ((h in ids || half == Some(h))
                       && log in chain(h) && log.address in s.addresses && log.topic in s.topics)
    {
      HandledPersists(chain, s, ids, h, log);
    }
  }

  // ---- checked implies complete ----

  /** A log of a pair first watched from the header's block or an earlier one. */
  ghost predicate Wanted(t: Tables, id: HeaderId, log: Log) {
    && id in t.blocks
    && (log.address, log.topic) in t.watched && t.watched[(log.address, log.topic)] <= t.blocks[id]
  }

  ghost predicate CompleteAt(chain: Chain, t: Tables, id: HeaderId) {
    forall log :: log in chain(id) && Wanted(t, id, log) ==> (id, log) in t.persisted
  }

  ghost predicate Complete(chain: Chain, t: Tables) {
    forall id :: id in t.checks && t.checks[id] >= 1 ==> CompleteAt(chain, t, id)
  }

  /** The extractor was given every watched pair. */
  ghost predicate HoldsWatched(s: State) {
    forall p :: p in s.tables.watched ==> p.0 in s.addresses && p.1 in s.topics
  }

  /** It was given every pair whose logs a header should have. */
  ghost predicate HoldsFor(s: State, id: HeaderId) {
    id in s.tables.blocks ==>
      forall p :: p in s.tables.watched && s.tables.watched[p] <= s.tables.blocks[id] ==>
        p.0 in s.addresses && p.1 in s.topics
  }

  /** It was so for all headers that are to be checked for the first time: what a caller can find out before. */
  ghost predicate Covers(s: State, ids: seq<HeaderId>) {
    forall id :: id in ids && id in s.tables.checks && s.tables.checks[id] == 0 ==> HoldsFor(s, id)
  }

  lemma FetchedCompletes(chain: Chain, s: State, t: Tables, id: HeaderId)
    requires HoldsFor(s, id) && t.watched == s.tables.watched && t.blocks == s.tables.blocks
    ensures var u := CreateLogs(t, id, FetchLogs(chain, s.addresses, s.topics, id));
            && CompleteAt(chain, u, id) && CompleteAt(chain, MarkHeaderChecked(u, id), id)
  {
    var logs := FetchLogs(chain, s.addresses, s.topics, id);
    var u := CreateLogs(t, id, logs);
    forall log | log in chain(id) && Wanted(t, id, log) ensures (id, log) in u.persisted {
      var p := (log.address, log.topic);
      assert p in s.tables.watched;
      assert p.0 in s.addresses && p.1 in s.topics;
      assert log in logs;
    }
  }

  lemma MoreLogsComplete(chain: Chain, t: Tables, id: HeaderId, logs: set<Log>)
    requires Complete(chain, t)
    ensures Complete(chain, CreateLogs(t, id, logs))
  {
    var u := CreateLogs(t, id, logs);
    forall i | i in u.checks && u.checks[i] >= 1 ensures CompleteAt(chain, u, i) {
      assert CompleteAt(chain, t, i);
    }
  }

  lemma MarkCompletes(chain: Chain, t: Tables, id: HeaderId)
    requires Complete(chain, t) && (id in t.checks ==> CompleteAt(chain, MarkHeaderChecked(t, id), id))
    ensures Complete(chain, MarkHeaderChecked(t, id))
  {
    var u := MarkHeaderChecked(t, id);
    forall i | i in u.checks && u.checks[i] >= 1 ensures CompleteAt(chain, u, i) {
      if i != id {
        assert CompleteAt(chain, t, i);
      }
    }
  }

  /** More logs and more checks do not make a header incomplete. */
  lemma StaysComplete(chain: Chain, t: Tables, id: HeaderId, other: HeaderId, logs: set<Log>)
    requires CompleteAt(chain, t, id)
    ensures CompleteAt(chain, MarkHeaderChecked(CreateLogs(t, other, logs), other), id)
    ensures CompleteAt(chain, CreateLogs(t, other, logs), id)
  {
    var u := CreateLogs(t, other, logs);
    forall log | log in chain(id) && Wanted(t, id, log) ensures (id, log) in u.persisted {
      assert (id, log) in t.persisted;
    }
  }

  lemma {:induction false} HandledKeeps(chain: Chain, s: State, ids: seq<HeaderId>)
    ensures var t := Handled(chain, s, ids);
            t.watched == s.tables.watched && t.blocks == s.tables.blocks && t.checks.Keys == s.tables.checks.Keys
  {
    if ids != [] {
      hide FetchLogs;
      HandledKeeps(chain, s, ids[..|ids| - 1]);
    }
  }

  lemma {:induction false} HandledChecked(chain: Chain, s: State, ids: seq<HeaderId>, id: HeaderId)
    requires id in s.tables.checks
    ensures id in Handled(chain, s, ids).checks && Handled(chain, s, ids).checks[id] >= s.tables.checks[id]
    ensures id in ids ==> Handled(chain, s, ids).checks[id] >= 1
  {
    if ids != [] {
      hide FetchLogs;
      HandledChecked(chain, s, ids[..|ids| - 1], id);
    }
  }

  lemma HandledOne(chain: Chain, s: State, ids: seq<HeaderId>, id: HeaderId)
    requires Complete(chain, s.tables) && Complete(chain, Handled(chain, s, ids)) && Covers(s, [id])
    ensures var t := Handled(chain, s, ids);
            Complete(chain, MarkHeaderChecked(CreateLogs(t, id, FetchLogs(chain, s.addresses, s.topics, id)), id))
  {
    var t := Handled(chain, s, ids);
    var logs := FetchLogs(chain, s.addresses, s.topics, id);
    HandledKeeps(chain, s, ids);
    if id in s.tables.checks {
      HandledChecked(chain, s, ids, id);
      if s.tables.checks[id] == 0 {
        assert id in [id];
        FetchedCompletes(chain, s, t, id);
      } else {
        StaysComplete(chain, t, id, id, logs);
      }
    }
    hide Complete, CompleteAt, FetchLogs, Covers, Handled;
    MoreLogsComplete(chain, t, id, logs);
    MarkCompletes(chain, CreateLogs(t, id, logs), id);
  }

  lemma {:induction false} HandledComplete(chain: Chain, s: State, ids: seq<HeaderId>)
    requires Complete(chain, s.tables) && Covers(s, ids)
    ensures Complete(chain, Handled(chain, s, ids))
  {
    if ids != [] {
      var init, id := ids[..|ids| - 1], ids[|ids| - 1];
      assert id in ids;
      assert Covers(s, init) && Covers(s, [id]);
      hide Complete, FetchLogs, Covers;
      HandledComplete(chain, s, init);
      HandledOne(chain, s, init, id);
    }
  }

  lemma ExtractComplete(chain: Chain, s: State, ids: seq<HeaderId>, half: Option<HeaderId>)
    requires Complete(chain, s.tables) && Covers(s, ids)
    ensures Complete(chain, Extracted(chain, s, ids, half).tables)
  {
    hide Complete, FetchLogs, Covers, Handled;
    HandledComplete(chain, s, ids);
    if half.Some? {
      MoreLogsComplete(chain, Handled(chain, s, ids), half.value, FetchLogs(chain, s.addresses, s.topics, half.value));
    }
  }

  /** Numbers run out of no finite set. */
  lemma {:induction false} FreshIndex(persisted: set<(HeaderId, Log)>, id: HeaderId, p: Pair, n: nat) returns (m: nat)
    ensures m >= n && (id, Log(p.0, p.1, m)) !in persisted
    decreases persisted
  {
    var x := (id, Log(p.0, p.1, n));
    if x in persisted {
      m := FreshIndex(persisted - {x}, id, p, n + 1);
      assert (id, Log(p.0, p.1, m)) != x;
    } else {
      m := n;
    }
  }

  lemma {:induction false} HandledNothing(chain: Chain, s: State, ids: seq<HeaderId>)
    requires forall id :: FetchLogs(chain, s.addresses, s.topics, id) == {}
    ensures Handled(chain, s, ids).persisted == s.tables.persisted
  {
    if ids != [] {
      var id := ids[|ids| - 1];
      HandledNothing(chain, s, ids[..|ids| - 1]);
      assert FetchLogs(chain, s.addresses, s.topics, id) == {};
      CreateNothing(Handled(chain, s, ids[..|ids| - 1]), id);
    }
  }

  /** The chain with a single log. */
  function OneLog(id: HeaderId, log: Log): Chain {
    i => if i == id then {log} else {}
  }

  lemma NothingToFetch(s: State, id: HeaderId, log: Log)
    requires log.address !in s.addresses || log.topic !in s.topics
    ensures forall i :: FetchLogs(OneLog(id, log), s.addresses, s.topics, i) == {}
  {
  }

  /** A first check without a pair whose logs the header should have: some chain makes it wrong. */
  lemma UncoveredBreaks(s: State, ids: seq<HeaderId>, half: Option<HeaderId>) returns (chain: Chain)
    requires !Covers(s, ids)
    ensures Complete(chain, s.tables) && !Complete(chain, Extracted(chain, s, ids, half).tables)
  {
    var id :| id in ids && id in s.tables.checks && s.tables.checks[id] == 0 && !HoldsFor(s, id);
    var p :| p in s.tables.watched && s.tables.watched[p] <= s.tables.blocks[id]
             && !(p.0 in s.addresses && p.1 in s.topics);
    var n := FreshIndex(s.tables.persisted, id, p, 0);
    var log := Log(p.0, p.1, n);
    chain := OneLog(id, log);
    NothingToFetch(s, id, log);
    HandledNothing(chain, s, ids);
    HandledKeeps(chain, s, ids);
    HandledChecked(chain, s, ids, id);
    hide FetchLogs, Handled;
    var t := Extracted(chain, s, ids, half).tables;
    if half.Some? {
      CreateNothing(Handled(chain, s, ids), half.value);
    }
    assert (log.address, log.topic) == p;
    assert !CompleteAt(chain, t, id) by {
      assert log in chain(id) && Wanted(t, id, log) && (id, log) !in t.persisted;
    }
  }

  /** On every chain, whatever its logs are, an extraction keeps checked headers complete. */
  ghost predicate Keeps(s: State, ids: seq<HeaderId>, half: Option<HeaderId>) {
    forall chain: Chain :: Complete(chain, s.tables) ==> Complete(chain, Extracted(chain, s, ids, half).tables)
  }

  /** It does so if and only if the extractor holds, for each header checked for the first time, every pair watched from
      its block or an earlier one. */
  lemma KeepsIff(s: State, ids: seq<HeaderId>, half: Option<HeaderId>)
    ensures Keeps(s, ids, half) <==> Covers(s, ids)
  {
    hide Complete, Extracted, Covers;
    if Covers(s, ids) {
      forall chain: Chain | Complete(chain, s.tables) ensures Complete(chain, Extracted(chain, s, ids, half).tables) {
        ExtractComplete(chain, s, ids, half);
      }
    } else {
      var chain := UncoveredBreaks(s, ids, half);
    }
  }

  /** A header extracted while the extractor holds its pairs is complete afterwards, even if it was not before. */
  lemma {:induction false} HandledRepairs(chain: Chain, s: State, ids: seq<HeaderId>, id: HeaderId)
    requires id in ids && HoldsFor(s, id)
    ensures CompleteAt(chain, Handled(chain, s, ids), id)
  {
    var init, last := ids[..|ids| - 1], ids[|ids| - 1];
    HandledKeeps(chain, s, init);
    hide CompleteAt, HoldsFor, FetchLogs, MarkHeaderChecked;
    if last == id {
      FetchedCompletes(chain, s, Handled(chain, s, init), id);
    } else {
      HandledRepairs(chain, s, init, id);
      StaysComplete(chain, Handled(chain, s, init), id, last, FetchLogs(chain, s.addresses, s.topics, last));
    }
  }

  lemma ExtractRepairs(chain: Chain, s: State, ids: seq<HeaderId>, half: Option<HeaderId>, id: HeaderId)
    requires id in ids && HoldsFor(s, id)
    ensures CompleteAt(chain, Extracted(chain, s, ids, half).tables, id)
  {
    HandledRepairs(chain, s, ids, id);
    hide CompleteAt, HoldsFor, FetchLogs, Handled;
    if half.Some? {
      StaysComplete(chain, Handled(chain, s, ids), id, half.value,
                    FetchLogs(chain, s.addresses, s.topics, half.value));
    }
  }

  lemma UncheckComplete(chain: Chain, t: Tables, startingBlock: int)
    requires Complete(chain, t)
    ensures Complete(chain, MarkHeadersUnchecked(t, startingBlock))
  {
    var u := MarkHeadersUnchecked(t, startingBlock);
    forall i | i in u.checks && u.checks[i] >= 1 ensures CompleteAt(chain, u, i) {
      assert CompleteAt(chain, t, i);
    }
  }

  /** Watching more pairs asks for more logs only of headers that have just been unchecked. */
  lemma WatchComplete(chain: Chain, t: Tables, c: Config)
    requires Complete(chain, t)
    ensures Complete(chain, MarkLogWatched(MarkHeadersUnchecked(t, c.startingBlock), c))
  {
    var v := MarkHeadersUnchecked(t, c.startingBlock);
    var u := MarkLogWatched(v, c);
    forall i | i in u.checks && u.checks[i] >= 1 ensures CompleteAt(chain, u, i) {
      assert CompleteAt(chain, t, i);
      forall log | log in chain(i) && Wanted(u, i, log) ensures (i, log) in u.persisted {
        assert u.blocks[i] < c.startingBlock;
        assert Wanted(t, i, log);
      }
    }
  }

  lemma ConfigComplete(chain: Chain, s: State, c: Config, calls: nat)
    requires Complete(chain, s.tables)
    ensures Complete(chain, Configured(s, c, calls).tables)
  {
    hide Complete, MarkLogWatched, MarkHeadersUnchecked, AlreadyWatchingLog;
    UncheckComplete(chain, s.tables, c.startingBlock);
    WatchComplete(chain, s.tables, c);
  }

  // ---- every run ----

  datatype Event =
    | NewHeader(id: HeaderId, block: int)
    | AddConfig(config: Config, calls: nat)
    | Extract(ids: seq<HeaderId>, half: Option<HeaderId>)
    | Restart

  /** A header is new once; headers are checked for the first time only while the extractor holds the pairs watched
      from their block or an earlier one. */
  ghost predicate Allowed(s: State, e: Event) {
    match e
    case NewHeader(id, _) => id !in s.tables.blocks && id !in s.tables.checks
    case Extract(ids, _) => Covers(s, ids)
    case _ => true
  }

  function Step(chain: Chain, s: State, e: Event): State {
    match e
    case NewHeader(id, block) =>
      s.(tables := s.tables.(blocks := s.tables.blocks[id := block], checks := s.tables.checks[id := 0]))
    case AddConfig(c, calls) => Configured(s, c, calls)
    case Extract(ids, half) => Extracted(chain, s, ids, half)
    case Restart => State(s.tables, [], [], None)
  }

  const FRESH := State(Tables(map[], map[], map[], {}), [], [], None)

  function Run(chain: Chain, events: seq<Event>): State {
    if events == [] then FRESH else Step(chain, Run(chain, events[..|events| - 1]), events[|events| - 1])
  }

  ghost predicate AllAllowed(chain: Chain, events: seq<Event>) {
    events == []
    || (AllAllowed(chain, events[..|events| - 1])
        && Allowed(Run(chain, events[..|events| - 1]), events[|events| - 1]))
  }

  lemma NewHeaderComplete(chain: Chain, t: Tables, id: HeaderId, block: int)
    requires Complete(chain, t) && id !in t.checks
    ensures Complete(chain, t.(blocks := t.blocks[id := block], checks := t.checks[id := 0]))
  {
    var u := t.(blocks := t.blocks[id := block], checks := t.checks[id := 0]);
    forall i | i in u.checks && u.checks[i] >= 1 ensures CompleteAt(chain, u, i) {
      assert CompleteAt(chain, t, i);
    }
  }

  /** In every run, whichever calls fail, a header counted as checked has all its watched logs persisted. */
  lemma {:induction false} CheckedIsComplete(chain: Chain, events: seq<Event>)
    requires AllAllowed(chain, events)
    ensures Complete(chain, Run(chain, events).tables)
  {
    if events != [] {
      var init, e := events[..|events| - 1], events[|events| - 1];
      CheckedIsComplete(chain, init);
      var s := Run(chain, init);
      hide Complete, Configured, Extracted, Covers;
      match e
      case NewHeader(id, block) => NewHeaderComplete(chain, s.tables, id, block);
      case AddConfig(c, calls) => ConfigComplete(chain, s, c, calls);
      case Extract(ids, half) => ExtractComplete(chain, s, ids, half);
      case Restart =>
    }
  }

  // ---- what the extractor holds ----

  /** The configs accepted since the last restart. */
  ghost function Accepted(chain: Chain, events: seq<Event>): seq<Config> {
    if events == [] then []
    else
      var init := events[..|events| - 1];
      match events[|events| - 1]
      case AddConfig(c, calls) =>
        Accepted(chain, init) + if Accepts(Run(chain, init), c, calls) then [c] else []
      case Restart => []
      case _ => Accepted(chain, init)
  }

  /** Addresses and topics are those of the configs; the starting block is the least of theirs, if there are any. */
  ghost predicate Holds(s: State, configs: seq<Config>) {
    && (forall a :: a in s.addresses <==> exists c :: c in configs && a in c.addresses)
    && (forall x :: x in s.topics <==> exists c :: c in configs && x == c.topic)
    && (s.startingBlock == None <==> configs == [])
    && (s.startingBlock.Some? ==>
          && (exists c :: c in configs && c.startingBlock == s.startingBlock.value)
          && (forall c :: c in configs ==> s.startingBlock.value <= c.startingBlock))
  }

  lemma HoldsOneMore(s: State, configs: seq<Config>, c: Config, calls: nat)
    requires Holds(s, configs)
    ensures Holds(Configured(s, c, calls), configs + if Accepts(s, c, calls) then [c] else [])
  {
    AllWatchedIff(s.tables, c);
    hide AllWatched, AlreadyWatchingLog;
    var t := Configured(s, c, calls);
    if Accepts(s, c, calls) {
      var more := configs + [c];
      assert forall d :: d in more <==> d in configs || d == c;
      assert t.addresses == s.addresses + c.addresses && t.topics == s.topics + [c.topic];
      assert t.startingBlock == Earliest(s.startingBlock, c.startingBlock);
    } else {
      assert configs + [] == configs;
    }
  }

  /** In every run the extractor holds the addresses and topics of the configs accepted since the last restart, and
      starts at the least of their starting blocks. */
  lemma {:induction false} HoldsAccepted(chain: Chain, events: seq<Event>)
    ensures Holds(Run(chain, events), Accepted(chain, events))
  {
    if events != [] {
      var init, e := events[..|events| - 1], events[|events| - 1];
      HoldsAccepted(chain, init);
      hide Holds, Configured, Handled, Accepts;
      var s := Run(chain, init);
      match e
      case AddConfig(c, calls) => HoldsOneMore(s, Accepted(chain, init), c, calls);
      case Restart => HoldsNothing(s.tables);
      case NewHeader(_, _) => HoldsStill(s, Run(chain, events), Accepted(chain, init));
      case Extract(_, _) => HoldsStill(s, Run(chain, events), Accepted(chain, init));
    } else {
      HoldsNothing(FRESH.tables);
    }
  }

  lemma HoldsNothing(t: Tables)
    ensures Holds(State(t, [], [], None), [])
  {
  }

  lemma HoldsStill(s: State, t: State, configs: seq<Config>)
    requires Holds(s, configs)
    requires t.addresses == s.addresses && t.topics == s.topics && t.startingBlock == s.startingBlock
    ensures Holds(t, configs)
  {
  }

  // ---- how often headers are checked ----

  /** Extractions are given headers that the query for unchecked headers lists, each once. */
  ghost predicate Listed(s: State, e: Event) {
    e.Extract? ==>
      && (e.ids != [] || e.half.Some? ==> s.startingBlock.Some?)
      && Distinct(e.ids)
      && forall id :: id in e.ids ==> id in Unchecked(s.tables, s.startingBlock.value, RECHECK_HEADER_CAP)
  }

  ghost predicate AllListed(chain: Chain, events: seq<Event>) {
    events == []
    || (AllListed(chain, events[..|events| - 1])
        && Listed(Run(chain, events[..|events| - 1]), events[|events| - 1]))
  }

  /** No header is checked more often than the cap. */
  ghost predicate Capped(t: Tables) {
    forall id :: id in t.checks ==> t.checks[id] <= RECHECK_HEADER_CAP
  }

  lemma {:induction false} DistinctOnce(ids: seq<HeaderId>, id: HeaderId)
    requires Distinct(ids)
    ensures multiset(ids)[id] == if id in ids then 1 else 0
  {
    if ids != [] {
      var init, last := ids[..|ids| - 1], ids[|ids| - 1];
      assert ids == init + [last];
      DistinctOnce(init, id);
    }
  }

  lemma ExtractCapped(chain: Chain, s: State, e: Event)
    requires e.Extract? && Capped(s.tables) && Listed(s, e)
    ensures Capped(Extracted(chain, s, e.ids, e.half).tables)
  {
    var t := Extracted(chain, s, e.ids, e.half).tables;
    hide Extracted, Distinct;
    forall id | id in t.checks ensures t.checks[id] <= RECHECK_HEADER_CAP {
      OneCheck(chain, s, e, id);
    }
  }

  lemma OneCheck(chain: Chain, s: State, e: Event, id: HeaderId)
    requires e.Extract? && Listed(s, e)
    ensures var t := Extracted(chain, s, e.ids, e.half).tables;
            && (id in t.checks <==> id in s.tables.checks)
            && (id in t.checks ==>
                  t.checks[id]
                  == s.tables.checks[id] + if id in e.ids then 1 else 0)
            && (id in e.ids ==>
                  && s.startingBlock.Some? && id in s.tables.blocks && id in s.tables.checks
                  && s.tables.checks[id] < RECHECK_HEADER_CAP
                  && s.tables.blocks[id] >= s.startingBlock.value)
  {
    DistinctOnce(e.ids, id);
    ExtractEffect(chain, s, e.ids, e.half, id);
    hide Extracted, Distinct;
  }

  /** However often headers are rechecked, whatever fails: no header's count exceeds the cap. */
  lemma {:induction false} NeverAboveCap(chain: Chain, events: seq<Event>)
    requires AllListed(chain, events)
    ensures Capped(Run(chain, events).tables)
  {
    if events != [] {
      var init, e := events[..|events| - 1], events[|events| - 1];
      NeverAboveCap(chain, init);
      var s := Run(chain, init);
      hide AllListed, Listed, Extracted, Configured;
      match e
      case Extract(_, _) => ExtractCapped(chain, s, e);
      case AddConfig(c, calls) => ConfigCapped(s, c, calls);
      case _ =>
    }
  }

  lemma ConfigCapped(s: State, c: Config, calls: nat)
    requires Capped(s.tables)
    ensures Capped(Configured(s, c, calls).tables)
  {
    var u := Configured(s, c, calls).tables;
    hide Configured;
    forall id | id in u.checks ensures u.checks[id] <= RECHECK_HEADER_CAP {
      ConfigUnchecks(s, c, calls, id);
    }
  }

  /** The configs accepted at any time. */
  ghost function EverAccepted(chain: Chain, events: seq<Event>): seq<Config> {
    if events == [] then []
    else
      var init := events[..|events| - 1];
      match events[|events| - 1]
      case AddConfig(c, calls) =>
        EverAccepted(chain, init) + if Accepts(Run(chain, init), c, calls) then [c] else []
      case _ => EverAccepted(chain, init)
  }

  lemma {:induction false} AcceptedEver(chain: Chain, events: seq<Event>, c: Config)
    requires c in Accepted(chain, events)
    ensures c in EverAccepted(chain, events)
  {
    if events != [] {
      hide Accepts, Run;
      if c in Accepted(chain, events[..|events| - 1]) {
        AcceptedEver(chain, events[..|events| - 1], c);
      }
    }
  }

  /** Some config starts at or below the header's block. */
  ghost predicate FromSome(t: Tables, configs: seq<Config>, id: HeaderId) {
    id in t.blocks && exists c :: c in configs && c.startingBlock <= t.blocks[id]
  }

  /** No header below the starting blocks of all configs so far is ever checked. */
  lemma {:induction false} NeverBelow(chain: Chain, events: seq<Event>, id: HeaderId)
    requires AllListed(chain, events)
    requires id in Run(chain, events).tables.checks && Run(chain, events).tables.checks[id] >= 1
    ensures FromSome(Run(chain, events).tables, EverAccepted(chain, events), id)
  {
    if events != [] {
      var init, e := events[..|events| - 1], events[|events| - 1];
      var s := Run(chain, init);
      hide AllListed, Listed, Extracted, Configured, Accepts;
      match e
      case NewHeader(_, _) => NeverBelow(chain, init, id);
      case Restart => NeverBelow(chain, init, id);
      case AddConfig(c, calls) =>
        ConfigUnchecks(s, c, calls, id);
        NeverBelow(chain, init, id);
      case Extract(ids, half) =>
        OneCheck(chain, s, e, id);
        ExtractKeepsBlocks(chain, s, ids, half);
        if id in ids {
          StartAccepted(chain, init);
        } else {
          NeverBelow(chain, init, id);
        }
    }
  }

  lemma ExtractKeepsBlocks(chain: Chain, s: State, ids: seq<HeaderId>, half: Option<HeaderId>)
    ensures Extracted(chain, s, ids, half).tables.blocks == s.tables.blocks
  {
    HandledKeeps(chain, s, ids);
  }

  lemma StartAccepted(chain: Chain, events: seq<Event>)
    requires Run(chain, events).startingBlock.Some?
    ensures exists c :: c in EverAccepted(chain, events)
                        && c.startingBlock == Run(chain, events).startingBlock.value
  {
    HoldsAccepted(chain, events);
    hide Run, Accepted, EverAccepted;
    var c :| c in Accepted(chain, events) && c.startingBlock == Run(chain, events).startingBlock.value;
    AcceptedEver(chain, events, c);
  }

  // ---- an extraction without failures ----

  /** An extraction that handles all headers it was given leaves every header at or above the starting block of any
      config accepted since the last restart checked, and so with all its watched logs persisted. */
  lemma AllExtracted(chain: Chain, events: seq<Event>, ids: seq<HeaderId>, checkCount: nat, c: Config, id: HeaderId)
    requires c in Accepted(chain, events)
    requires var s := Run(chain, events);
             && AllAllowed(chain, events) && Covers(s, ids) && checkCount >= 1
             && (s.startingBlock.Some? ==> Unchecked(s.tables, s.startingBlock.value, checkCount) <= (set i | i in ids))
             && id in s.tables.blocks && id in s.tables.checks && s.tables.blocks[id] >= c.startingBlock
    ensures var t := Extracted(chain, Run(chain, events), ids, None).tables;
            id in t.checks && t.checks[id] >= 1 && CompleteAt(chain, t, id)
  {
    HoldsAccepted(chain, events);
    hide AllAllowed, Covers, Run, Accepted;
    var s := Run(chain, events);
    CheckedIsComplete(chain, events);
    ExtractComplete(chain, s, ids, None);
    HandledChecked(chain, s, ids, id);
    assert s.tables.checks[id] == 0 ==> id in Unchecked(s.tables, s.startingBlock.value, checkCount);
  }

  // ---- extracting too early ----

  /** After a restart, extracting before a watched pair has been added again leaves a checked header without its logs,
      and adding the pair again does not uncheck it. The logs are missing until the header is rechecked, as the last
      clause shows, or unchecked by a new pair. */
  lemma TooEarly(chain: Chain, a: Address, b: Address, x: Topic, y: Topic, log: Log)
    requires a != b && x != y && chain(7) == {log} && log.address == a && log.topic == x
    ensures var c, d := Config([a], x, 0), Config([b], y, 0);
            var run := [AddConfig(c, 3), Restart, AddConfig(d, 3), NewHeader(7, 1), Extract([7], None), AddConfig(c, 3)];
            var s := Run(chain, run);
            && !AllAllowed(chain, run)
            && HoldsWatched(s)
            && 7 in s.tables.checks && s.tables.checks[7] == 1
            && Wanted(s.tables, 7, log) && (7, log) !in s.tables.persisted
            && Allowed(s, Extract([7], None))
            && (7, log) in Step(chain, s, Extract([7], None)).tables.persisted
  {
    var c, d := Config([a], x, 0), Config([b], y, 0);
    var run := [AddConfig(c, 3), Restart, AddConfig(d, 3), NewHeader(7, 1), Extract([7], None), AddConfig(c, 3)];
    var s4 := EarlyState(a, b, x, y);
    UpToExtract(chain, a, b, x, y);
    FromExtract(chain, a, b, x, y, log);
    hide Run, AllAllowed, Step, HoldsWatched, Wanted;
    RunSix(chain, run, s4);
  }

  lemma FromExtract(chain: Chain, a: Address, b: Address, x: Topic, y: Topic, log: Log)
    requires a != b && x != y && chain(7) == {log} && log.address == a && log.topic == x
    ensures !Allowed(EarlyState(a, b, x, y), Extract([7], None))
    ensures var s := Step(chain, Step(chain, EarlyState(a, b, x, y), Extract([7], None)), AddConfig(Config([a], x, 0), 3));
            && HoldsWatched(s)
            && 7 in s.tables.checks && s.tables.checks[7] == 1
            && Wanted(s.tables, 7, log) && (7, log) !in s.tables.persisted
            && Allowed(s, Extract([7], None))
            && (7, log) in Step(chain, s, Extract([7], None)).tables.persisted
  {
    var s4, c := EarlyState(a, b, x, y), Config([a], x, 0);
    assert (a, x) in s4.tables.watched && (a, x).0 !in s4.addresses;
    assert 7 in [7];
    NothingFetched(chain, s4, 7);
    hide Handled;
    var s5 := Step(chain, s4, Extract([7], None));
    assert s5 == s4.(tables := s4.tables.(checks := map[7 := 1]));
    assert AlreadyWatchingLog(s5.tables, c);
  }

  /** One header, two watched pairs, and an extractor that knows only the second. */
  function EarlyState(a: Address, b: Address, x: Topic, y: Topic): State {
    State(Tables(map[7 := 1], map[7 := 0], map[(a, x) := 0, (b, y) := 0], {}), [b], [y], Some(0))
  }

  lemma UpToExtract(chain: Chain, a: Address, b: Address, x: Topic, y: Topic)
    requires a != b && x != y
    ensures var c, d := Config([a], x, 0), Config([b], y, 0);
            var s2 := Step(chain, Step(chain, FRESH, AddConfig(c, 3)), Restart);
            Step(chain, Step(chain, s2, AddConfig(d, 3)), NewHeader(7, 1))
            == EarlyState(a, b, x, y)
  {
    var c, d := Config([a], x, 0), Config([b], y, 0);
    var s1 := Step(chain, FRESH, AddConfig(c, 3));
    assert Pairs(c) == {(a, x)} && Pairs(d) == {(b, y)};
    assert s1.tables == Tables(map[], map[], map[(a, x) := 0], {});
    var s3 := Step(chain, Step(chain, s1, Restart), AddConfig(d, 3));
    assert s3.tables == Tables(map[], map[], map[(a, x) := 0, (b, y) := 0], {});
    assert s3 == State(s3.tables, [b], [y], Some(0));
    var s4 := Step(chain, s3, NewHeader(7, 1));
    assert s4.tables == EarlyState(a, b, x, y).tables;
  }

  lemma NothingFetched(chain: Chain, s: State, id: HeaderId)
    requires id in s.tables.checks && forall log :: log in chain(id) ==> log.address !in s.addresses
    ensures Handled(chain, s, [id]) == MarkHeaderChecked(s.tables, id)
  {
    assert FetchLogs(chain, s.addresses, s.topics, id) == {};
    CreateNothing(s.tables, id);
    assert [id][..0] == [];
    assert Handled(chain, s, []) == s.tables;
  }

  lemma RunSix(chain: Chain, run: seq<Event>, s4: State)
    requires |run| == 6
    requires s4 == Step(chain, Step(chain, Step(chain, Step(chain, FRESH, run[0]), run[1]), run[2]), run[3])
    ensures Run(chain, run) == Step(chain, Step(chain, s4, run[4]), run[5])
    ensures AllAllowed(chain, run) ==> Allowed(s4, run[4])
  {
    hide Step, Allowed;
    assert run[..1][..0] == run[..0] && run[..2][..1] == run[..1] && run[..3][..2] == run[..2];
    assert run[..4][..3] == run[..3] && run[..5][..4] == run[..4];
    assert Run(chain, run[..0]) == FRESH;
    assert Run(chain, run[..1]) == Step(chain, FRESH, run[0]);
    assert Run(chain, run[..2]) == Step(chain, Run(chain, run[..1]), run[1]);
    assert Run(chain, run[..3]) == Step(chain, Run(chain, run[..2]), run[2]);
    assert Run(chain, run[..4]) == s4;
    assert Run(chain, run[..5]) == Step(chain, s4, run[4]);
    assert AllAllowed(chain, run) ==> AllAllowed(chain, run[..5]);
    assert AllAllowed(chain, run[..5]) ==> Allowed(Run(chain, run[..5][..4]), run[..5][4]);
  }
}
