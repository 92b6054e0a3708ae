/** The storage watcher and its retry queue (libraries/shared/watcher/storage_watcher.go). Transformers and database
    calls may fail; a failed call changes nothing. */
module StorageRetry {
  import opened Seqs

  type Address(==, !new)

  /** A diff as fetched; content stands for block, key and value. */
  datatype Diff = Diff(address: Address, content: nat)

  /** The diff table, the queue table, how often each diff's transformer has succeeded, and the watched addresses. */
  datatype State = State(diffs: map<nat, Diff>, nextId: nat, queue: set<nat>, runs: map<nat, nat>, watched: set<Address>)

  /** created: whether inserting the diff works; executed: whether its transformer does; added: whether queueing does.
      On a tick, ids is what GetAll answers, executed the diffs whose transformer works, deleted those whose deletion
      does. */
  datatype Event =
    | Row(diff: Diff, created: bool, executed: bool, added: bool)
    | Tick(ids: seq<nat>, done: set<nat>, deleted: set<nat>)
    | Rewatch(addresses: set<Address>)

  function Runs(s: State, id: nat): nat {
    if id in s.runs then s.runs[id] else 0
  }

  function Executed(s: State, id: nat): State {
    s.(runs := s.runs[id := Runs(s, id) + 1])
  }

  predicate Duplicate(s: State, d: Diff) {
    exists id :: id in s.diffs && s.diffs[id] == d
  }

  /** A diff with its id: transformed, or queued, or neither. The queue only takes ids of persisted diffs. */
  function Attempted(s: State, d: Diff, id: nat, executed: bool, added: bool): State {
    if d.address !in s.watched then s
    else if executed then Executed(s, id)
    else if added && id in s.diffs then s.(queue := s.queue + {id})
    else s
  }

  /** A diff that could not be persisted is still attempted, with the id 0. */
  function Processed(s: State, d: Diff, created: bool, executed: bool, added: bool): State {
    if !created then Attempted(s, d, 0, executed, added)
    else if Duplicate(s, d) then s
    else Attempted(s.(diffs := s.diffs[s.nextId := d], nextId := s.nextId + 1), d, s.nextId, executed, added)
  }

  function Retried(s: State, id: nat, done: bool, deleted: bool): State {
    if id !in s.diffs then s
    else if s.diffs[id].address !in s.watched then (if deleted then s.(queue := s.queue - {id}) else s)
    else if !done then s
    else
      var t := Executed(s, id);
      if deleted then t.(queue := t.queue - {id}) else t
  }

  function RetriedAll(s: State, ids: seq<nat>, done: set<nat>, deleted: set<nat>): State {
    if ids == [] then s
    else
      var id := ids[|ids| - 1];
      Retried(RetriedAll(s, ids[..|ids| - 1], done, deleted), id, id in done, id in deleted)
  }

  function Step(s: State, e: Event): State {
    match e
    case Row(d, created, executed, added) => Processed(s, d, created, executed, added)
    case Tick(ids, done, deleted) => RetriedAll(s, ids, done, deleted)
    case Rewatch(addresses) => s.(watched := addresses)
  }

  // ---- the code ----

  class StorageWatcher {
    var diffs: map<nat, Diff>
    var nextId: nat
    var queue: set<nat>
    /** The transformers' effects: how often each diff has been transformed. */
    var runs: map<nat, nat>
    /** The addresses that have a transformer. */
    var watched: set<Address>

    ghost function Current(): State
      reads this
    {
      State(diffs, nextId, queue, runs, watched)
    }

    constructor ()
      ensures Current() == FRESH
    {
      diffs, nextId, queue, runs, watched := map[], 1, {}, map[], {};
    }

    /** The id of the new row, or whether the diff was there already. */
    method CreateStorageDiff(d: Diff, created: bool) returns (r: Result<nat, bool>)
      modifies this`diffs, this`nextId
      ensures !created ==> r == Err(false) && Current() == old(Current())
      ensures created && Duplicate(old(Current()), d) ==> r == Err(true) && Current() == old(Current())
      ensures created && !Duplicate(old(Current()), d) ==>
                && r == Ok(old(nextId)) && diffs == old(diffs)[old(nextId) := d] && nextId == old(nextId) + 1
    {
      if !created {
        return Err(false);
      }
      if exists id :: id in diffs && diffs[id] == d {
        return Err(true);
      }
      r := Ok(nextId);
      diffs, nextId := diffs[nextId := d], nextId + 1;
    }

    /** One successful run of a transformer. */
    method Execute(id: nat)
      modifies this`runs
      ensures Current() == Executed(old(Current()), id)
    {
      runs := runs[id := (if id in runs then runs[id] else 0) + 1];
    }

    method ProcessRow(d: Diff, created: bool, executed: bool, added: bool)
      modifies this
      ensures Current() == Step(old(Current()), Row(d, created, executed, added))
    {
      var diffID := 0;
      var r := CreateStorageDiff(d, created);
      match r {
        case Err(duplicate) =>
          if duplicate {
            return;
          }
        case Ok(id) => diffID := id;
      }
      if d.address !in watched {
        return;
      }
      if executed {
        Execute(diffID);
      } else if added && diffID in diffs {
        queue := queue + {diffID};
      }
    }

    method ProcessQueue(ids: seq<nat>, done: set<nat>, deleted: set<nat>)
      requires forall id :: id in ids ==> id in diffs
      modifies this`queue, this`runs
      ensures Current() == Step(old(Current()), Tick(ids, done, deleted))
    {
      ghost var s := Current();
      for i := 0 to |ids|
        invariant Current() == RetriedAll(s, ids[..i], done, deleted)
      {
        var id := ids[i];
        assert ids[..i + 1][..i] == ids[..i];
        if diffs[id].address !in watched {
          if id in deleted {
            queue := queue - {id};
          }
          continue;
        }
        if id in done {
          Execute(id);
          if id in deleted {
            queue := queue - {id};
          }
        }
      }
      assert ids[..|ids|] == ids;
    }
  }

  // ---- every run ----

  const FRESH: State := State(map[], 1, {}, map[], {})

  function Run(events: seq<Event>): State {
    if events == [] then FRESH else Step(Run(events[..|events| - 1]), events[|events| - 1])
  }

  /** Ids below nextId, a queue of persisted diffs, and no two rows alike. */
  ghost predicate Sound(s: State) {
    && (forall id :: id in s.diffs <==> 1 <= id < s.nextId)
    && (forall id :: id in s.queue ==> id in s.diffs)
    && (forall i, j :: i in s.diffs && j in s.diffs && s.diffs[i] == s.diffs[j] ==> i == j)
    && (forall id :: id in s.runs ==> id < s.nextId)
  }

  lemma {:induction false} RetriedSound(s: State, ids: seq<nat>, done: set<nat>, deleted: set<nat>)
    requires Sound(s)
    ensures var t := RetriedAll(s, ids, done, deleted);
            Sound(t) && t.diffs == s.diffs && t.watched == s.watched && t.nextId == s.nextId && t.queue <= s.queue
  {
    if ids != [] {
      RetriedSound(s, ids[..|ids| - 1], done, deleted);
    }
  }

  lemma {:induction false} RunSound(events: seq<Event>)
    ensures Sound(Run(events)) && Run(events).nextId >= 1
  {
    if events != [] {
      RunSound(events[..|events| - 1]);
      match events[|events| - 1]
      case Tick(ids, done, deleted) => RetriedSound(Run(events[..|events| - 1]), ids, done, deleted);
      case _ =>
    }
  }

  /** The diff came as a row whose insertion worked. */
  ghost predicate Came(events: seq<Event>, d: Diff) {
    exists n :: 0 <= n < |events| && events[n].Row? && events[n].diff == d && events[n].created
  }

  ghost predicate Persisted(s: State, d: Diff) {
    exists id :: id in s.diffs && s.diffs[id] == d
  }

  lemma CameSnoc(init: seq<Event>, e: Event, d: Diff)
    ensures Came(init + [e], d) <==> Came(init, d) || (e.Row? && e.diff == d && e.created)
  {
    var events := init + [e];
    assert events[|init|] == e && forall n :: 0 <= n < |init| ==> events[n] == init[n];
  }

  lemma StepPersists(s: State, e: Event, d: Diff)
    requires Sound(s)
    ensures Persisted(Step(s, e), d) <==> Persisted(s, d) || (e.Row? && e.diff == d && e.created)
  {
    var t := Step(s, e);
    match e
    case Tick(ids, done, deleted) => RetriedSound(s, ids, done, deleted);
    case Rewatch(_) =>
    case Row(r, created, _, _) =>
      forall id | id in s.diffs ensures id in t.diffs && t.diffs[id] == s.diffs[id] {
      }
      if created && !Duplicate(s, r) {
        assert s.nextId in t.diffs && t.diffs[s.nextId] == r;
      }
  }

  /** In every run exactly the diffs that came with a working insertion are persisted. */
  lemma {:induction false} PersistedIff(events: seq<Event>, d: Diff)
    ensures Persisted(Run(events), d) <==> Came(events, d)
  {
    if events != [] {
      hide Step, Came, Sound, Persisted;
      var init, e := events[..|events| - 1], events[|events| - 1];
      PersistedIff(init, d);
      RunSound(init);
      StepPersists(Run(init), e, d);
      CameSnoc(init, e, d);
      assert events == init + [e];
    }
  }

  // ---- one diff ----

  lemma {:induction false} RetriedOther(s: State, ids: seq<nat>, done: set<nat>, deleted: set<nat>, id: nat)
    requires id !in ids
    ensures var t := RetriedAll(s, ids, done, deleted);
            && (id in t.queue <==> id in s.queue) && Runs(t, id) == Runs(s, id)
            && t.diffs == s.diffs && t.watched == s.watched
  {
    if ids != [] {
      RetriedOther(s, ids[..|ids| - 1], done, deleted, id);
    }
  }

  lemma {:induction false} RetriedOnce(s: State, ids: seq<nat>, done: set<nat>, deleted: set<nat>, id: nat)
    requires Distinct(ids) && id in ids
    ensures var t, u := RetriedAll(s, ids, done, deleted), Retried(s, id, id in done, id in deleted);
            (id in t.queue <==> id in u.queue) && Runs(t, id) == Runs(u, id)
  {
    var init, last := ids[..|ids| - 1], ids[|ids| - 1];
    if last == id {
      assert forall i :: 0 <= i < |init| ==> ids[i] != ids[|ids| - 1];
      RetriedOther(s, init, done, deleted, id);
    } else {
      RetriedOnce(s, init, done, deleted, id);
    }
  }

  /** What has become of a persisted diff. Ignored: its address was not watched when it came. Forgotten: its transformer
      failed and queueing it failed too. Discarded: it was taken from the queue because its address was not watched. */
  datatype Fate = Ignored | Forgotten | Queued | Done | Discarded

  /** The fate of the diff with this id after one more event, s being the state before. */
  function NextFate(s: State, f: Option<Fate>, id: nat, e: Event): Option<Fate> {
    match e
    case Row(d, created, executed, added) =>
      if created && !Duplicate(s, d) && id == s.nextId then
        Some(if d.address !in s.watched then Ignored else if executed then Done else if added then Queued else Forgotten)
      else f
    case Tick(ids, done, deleted) =>
      if f == Some(Queued) && id in ids && id in s.diffs then
        if s.diffs[id].address !in s.watched then Some(if id in deleted then Discarded else Queued)
        else Some(if id in done then Done else Queued)
      else f
    case Rewatch(_) => f
  }

  function FateOf(events: seq<Event>, id: nat): Option<Fate> {
    if events == [] then None
    else
      var init := events[..|events| - 1];
      NextFate(Run(init), FateOf(init, id), id, events[|events| - 1])
  }

  /** GetAll answers the queue, each diff once. */
  ghost predicate Listed(s: State, e: Event) {
    e.Tick? ==> Distinct(e.ids) && forall id :: id in e.ids ==> id in s.queue
  }

  /** Moreover it does answer all of it, and inserts, queueing and deletions work. */
  ghost predicate CallsWork(s: State, e: Event) {
    match e
    case Row(_, created, _, added) => created && added
    case Tick(ids, _, deleted) =>
      Distinct(ids) && (forall id :: id in ids <==> id in s.queue) && (forall id :: id in ids ==> id in deleted)
    case Rewatch(_) => true
  }

  ghost predicate AlwaysListed(events: seq<Event>) {
    events == [] || (AlwaysListed(events[..|events| - 1]) && Listed(Run(events[..|events| - 1]), events[|events| - 1]))
  }

  ghost predicate AlwaysWork(events: seq<Event>) {
    events == [] || (AlwaysWork(events[..|events| - 1]) && CallsWork(Run(events[..|events| - 1]), events[|events| - 1]))
  }

  /** A persisted diff is transformed exactly once or queued, never both. */
  ghost predicate Settled(s: State, f: Option<Fate>, id: nat) {
    && (id in s.diffs <==> f.Some?)
    && (id in s.queue <==> f == Some(Queued))
    && (id >= 1 ==> Runs(s, id) == if f == Some(Done) then 1 else 0)
  }

  lemma SettledRow(s: State, f: Option<Fate>, id: nat, e: Event)
    requires Sound(s) && s.nextId >= 1 && Settled(s, f, id) && e.Row?
    ensures Settled(Step(s, e), NextFate(s, f, id, e), id)
  {
  }

  lemma SettledTick(s: State, f: Option<Fate>, id: nat, e: Event)
    requires Sound(s) && Settled(s, f, id) && e.Tick? && CallsWork(s, e)
    ensures Settled(Step(s, e), NextFate(s, f, id, e), id)
  {
    RetriedSound(s, e.ids, e.done, e.deleted);
    if id in e.ids {
      RetriedOnce(s, e.ids, e.done, e.deleted, id);
    } else {
      RetriedOther(s, e.ids, e.done, e.deleted, id);
    }
    hide RetriedAll, Sound;
  }

  /** While database calls work, in every run, however transformers fail: a persisted diff has been transformed exactly
      once if its fate is Done, is queued exactly if it is Queued, and is never both. */
  lemma {:induction false} ExactlyOnceOrQueued(events: seq<Event>, id: nat)
    requires AlwaysWork(events)
    ensures Settled(Run(events), FateOf(events, id), id)
  {
    if events != [] {
      var init, e := events[..|events| - 1], events[|events| - 1];
      ExactlyOnceOrQueued(init, id);
      RunSound(init);
      hide Settled, Sound, NextFate, CallsWork;
      match e
      case Row(_, _, _, _) => SettledRow(Run(init), FateOf(init, id), id, e);
      case Tick(_, _, _) => SettledTick(Run(init), FateOf(init, id), id, e);
      case Rewatch(addresses) => SettledRewatch(Run(init), FateOf(init, id), id, addresses);
    }
  }

  lemma SettledRewatch(s: State, f: Option<Fate>, id: nat, addresses: set<Address>)
    requires Settled(s, f, id)
    ensures Settled(s.(watched := addresses), NextFate(s, f, id, Rewatch(addresses)), id)
  {
  }

  /** Watched from the start of the run on. */
  ghost predicate AlwaysWatched(events: seq<Event>, a: Address) {
    events != [] && events[0].Rewatch? && forall i :: 0 <= i < |events| && events[i].Rewatch? ==> a in events[i].addresses
  }

  lemma {:induction false} StaysWatched(events: seq<Event>, a: Address)
    requires AlwaysWatched(events, a)
    ensures a in Run(events).watched
  {
    var init, e := events[..|events| - 1], events[|events| - 1];
    if init == [] {
      assert a in e.addresses;
    } else {
      assert init[0] == events[0];
      assert forall i :: 0 <= i < |init| ==> init[i] == events[i];
      StaysWatched(init, a);
      RunSound(init);
      match e
      case Tick(ids, done, deleted) => RetriedSound(Run(init), ids, done, deleted);
      case Rewatch(_) => assert a in e.addresses;
      case _ =>
    }
  }

  /** Of an address watched all the time no diff is lost: it has been transformed or waits in the queue. */
  lemma {:induction false} WatchedNotLost(events: seq<Event>, id: nat)
    requires AlwaysWork(events) && id in Run(events).diffs && AlwaysWatched(events, Run(events).diffs[id].address)
    ensures FateOf(events, id) in {Some(Done), Some(Queued)}
  {
    var init, e, a := events[..|events| - 1], events[|events| - 1], Run(events).diffs[id].address;
    RunSound(init);
    if init != [] {
      assert init[0] == events[0];
      assert forall i :: 0 <= i < |init| ==> init[i] == events[i];
      StaysWatched(init, a);
      DiffsStay(Run(init), e, id);
      if id in Run(init).diffs {
        WatchedNotLost(init, id);
      }
      hide AlwaysWatched, Run;
      ExactlyOnceOrQueued(init, id);
    }
  }

  lemma DiffsStay(s: State, e: Event, id: nat)
    requires Sound(s)
    ensures id in s.diffs ==> id in Step(s, e).diffs && Step(s, e).diffs[id] == s.diffs[id]
    ensures id !in s.diffs && id in Step(s, e).diffs ==>
              e.Row? && e.created && !Duplicate(s, e.diff) && id == s.nextId && Step(s, e).diffs[id] == e.diff
  {
    match e
    case Tick(ids, done, deleted) => RetriedSound(s, ids, done, deleted);
    case _ =>
  }

  /** After the queue has been processed it holds no diff of an unwatched address. */
  lemma NoUnwatchedQueued(events: seq<Event>, e: Event, id: nat)
    requires AlwaysWork(events) && e.Tick? && CallsWork(Run(events), e)
    ensures var s := Step(Run(events), e);
            id in s.queue ==> id in s.diffs && s.diffs[id].address in s.watched
  {
    var s := Run(events);
    RunSound(events);
    RetriedSound(s, e.ids, e.done, e.deleted);
    if id in e.ids {
      RetriedOnce(s, e.ids, e.done, e.deleted, id);
    } else {
      RetriedOther(s, e.ids, e.done, e.deleted, id);
    }
    hide RetriedAll, Run;
  }

  // ---- when database calls fail ----

  /** A diff that is to be transformed has been, at least once, or is queued. */
  ghost predicate Pending(s: State, f: Option<Fate>, id: nat) {
    && (id in s.diffs <==> f.Some?)
    && (f == Some(Queued) ==> id in s.queue)
    && (f == Some(Done) ==> Runs(s, id) >= 1)
  }

  lemma PendingTick(s: State, f: Option<Fate>, id: nat, e: Event)
    requires Sound(s) && Pending(s, f, id) && e.Tick? && Listed(s, e)
    ensures Pending(Step(s, e), NextFate(s, f, id, e), id)
  {
    RetriedSound(s, e.ids, e.done, e.deleted);
    if id in e.ids {
      RetriedOnce(s, e.ids, e.done, e.deleted, id);
    } else {
      RetriedOther(s, e.ids, e.done, e.deleted, id);
    }
    hide RetriedAll, Sound;
  }

  lemma PendingRow(s: State, f: Option<Fate>, id: nat, e: Event)
    requires Sound(s) && s.nextId >= 1 && Pending(s, f, id) && e.Row?
    ensures Pending(Step(s, e), NextFate(s, f, id, e), id)
  {
  }

  /** Whichever calls fail: a persisted diff that was watched when it came is not lost, unless queueing it failed or it
      was discarded as unwatched. */
  lemma {:induction false} AtLeastOnceOrQueued(events: seq<Event>, id: nat)
    requires AlwaysListed(events)
    ensures Pending(Run(events), FateOf(events, id), id)
  {
    if events != [] {
      var init, e := events[..|events| - 1], events[|events| - 1];
      AtLeastOnceOrQueued(init, id);
      RunSound(init);
      hide Pending, Sound, NextFate, Listed;
      match e
      case Row(_, _, _, _) => PendingRow(Run(init), FateOf(init, id), id, e);
      case Tick(_, _, _) => PendingTick(Run(init), FateOf(init, id), id, e);
      case Rewatch(addresses) => PendingRewatch(Run(init), FateOf(init, id), id, addresses);
    }
  }

  lemma PendingRewatch(s: State, f: Option<Fate>, id: nat, addresses: set<Address>)
    requires Pending(s, f, id)
    ensures Pending(s.(watched := addresses), NextFate(s, f, id, Rewatch(addresses)), id)
  {
  }

  /** If the diff is retried successfully on a tick, its deletion from the queue works. */
  ghost predicate DeletedOnceDone(s: State, e: Event, id: nat) {
    e.Tick? && id in e.ids && id in e.done && id in s.diffs && s.diffs[id].address in s.watched ==> id in e.deleted
  }

  /** That is so on every tick of a run. */
  ghost predicate AlwaysDeleted(events: seq<Event>, id: nat) {
    events == []
    || (AlwaysDeleted(events[..|events| - 1], id)
        && DeletedOnceDone(Run(events[..|events| - 1]), events[|events| - 1], id))
  }

  /** Not transformed twice, and not queued once transformed. */
  ghost predicate OnceAtMost(s: State, id: nat) {
    Runs(s, id) <= 1 && (id in s.queue ==> Runs(s, id) == 0)
  }

  lemma OnceTick(s: State, e: Event, id: nat)
    requires Sound(s) && OnceAtMost(s, id) && e.Tick? && Listed(s, e)
    ensures DeletedOnceDone(s, e, id) ==> OnceAtMost(Step(s, e), id)
    ensures !DeletedOnceDone(s, e, id) ==> id in Step(s, e).queue && Runs(Step(s, e), id) == 1
  {
    if id in e.ids {
      RetriedOnce(s, e.ids, e.done, e.deleted, id);
    } else {
      RetriedOther(s, e.ids, e.done, e.deleted, id);
    }
    hide RetriedAll;
  }

  lemma OnceStep(s: State, e: Event, id: nat)
    requires Sound(s) && s.nextId >= 1 && OnceAtMost(s, id) && Listed(s, e) && id >= 1
    ensures DeletedOnceDone(s, e, id) ==> OnceAtMost(Step(s, e), id)
    ensures !DeletedOnceDone(s, e, id) ==> id in Step(s, e).queue && Runs(Step(s, e), id) == 1
  {
    if e.Tick? {
      OnceTick(s, e, id);
    }
  }

  lemma {:induction false} OnceWhileDeleted(events: seq<Event>, id: nat)
    requires AlwaysListed(events) && AlwaysDeleted(events, id) && id >= 1
    ensures OnceAtMost(Run(events), id)
  {
    if events != [] {
      hide Step, Sound, OnceAtMost, Listed, DeletedOnceDone;
      var init := events[..|events| - 1];
      OnceWhileDeleted(init, id);
      RunSound(init);
      OnceStep(Run(init), events[|events| - 1], id);
    } else {
      assert Runs(FRESH, id) == 0;
    }
  }

  /** At some point of the run the diff has been transformed and is still queued. */
  ghost predicate QueuedThoughDone(events: seq<Event>, id: nat) {
    exists n :: 0 <= n <= |events| && id in Run(events[..n]).queue && Runs(Run(events[..n]), id) >= 1
  }

  lemma {:induction false} FirstFailure(events: seq<Event>, id: nat) returns (n: nat)
    requires AlwaysListed(events) && !AlwaysDeleted(events, id) && id >= 1
    ensures n <= |events| && id in Run(events[..n]).queue && Runs(Run(events[..n]), id) == 1
  {
    var init := events[..|events| - 1];
    if AlwaysDeleted(init, id) {
      n := |events|;
      assert events[..n] == events;
      OnceWhileDeleted(init, id);
      RunSound(init);
      OnceStep(Run(init), events[n - 1], id);
    } else {
      n := FirstFailure(init, id);
      assert init[..n] == events[..n];
    }
  }

  lemma {:induction false} ListedPrefix(events: seq<Event>, id: nat, n: nat)
    requires AlwaysListed(events) && AlwaysDeleted(events, id) && n <= |events|
    ensures AlwaysListed(events[..n]) && AlwaysDeleted(events[..n], id)
  {
    if n < |events| {
      assert events[..|events| - 1][..n] == events[..n];
      ListedPrefix(events[..|events| - 1], id, n);
    } else {
      assert events[..n] == events;
    }
  }

  /** Whichever other calls fail: a persisted diff, under its id, is never queued once it has been transformed if and
      only if, each time it is retried successfully, deleting it works. */
  lemma AtMostOnceIff(events: seq<Event>, id: nat)
    requires AlwaysListed(events) && id >= 1
    ensures AlwaysDeleted(events, id) <==> !QueuedThoughDone(events, id)
    ensures AlwaysDeleted(events, id) ==> Runs(Run(events), id) <= 1
  {
    if AlwaysDeleted(events, id) {
      forall n | 0 <= n <= |events| ensures !(id in Run(events[..n]).queue && Runs(Run(events[..n]), id) >= 1) {
        ListedPrefix(events, id, n);
        OnceWhileDeleted(events[..n], id);
      }
      OnceWhileDeleted(events, id);
    } else {
      var n := FirstFailure(events, id);
    }
  }

  // ---- by content ----

  /** How often a tick runs the transformer of the diff d. */
  function TickRuns(s: State, ids: seq<nat>, done: set<nat>, d: Diff): nat {
    if ids == [] then 0
    else
      var id := ids[|ids| - 1];
      TickRuns(s, ids[..|ids| - 1], done, d)
      + if id in s.diffs && s.diffs[id] == d && d.address in s.watched && id in done then 1 else 0
  }

  /** How often a step runs the transformer of the diff d, persisted or not. */
  function StepRuns(s: State, e: Event, d: Diff): nat {
    match e
    case Row(r, created, executed, _) =>
      if r == d && d.address in s.watched && executed && !(created && Duplicate(s, d)) then 1 else 0
    case Tick(ids, done, _) => TickRuns(s, ids, done, d)
    case Rewatch(_) => 0
  }

  /** How often the transformer of the diff d has succeeded. */
  function AllRuns(events: seq<Event>, d: Diff): nat {
    if events == [] then 0
    else
      AllRuns(events[..|events| - 1], d) + StepRuns(Run(events[..|events| - 1]), events[|events| - 1], d)
  }

  /** The diff came as a row whose insertion failed, and was transformed all the same. */
  predicate RanBare(s: State, e: Event, d: Diff) {
    e.Row? && e.diff == d && d.address in s.watched && e.executed && !e.created
  }

  /** How often that happened. */
  function BareRuns(events: seq<Event>, d: Diff): nat {
    if events == [] then 0
    else
      BareRuns(events[..|events| - 1], d)
      + if RanBare(Run(events[..|events| - 1]), events[|events| - 1], d) then 1 else 0
  }

  /** Runs under the id of the row that holds d, if there is one. */
  ghost predicate RunsOf(s: State, d: Diff, n: int) {
    && (forall id :: id in s.diffs && s.diffs[id] == d ==> Runs(s, id) == n)
    && (!Duplicate(s, d) ==> n == 0)
  }

  lemma {:induction false} TickRunsOf(s: State, ids: seq<nat>, done: set<nat>, deleted: set<nat>, d: Diff, n: int)
    requires Sound(s) && RunsOf(s, d, n)
    ensures RunsOf(RetriedAll(s, ids, done, deleted), d, n + TickRuns(s, ids, done, d))
  {
    if ids != [] {
      var init, id := ids[..|ids| - 1], ids[|ids| - 1];
      TickRunsOf(s, init, done, deleted, d, n);
      RetriedSound(s, init, done, deleted);
      RetriedRunsOf(RetriedAll(s, init, done, deleted), id, id in done, id in deleted, d,
                    n + TickRuns(s, init, done, d));
    }
  }

  lemma RetriedRunsOf(s: State, id: nat, done: bool, deleted: bool, d: Diff, n: int)
    requires Sound(s) && RunsOf(s, d, n)
    ensures RunsOf(Retried(s, id, done, deleted), d,
                   n + if id in s.diffs && s.diffs[id] == d && d.address in s.watched && done then 1 else 0)
  {
  }

  lemma StepRunsOf(s: State, e: Event, d: Diff, n: int)
    requires Sound(s) && s.nextId >= 1 && RunsOf(s, d, n)
    ensures RunsOf(Step(s, e), d, n + StepRuns(s, e, d) - if RanBare(s, e, d) then 1 else 0)
  {
    match e
    case Row(r, created, executed, added) => RowRunsOf(s, r, created, executed, added, d, n);
    case Tick(ids, done, deleted) => TickRunsOf(s, ids, done, deleted, d, n);
    case Rewatch(_) =>
  }

  lemma RowRunsOf(s: State, r: Diff, created: bool, executed: bool, added: bool, d: Diff, n: int)
    requires Sound(s) && s.nextId >= 1 && RunsOf(s, d, n)
    ensures RunsOf(Processed(s, r, created, executed, added), d,
                   n + if r == d && d.address in s.watched && executed && created && !Duplicate(s, d) then 1 else 0)
  {
    var t := Processed(s, r, created, executed, added);
    if created && !Duplicate(s, r) {
      assert Runs(s, s.nextId) == 0;
      assert t.diffs[s.nextId] == r;
    }
    if id :| id in s.diffs && s.diffs[id] == d {
      assert id in t.diffs && t.diffs[id] == d;
    }
  }

  lemma {:induction false} RunsByContent(events: seq<Event>, d: Diff)
    ensures RunsOf(Run(events), d, AllRuns(events, d) - BareRuns(events, d))
  {
    if events != [] {
      hide Step, StepRuns, RanBare, RunsOf, Sound;
      var init := events[..|events| - 1];
      RunsByContent(init, d);
      RunSound(init);
      StepRunsOf(Run(init), events[|events| - 1], d, AllRuns(init, d) - BareRuns(init, d));
    } else {
      assert forall id :: id !in FRESH.diffs;
    }
  }

  /** A row whose insertion fails, of a watched address, and whose transformer works. */
  predicate RunsBare(s: State, e: Event) {
    e.Row? && !e.created && e.diff.address in s.watched && e.executed
  }

  function AllBare(events: seq<Event>): nat {
    if events == [] then 0
    else AllBare(events[..|events| - 1]) + if RunsBare(Run(events[..|events| - 1]), events[|events| - 1]) then 1 else 0
  }

  lemma {:induction false} TickNotZero(s: State, ids: seq<nat>, done: set<nat>, deleted: set<nat>)
    requires 0 !in s.diffs
    ensures var t := RetriedAll(s, ids, done, deleted); t.diffs == s.diffs && Runs(t, 0) == Runs(s, 0)
  {
    if ids != [] {
      TickNotZero(s, ids[..|ids| - 1], done, deleted);
    }
  }

  lemma StepBare(s: State, e: Event)
    requires Sound(s) && s.nextId >= 1
    ensures Runs(Step(s, e), 0) == Runs(s, 0) + if RunsBare(s, e) then 1 else 0
  {
    match e
    case Tick(ids, done, deleted) => TickNotZero(s, ids, done, deleted);
    case _ =>
  }

  /** A diff that could not be persisted is attempted all the same: in every run the transformers have worked with the
      id 0 as often as a row came whose insertion failed, whose address was watched and whose transformer worked. */
  lemma {:induction false} BareCounted(events: seq<Event>)
    ensures Runs(Run(events), 0) == AllBare(events)
  {
    if events != [] {
      hide Step, Sound, RunsBare;
      BareCounted(events[..|events| - 1]);
      RunSound(events[..|events| - 1]);
      StepBare(Run(events[..|events| - 1]), events[|events| - 1]);
    }
  }

  /** Counted by content: a diff runs under the id it is persisted with and, besides, each time it comes as a row whose
      insertion fails. */
  lemma RunsCounted(events: seq<Event>, id: nat)
    requires id in Run(events).diffs
    ensures var d := Run(events).diffs[id];
            AllRuns(events, d) == Runs(Run(events), id) + BareRuns(events, d)
  {
    RunsByContent(events, Run(events).diffs[id]);
    hide Run, AllRuns, BareRuns;
  }

  /** So a persisted diff whose deletions work runs at most once beside its unpersisted copies. */
  lemma AtMostOnceByContent(events: seq<Event>, id: nat)
    requires AlwaysListed(events) && AlwaysDeleted(events, id) && id >= 1 && id in Run(events).diffs
    ensures var d := Run(events).diffs[id];
            BareRuns(events, d) <= AllRuns(events, d) <= BareRuns(events, d) + 1
  {
    RunsCounted(events, id);
    OnceWhileDeleted(events, id);
    hide Run, AllRuns, BareRuns, AlwaysListed, AlwaysDeleted;
  }

  /** From then on the next successful retry transforms it again. */
  lemma RunsAgain(events: seq<Event>, e: Event, id: nat)
    requires AlwaysListed(events + [e]) && e.Tick? && id in e.ids && id in e.done
    requires id in Run(events).queue && id in Run(events).diffs
    requires Run(events).diffs[id].address in Run(events).watched
    ensures Runs(Run(events + [e]), id) == Runs(Run(events), id) + 1
  {
    assert (events + [e])[..|events|] == events;
    RunSound(events);
    RetriedOnce(Run(events), e.ids, e.done, e.deleted, id);
  }

  /** A run that gets there: the deletion fails once. */
  lemma TransformedTwice(a: Address)
    ensures var run := [Rewatch({a}), Row(Diff(a, 0), true, false, true), Tick([1], {1}, {}), Tick([1], {1}, {1})];
            AlwaysListed(run) && Runs(Run(run), 1) == 2
  {
    var d := Diff(a, 0);
    var run := [Rewatch({a}), Row(d, true, false, true), Tick([1], {1}, {}), Tick([1], {1}, {1})];
    var s2 := State(map[1 := d], 2, {1}, map[], {a});
    var s3 := State(map[1 := d], 2, {1}, map[1 := 1], {a});
    var s4 := State(map[1 := d], 2, {}, map[1 := 2], {a});
    RetryOne(s2, 1, {1}, {});
    RetryOne(s3, 1, {1}, {1});
    assert s2.runs[1 := 1] == s3.runs && s3.runs[1 := 2] == s4.runs && s3.queue - {1} == s4.queue;
    assert Step(s2, run[2]) == s3;
    assert Step(s3, run[3]) == s4;
    assert Listed(s2, run[2]) && Listed(s3, run[3]);
    FirstSteps(a);
    hide Step;
    assert run[..1][..0] == run[..0] && run[..2][..1] == run[..1] && run[..3][..2] == run[..2];
    assert run[..4] == run && run[..4][..3] == run[..3];
    assert Run(run[..0]) == FRESH;
    assert Run(run[..1]) == FRESH.(watched := {a});
    assert Run(run[..2]) == s2;
    assert Run(run[..3]) == s3;
    assert Run(run) == s4;
    hide Run;
    assert run[..1][0] == run[0] && run[..2][1] == run[1] && run[..3][2] == run[2];
    assert AlwaysListed(run[..0]);
    assert AlwaysListed(run[..1]);
    assert AlwaysListed(run[..2]);
    assert AlwaysListed(run[..3]);
  }

  lemma RetryOne(s: State, id: nat, done: set<nat>, deleted: set<nat>)
    ensures RetriedAll(s, [id], done, deleted) == Retried(s, id, id in done, id in deleted)
  {
    assert [id][..0] == [];
  }

  lemma FirstSteps(a: Address)
    ensures Step(FRESH, Rewatch({a})) == FRESH.(watched := {a})
    ensures Step(FRESH.(watched := {a}), Row(Diff(a, 0), true, false, true))
            == State(map[1 := Diff(a, 0)], 2, {1}, map[], {a})
  {
    assert FRESH.queue + {1} == {1};
  }
}
