/** The watcher that puts payloads back in order (pkg/watcher/service.go, pkg/watcher/eth/repository.go). Each select
    arm is one step; calls on the queue table may fail. */
module OrderedWatcher {
  import opened Seqs

  type Data(!new, ==)

  datatype Payload = Payload(height: int, data: Data)

  /** What the two goroutines can receive. A payload may carry an error, and storing it in the queue may fail; so may
      the read on a tick. */
  datatype Event = Arrival(payload: Payload, error: bool, stored: bool) | Tick(read: bool)

  datatype State = State(index: int, queue: map<int, Data>, readied: seq<Payload>)

  function Ready(s: State, p: Payload): State {
    State(s.index + 1, s.queue, s.readied + [p])
  }

  /** One select arm. */
  function Step(s: State, e: Event): State {
    match e
    case Arrival(p, error, stored) =>
      if error then s
      else if p.height == s.index then Ready(s, p)
      else if stored then s.(queue := s.queue[p.height := p.data])
      else s
    case Tick(read) =>
      if read && s.index in s.queue then
        Ready(s, Payload(s.index, s.queue[s.index])).(queue := s.queue - {s.index})
      else s
  }

  function Run(start: int, events: seq<Event>): State {
    if events == [] then State(start, map[], []) else Step(Run(start, events[..|events| - 1]), events[|events| - 1])
  }

  // ---- the code ----

  const VACUUM_THRESHOLD := 5000

  class Repository {
    /** The queue table, at most one row a height. */
    var queue: map<int, Data>
    var deleteCalls: nat

    constructor ()
      ensures queue == map[] && deleteCalls == 0
    {
      queue, deleteCalls := map[], 0;
    }

    method QueueData(p: Payload, ok: bool)
      modifies this`queue
      ensures queue == if ok then old(queue)[p.height := p.data] else old(queue)
    {
      if ok {
        queue := queue[p.height := p.data];
      }
    }

    /** The row at a height, removed from the table, and the next height; an error if there is none or the call fails.
        */
    method GetQueueData(height: int, ok: bool) returns (r: Option<Payload>, next: int)
      requires deleteCalls < VACUUM_THRESHOLD
      modifies this
      ensures deleteCalls < VACUUM_THRESHOLD
      ensures if ok && height in old(queue)
              then r == Some(Payload(height, old(queue)[height])) && next == height + 1
                   && queue == old(queue) - {height}
                   && deleteCalls == (old(deleteCalls) + 1) % VACUUM_THRESHOLD
              else r == None && next == height && queue == old(queue) && deleteCalls == old(deleteCalls)
    {
      if !ok || height !in queue {
        return None, height;
      }
      var data := queue[height];
      queue := queue - {height};
      deleteCalls := deleteCalls + 1;
      next := height + 1;
      r := Some(Payload(height, data));
      if deleteCalls >= VACUUM_THRESHOLD {
        deleteCalls := 0;
      }
    }
  }

  class Service {
    const repository: Repository
    var payloadIndex: int
    /** What was handed to ReadyData, in order. */
    var readied: seq<Payload>

    ghost predicate Valid()
      reads this, repository
    {
      repository.deleteCalls < VACUUM_THRESHOLD
    }

    ghost function Current(): State
      reads this, repository
    {
      State(payloadIndex, repository.queue, readied)
    }

    constructor (start: int)
      ensures Valid() && fresh(repository)
      ensures Current() == Run(start, [])
    {
      repository := new Repository();
      payloadIndex, readied := start, [];
    }

    method OnPayload(payload: Payload, error: bool, stored: bool)
      requires Valid()
      modifies this, repository
      ensures Valid() && Current() == Step(old(Current()), Arrival(payload, error, stored))
    {
      if error {
        return;
      }
      if payload.height == payloadIndex {
        readied := readied + [payload];
        payloadIndex := payloadIndex + 1;
      } else {
        repository.QueueData(payload, stored);
      }
    }

    method OnTick(read: bool)
      requires Valid()
      modifies this, repository
      ensures Valid() && Current() == Step(old(Current()), Tick(read))
    {
      var queueData, newIndex := repository.GetQueueData(payloadIndex, read);
      if queueData.None? {
        return;
      }
      payloadIndex := newIndex;
      readied := readied + [queueData.value];
    }
  }

  // ---- order ----

  /** The heights handed on are start, start + 1, ..., index - 1. */
  ghost predicate InOrder(start: int, s: State) {
    && s.index == start + |s.readied|
    && forall i :: 0 <= i < |s.readied| ==> s.readied[i].height == start + i
  }

  lemma {:induction false} ReadiedInOrder(start: int, events: seq<Event>)
    ensures InOrder(start, Run(start, events))
  {
    if events != [] {
      ReadiedInOrder(start, events[..|events| - 1]);
    }
  }

  // ---- at once ----

  /** A payload without error at the index, or a tick that reads a queued one. */
  predicate HandsOn(s: State, e: Event) {
    match e
    case Arrival(p, error, _) => !error && p.height == s.index
    case Tick(read) => read && s.index in s.queue
  }

  function TimesHandedOn(start: int, events: seq<Event>): nat {
    if events == [] then 0
    else
      var init := events[..|events| - 1];
      TimesHandedOn(start, init) + if HandsOn(Run(start, init), events[|events| - 1]) then 1 else 0
  }

  /** In every run one payload is handed on for each of those, and none otherwise. */
  lemma {:induction false} HandedOnCount(start: int, events: seq<Event>)
    ensures |Run(start, events).readied| == TimesHandedOn(start, events)
  {
    if events != [] {
      HandedOnCount(start, events[..|events| - 1]);
    }
  }

  /** The payloads without error come in the order of their heights, from the start on. */
  ghost predicate InSequence(start: int, events: seq<Event>) {
    var ps := Accepted(events);
    forall i :: 0 <= i < |ps| ==> ps[i].height == start + i
  }

  /** Then each is handed on at once, whatever errors and ticks come between, and none is ever queued. */
  lemma {:induction false} InSequenceAtOnce(start: int, events: seq<Event>)
    requires InSequence(start, events)
    ensures Run(start, events) == State(start + |Accepted(events)|, map[], Accepted(events))
  {
    if events != [] {
      var init, e := events[..|events| - 1], events[|events| - 1];
      var before, now := Accepted(init), Accepted(events);
      assert now == before + AcceptedBy(e);
      assert forall i :: 0 <= i < |before| ==> now[i] == before[i];
      InSequenceAtOnce(start, init);
      if AcceptedBy(e) != [] {
        assert now[|before|] == e.payload;
      }
    }
  }

  // ---- nothing disappears ----

  /** A payload received without error. */
  function AcceptedBy(e: Event): seq<Payload> {
    if e.Arrival? && !e.error then [e.payload] else []
  }

  /** A queued payload that a later one of the same height takes the place of. */
  function OverwrittenBy(s: State, e: Event): seq<Payload> {
    if e.Arrival? && !e.error && e.stored && e.payload.height != s.index && e.payload.height in s.queue
    then [Payload(e.payload.height, s.queue[e.payload.height])] else []
  }

  /** A payload whose storing in the queue fails. */
  function NotStoredBy(s: State, e: Event): seq<Payload> {
    if e.Arrival? && !e.error && !e.stored && e.payload.height != s.index then [e.payload] else []
  }

  function Accepted(events: seq<Event>): seq<Payload> {
    if events == [] then [] else Accepted(events[..|events| - 1]) + AcceptedBy(events[|events| - 1])
  }

  function Overwritten(start: int, events: seq<Event>): seq<Payload> {
    if events == [] then []
    else
      var init := events[..|events| - 1];
      Overwritten(start, init) + OverwrittenBy(Run(start, init), events[|events| - 1])
  }

  function NotStored(start: int, events: seq<Event>): seq<Payload> {
    if events == [] then []
    else
      var init := events[..|events| - 1];
      NotStored(start, init) + NotStoredBy(Run(start, init), events[|events| - 1])
  }

  function InQueue(s: State, p: Payload): nat {
    if p.height in s.queue && s.queue[p.height] == p.data then 1 else 0
  }

  function Times(ps: seq<Payload>, p: Payload): nat {
    multiset(ps)[p]
  }

  lemma TimesAppend(ps: seq<Payload>, qs: seq<Payload>, p: Payload)
    ensures Times(ps + qs, p) == Times(ps, p) + Times(qs, p)
  {
  }

  lemma TimesOne(q: Payload, p: Payload)
    ensures Times([q], p) == if p == q then 1 else 0
    ensures Times([], p) == 0
  {
  }

  /** One step moves no payload in or out except through the four lists. */
  lemma StepKeeps(s: State, e: Event, p: Payload)
    ensures Times(s.readied, p) + InQueue(s, p) + Times(AcceptedBy(e), p)
            == Times(Step(s, e).readied, p) + InQueue(Step(s, e), p)
               + Times(OverwrittenBy(s, e), p) + Times(NotStoredBy(s, e), p)
  {
    hide Times;
    TimesOne(p, p);
    match e
    case Arrival(q, _, _) =>
      TimesOne(q, p);
      TimesAppend(s.readied, [q], p);
      if q.height in s.queue {
        TimesOne(Payload(q.height, s.queue[q.height]), p);
      }
    case Tick(_) =>
      if s.index in s.queue {
        var q := Payload(s.index, s.queue[s.index]);
        TimesOne(q, p);
        TimesAppend(s.readied, [q], p);
      }
  }

  /** Every payload received without error was handed on, is queued, was overwritten by a later one of its height, or
      could not be stored; and each only once. */
  lemma {:induction false} NothingLost(start: int, events: seq<Event>, p: Payload)
    ensures Times(Accepted(events), p)
            == Times(Run(start, events).readied, p) + InQueue(Run(start, events), p)
               + Times(Overwritten(start, events), p) + Times(NotStored(start, events), p)
  {
    if events != [] {
      hide Times, Step, InQueue, AcceptedBy, OverwrittenBy, NotStoredBy;
      var init, e := events[..|events| - 1], events[|events| - 1];
      NothingLost(start, init, p);
      var s := Run(start, init);
      StepKeeps(s, e, p);
      TimesAppend(Accepted(init), AcceptedBy(e), p);
      TimesAppend(Overwritten(start, init), OverwrittenBy(s, e), p);
      TimesAppend(NotStored(start, init), NotStoredBy(s, e), p);
    }
  }

  // ---- draining ----

  /** What arrived at each height, if every height arrives at most once, without error, and is stored. */
  function Arrived(events: seq<Event>): map<int, Data> {
    if events == [] then map[]
    else
      var before, e := Arrived(events[..|events| - 1]), events[|events| - 1];
      if e.Arrival? then before[e.payload.height := e.payload.data] else before
  }

  ghost predicate Smooth(start: int, events: seq<Event>) {
    events == []
    || (var init, e := events[..|events| - 1], events[|events| - 1];
        && Smooth(start, init)
        && (e.Arrival? ==>
              !e.error && e.stored && start <= e.payload.height && e.payload.height !in Arrived(init)))
  }

  /** What has arrived is either handed on or queued. */
  ghost predicate Sorted(start: int, s: State, arrived: map<int, Data>) {
    && s.index == start + |s.readied|
    && (forall h :: h in arrived ==> h < s.index || (h in s.queue && s.queue[h] == arrived[h]))
    && (forall h :: h in s.queue ==> h in arrived && s.index <= h)
    && (forall i :: 0 <= i < |s.readied| ==>
          var p := s.readied[i];
          p.height == start + i && p.height in arrived && arrived[p.height] == p.data)
  }

  lemma ReadiedArrived(start: int, s: State, arrived: map<int, Data>, h: int)
    requires Sorted(start, s, arrived) && start <= h < s.index
    ensures h in arrived && s.readied[h - start] == Payload(h, arrived[h])
  {
    var i := h - start;
    assert s.readied[i].height == h;
  }

  lemma SortedArrival(start: int, s: State, arrived: map<int, Data>, p: Payload)
    requires Sorted(start, s, arrived) && p.height !in arrived && start <= p.height
    ensures Sorted(start, Step(s, Arrival(p, false, true)), arrived[p.height := p.data])
  {
    if p.height < s.index {
      ReadiedArrived(start, s, arrived, p.height);
    }
  }

  lemma SortedTick(start: int, s: State, arrived: map<int, Data>, read: bool)
    requires Sorted(start, s, arrived)
    ensures Sorted(start, Step(s, Tick(read)), arrived)
  {
  }

  lemma {:induction false} SmoothSorted(start: int, events: seq<Event>)
    requires Smooth(start, events)
    ensures Sorted(start, Run(start, events), Arrived(events))
  {
    if events != [] {
      var init, e := events[..|events| - 1], events[|events| - 1];
      SmoothSorted(start, init);
      var s, arrived := Run(start, init), Arrived(init);
      match e
      case Arrival(p, _, _) => SortedArrival(start, s, arrived, p);
      case Tick(read) => SortedTick(start, s, arrived, read);
    }
  }

  /** n ticks on which the read succeeds. */
  function Ticks(n: nat): seq<Event> {
    if n == 0 then [] else Ticks(n - 1) + [Tick(true)]
  }

  ghost predicate AllBetween(arrived: map<int, Data>, start: int, end: int) {
    forall h :: h in arrived <==> start <= h < end
  }

  lemma OneTick(start: int, s: State, arrived: map<int, Data>, end: int)
    requires Sorted(start, s, arrived) && AllBetween(arrived, start, end) && start <= end
    ensures start <= s.index <= end
    ensures Step(s, Tick(true)).index == if s.index < end then s.index + 1 else s.index
  {
    if |s.readied| > 0 {
      ReadiedArrived(start, s, arrived, s.index - 1);
    }
  }

  lemma {:induction false} TicksAdvance(start: int, events: seq<Event>, n: nat, end: int)
    requires Smooth(start, events) && AllBetween(Arrived(events), start, end) && start <= end
    ensures Smooth(start, events + Ticks(n)) && Arrived(events + Ticks(n)) == Arrived(events)
    ensures Run(start, events + Ticks(n)).index >= if start + n <= end then start + n else end
  {
    if n == 0 {
      assert events + [] == events;
      SmoothSorted(start, events);
    } else {
      TicksAdvance(start, events, n - 1, end);
      var before := events + Ticks(n - 1);
      assert events + Ticks(n) == before + [Tick(true)];
      assert (before + [Tick(true)])[..|before|] == before;
      SmoothSorted(start, before);
      hide Sorted, AllBetween, Step;
      OneTick(start, Run(start, before), Arrived(before), end);
    }
  }

  /** Whatever the order in which the heights from start up to end arrive, and however many ticks come between: after
      end - start further ticks all have been handed on, sorted. */
  lemma Drains(start: int, events: seq<Event>, end: int)
    requires Smooth(start, events) && AllBetween(Arrived(events), start, end) && start <= end
    ensures var s := Run(start, events + Ticks(end - start));
            && |s.readied| == end - start
            && (forall i :: 0 <= i < end - start ==>
                  s.readied[i] == Payload(start + i, Arrived(events)[start + i]))
            && s.queue == map[]
  {
    hide Run, Smooth, Arrived, Ticks, Step;
    var all := events + Ticks(end - start);
    TicksAdvance(start, events, end - start, end);
    SmoothSorted(start, all);
    var s := Run(start, all);
    OneTick(start, s, Arrived(all), end);
    QueueEmpty(start, s, Arrived(all), end);
    forall i | 0 <= i < end - start ensures s.readied[i] == Payload(start + i, Arrived(events)[start + i]) {
      ReadiedArrived(start, s, Arrived(all), start + i);
    }
  }

  lemma QueueEmpty(start: int, s: State, arrived: map<int, Data>, end: int)
    requires Sorted(start, s, arrived) && AllBetween(arrived, start, end) && s.index == end
    ensures s.queue == map[]
  {
    assert forall h :: h !in s.queue;
  }
}
