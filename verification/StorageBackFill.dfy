/** The storage backfiller: a dispatcher, a listener and one goroutine per bin, over two unbuffered channels and
    an atomic counter (libraries/shared/storage/backfiller.go). */
module StorageBackFill {
  import opened Seqs
  import opened HeightRuns

  type Bins = seq<seq<nat>>

  const DEFAULT_MAX_BATCH_NUMBER: nat := 10

  /** The dispatcher is at the head of its loop; has counted itself over the limit; is blocked on forwardDone; is
      about to launch bin number next; or has launched them all. */
  datatype Dispatcher = AtLoop | OverLimit | Blocked | Launching | Ended

  /** A bin's goroutine: not launched; running; through with its one fetch; or its completion was received. */
  datatype Stage = NotLaunched | Running | Fetched | Received

  /** The listener is at its select; has received a completion; has decremented the counter; has tried to signal;
      is sending done; or has returned. */
  datatype Listener = AtSelect | Holding | Decremented | Counting | Finishing | Stopped

  /** fetched: the heights in the order they were fetched. crashed: a goroutine has panicked and the program is gone. */
  datatype State = State(
    dispatcher: Dispatcher,
    next: nat,
    active: int,
    stages: seq<Stage>,
    listener: Listener,
    finished: nat,
    fetched: seq<nat>,
    doneSent: nat,
    crashed: bool)

  function Init(bins: Bins): State {
    State(AtLoop, 0, 0, seq(|bins|, i => NotLaunched), AtSelect, 0, [], 0, false)
  }

  // ---- the dispatcher ----

  /** atomic.AddInt64(&activeCount, 1) and the comparison with the limit. */
  ghost predicate Increment(bins: Bins, s: State, s': State) {
    && s.dispatcher == AtLoop && s.next < |bins|
    && s' == s.(active := s.active + 1,
                dispatcher := if s.active + 1 > DEFAULT_MAX_BATCH_NUMBER then OverLimit else Launching)
  }

  ghost predicate Block(s: State, s': State) {
    s.dispatcher == OverLimit && s' == s.(dispatcher := Blocked)
  }

  ghost predicate Launch(bins: Bins, s: State, s': State) {
    && s.dispatcher == Launching && s.next < |bins| == |s.stages|
    && s' == s.(dispatcher := AtLoop, next := s.next + 1, stages := s.stages[s.next := Running])
  }

  ghost predicate End(bins: Bins, s: State, s': State) {
    s.dispatcher == AtLoop && s.next == |bins| && s' == s.(dispatcher := Ended)
  }

  // ---- the goroutine of bin i ----

  /** FetchStateDiffsAt over the whole bin; errors and diffs go to channels that are not part of the state. */
  ghost predicate Fetch(bins: Bins, s: State, s': State, i: nat) {
    && i < |s.stages| == |bins| && s.stages[i] == Running
    && s' == s.(stages := s.stages[i := Fetched], fetched := s.fetched + bins[i])
  }

  /** processingDone: the first and last height of the bin, sent by the goroutine, received by the listener. */
  ghost predicate Complete(bins: Bins, s: State, s': State, i: nat) {
    && i < |s.stages| == |bins| && s.stages[i] == Fetched && s.listener == AtSelect
    && bins[i] != []
    && s' == s.(stages := s.stages[i := Received], listener := Holding)
  }

  /** An empty bin has no first height to send. */
  ghost predicate Crash(bins: Bins, s: State, s': State, i: nat) {
    && i < |s.stages| == |bins| && s.stages[i] == Fetched
    && bins[i] == []
    && s' == s.(crashed := true)
  }

  // ---- the listener ----

  ghost predicate Decrement(s: State, s': State) {
    s.listener == Holding && s' == s.(active := s.active - 1, listener := Decremented)
  }

  /** The non-blocking send on forwardDone: it goes through only if the dispatcher is already blocked. */
  ghost predicate Signal(s: State, s': State) {
    && s.listener == Decremented
    && s' == s.(dispatcher := if s.dispatcher == Blocked then Launching else s.dispatcher, listener := Counting)
  }

  ghost predicate Count(bins: Bins, s: State, s': State) {
    && s.listener == Counting
    && s' == s.(finished := s.finished + 1, listener := if s.finished + 1 >= |bins| then Finishing else AtSelect)
  }

  ghost predicate SendDone(s: State, s': State) {
    s.listener == Finishing && s' == s.(listener := Stopped, doneSent := s.doneSent + 1)
  }

  /** Steps that are the same in both readings of the listener's arm. */
  ghost predicate OtherStep(bins: Bins, s: State, s': State) {
    || Increment(bins, s, s') || Block(s, s') || Launch(bins, s, s') || End(bins, s, s')
    || (exists i: nat :: Fetch(bins, s, s', i)) || (exists i: nat :: Crash(bins, s, s', i))
    || Count(bins, s, s') || SendDone(s, s')
  }

  /** Receive, decrement and signal are separate steps, as in the code. */
  ghost predicate Next(bins: Bins, s: State, s': State) {
    && !s.crashed
    && (OtherStep(bins, s, s') || (exists i: nat :: Complete(bins, s, s', i)) || Decrement(s, s') || Signal(s, s'))
  }

  /** Receive, decrement and signal happen at once. */
  ghost predicate Arm(bins: Bins, s: State, s': State, i: nat) {
    exists s1, s2 :: Complete(bins, s, s1, i) && Decrement(s1, s2) && Signal(s2, s')
  }

  ghost predicate AtomicNext(bins: Bins, s: State, s': State) {
    && !s.crashed
    && (OtherStep(bins, s, s') || exists i: nat :: Arm(bins, s, s', i))
  }

  ghost predicate Reaches(bins: Bins, k: nat, s: State) {
    if k == 0 then s == Init(bins)
    else exists before :: Reaches(bins, k - 1, before) && Next(bins, before, s)
  }

  ghost predicate AtomicReaches(bins: Bins, k: nat, s: State) {
    if k == 0 then s == Init(bins)
    else exists before :: AtomicReaches(bins, k - 1, before) && AtomicNext(bins, before, s)
  }

  // ---- counting ----

  function CountOf(stages: seq<Stage>, st: Stage): nat {
    if stages == [] then 0 else CountOf(stages[..|stages| - 1], st) + if stages[|stages| - 1] == st then 1 else 0
  }

  lemma {:induction false} CountUpdate(stages: seq<Stage>, i: nat, to: Stage, st: Stage)
    requires i < |stages|
    ensures CountOf(stages[i := to], st) + (if stages[i] == st then 1 else 0)
            == CountOf(stages, st) + if to == st then 1 else 0
  {
    var init := stages[..|stages| - 1];
    if i < |init| {
      CountUpdate(init, i, to, st);
      assert stages[i := to][..|init|] == init[i := to];
    } else {
      assert stages[i := to][..|init|] == init;
    }
  }

  lemma {:induction false} CountBounds(stages: seq<Stage>, st: Stage)
    ensures CountOf(stages, st) <= |stages|
    ensures CountOf(stages, st) == |stages| ==> forall i :: 0 <= i < |stages| ==> stages[i] == st
    ensures (forall i :: 0 <= i < |stages| ==> stages[i] != st) ==> CountOf(stages, st) == 0
  {
    if stages != [] {
      CountBounds(stages[..|stages| - 1], st);
    }
  }

  /** Goroutines launched whose completion the listener has not received. */
  function RunningCount(s: State): nat {
    CountOf(s.stages, Running) + CountOf(s.stages, Fetched)
  }

  /** Launched goroutines the counter still counts: a completion counts until it is decremented. */
  function Counted(s: State): int {
    RunningCount(s) + if s.listener == Holding then 1 else 0
  }

  ghost predicate PastIncrement(s: State) {
    s.dispatcher == OverLimit || s.dispatcher == Blocked || s.dispatcher == Launching
  }

  /** The counter is the launched and still counted goroutines, plus the one being launched. */
  ghost predicate CounterInv(bins: Bins, s: State) {
    && |s.stages| == |bins| && s.next <= |bins|
    && (PastIncrement(s) ==> s.next < |bins|)
    && (forall i :: 0 <= i < |bins| ==> (s.stages[i] == NotLaunched <==> s.next <= i))
    && s.active == Counted(s) + if PastIncrement(s) then 1 else 0
  }

  lemma InitCounter(bins: Bins)
    ensures CounterInv(bins, Init(bins))
    ensures RunningCount(Init(bins)) == CountOf(Init(bins).stages, Received) == 0
  {
    var stages := Init(bins).stages;
    CountBounds(stages, Running);
    CountBounds(stages, Fetched);
    CountBounds(stages, Received);
  }

  lemma LaunchCounter(bins: Bins, s: State, s': State)
    requires CounterInv(bins, s) && Launch(bins, s, s')
    ensures CounterInv(bins, s') && Counted(s') == Counted(s) + 1
    ensures CountOf(s'.stages, Received) == CountOf(s.stages, Received)
  {
    CountUpdate(s.stages, s.next, Running, Running);
    CountUpdate(s.stages, s.next, Running, Fetched);
    CountUpdate(s.stages, s.next, Running, Received);
  }

  lemma FetchCounter(bins: Bins, s: State, s': State, i: nat)
    requires CounterInv(bins, s) && Fetch(bins, s, s', i)
    ensures CounterInv(bins, s') && Counted(s') == Counted(s)
    ensures CountOf(s'.stages, Received) == CountOf(s.stages, Received)
  {
    CountUpdate(s.stages, i, Fetched, Running);
    CountUpdate(s.stages, i, Fetched, Fetched);
    CountUpdate(s.stages, i, Fetched, Received);
  }

  lemma CompleteCounter(bins: Bins, s: State, s': State, i: nat)
    requires CounterInv(bins, s) && Complete(bins, s, s', i)
    ensures CounterInv(bins, s') && Counted(s') == Counted(s)
    ensures CountOf(s'.stages, Received) == CountOf(s.stages, Received) + 1
  {
    CountUpdate(s.stages, i, Received, Running);
    CountUpdate(s.stages, i, Received, Fetched);
    CountUpdate(s.stages, i, Received, Received);
  }

  // ---- the worker bound ----

  /** With the three steps of the arm apart, one goroutine too many can run. */
  ghost predicate BoundInv(s: State) {
    && Counted(s) <= DEFAULT_MAX_BATCH_NUMBER + 1
    && (s.dispatcher == Launching ==> Counted(s) <= DEFAULT_MAX_BATCH_NUMBER)
    && (s.listener == Decremented ==> Counted(s) <= DEFAULT_MAX_BATCH_NUMBER)
    && (s.dispatcher == Launching && s.listener == Decremented ==> Counted(s) < DEFAULT_MAX_BATCH_NUMBER)
  }

  lemma OtherStepCounter(bins: Bins, s: State, s': State)
    requires CounterInv(bins, s) && OtherStep(bins, s, s')
    ensures CounterInv(bins, s')
    ensures Launch(bins, s, s') || Counted(s') == Counted(s)
    ensures CountOf(s'.stages, Received) == CountOf(s.stages, Received)
  {
    if Launch(bins, s, s') {
      LaunchCounter(bins, s, s');
    } else if i: nat :| Fetch(bins, s, s', i) {
      FetchCounter(bins, s, s', i);
    }
  }

  lemma NextCounter(bins: Bins, s: State, s': State)
    requires CounterInv(bins, s) && Next(bins, s, s')
    ensures CounterInv(bins, s')
  {
    if OtherStep(bins, s, s') {
      OtherStepCounter(bins, s, s');
    } else if i: nat :| Complete(bins, s, s', i) {
      CompleteCounter(bins, s, s', i);
    }
  }

  lemma NextBound(bins: Bins, s: State, s': State)
    requires CounterInv(bins, s) && BoundInv(s) && Next(bins, s, s')
    ensures BoundInv(s')
  {
    if OtherStep(bins, s, s') {
      OtherStepBound(bins, s, s');
    } else if i: nat :| Complete(bins, s, s', i) {
      CompleteCounter(bins, s, s', i);
    }
  }

  lemma OtherStepBound(bins: Bins, s: State, s': State)
    requires CounterInv(bins, s) && BoundInv(s) && OtherStep(bins, s, s')
    ensures BoundInv(s')
  {
    if Launch(bins, s, s') {
      LaunchCounter(bins, s, s');
    } else {
      OtherStepCounter(bins, s, s');
    }
  }

  lemma {:induction false} ReachedBound(bins: Bins, k: nat, s: State)
    requires Reaches(bins, k, s)
    ensures CounterInv(bins, s) && BoundInv(s)
  {
    hide Next, CounterInv, BoundInv;
    if k == 0 {
      InitBound(bins);
    } else {
      var before :| Reaches(bins, k - 1, before) && Next(bins, before, s);
      ReachedBound(bins, k - 1, before);
      NextCounter(bins, before, s);
      NextBound(bins, before, s);
    }
  }

  lemma InitBound(bins: Bins)
    ensures CounterInv(bins, Init(bins)) && BoundInv(Init(bins)) && AtomicInv(Init(bins))
  {
    InitCounter(bins);
  }

  /** On every interleaving at most one more than the limit are running. */
  lemma WorkerBound(bins: Bins, k: nat, s: State)
    requires Reaches(bins, k, s)
    ensures RunningCount(s) <= DEFAULT_MAX_BATCH_NUMBER + 1
  {
    ReachedBound(bins, k, s);
  }

  /** With the arm atomic nothing is ever between receiving and signalling. */
  ghost predicate AtomicInv(s: State) {
    && s.listener != Holding && s.listener != Decremented
    && RunningCount(s) <= DEFAULT_MAX_BATCH_NUMBER
    && (s.dispatcher == Launching ==> RunningCount(s) < DEFAULT_MAX_BATCH_NUMBER)
  }

  lemma AtomicNextInv(bins: Bins, s: State, s': State)
    requires CounterInv(bins, s) && AtomicInv(s) && AtomicNext(bins, s, s')
    ensures CounterInv(bins, s') && AtomicInv(s')
  {
    if OtherStep(bins, s, s') {
      OtherStepCounter(bins, s, s');
      if Launch(bins, s, s') {
        LaunchCounter(bins, s, s');
      }
    } else {
      var i: nat :| Arm(bins, s, s', i);
      var s1, s2 :| Complete(bins, s, s1, i) && Decrement(s1, s2) && Signal(s2, s');
      CompleteCounter(bins, s, s1, i);
      NextCounter(bins, s1, s2);
      NextCounter(bins, s2, s');
    }
  }

  lemma {:induction false} AtomicReachedInv(bins: Bins, k: nat, s: State)
    requires AtomicReaches(bins, k, s)
    ensures CounterInv(bins, s) && AtomicInv(s)
  {
    hide AtomicNext, CounterInv, AtomicInv;
    if k == 0 {
      InitBound(bins);
    } else {
      var before :| AtomicReaches(bins, k - 1, before) && AtomicNext(bins, before, s);
      AtomicReachedInv(bins, k - 1, before);
      AtomicNextInv(bins, before, s);
    }
  }

  /** Were the arm atomic, the limit itself would hold. */
  lemma AtomicWorkerBound(bins: Bins, k: nat, s: State)
    requires AtomicReaches(bins, k, s)
    ensures RunningCount(s) <= DEFAULT_MAX_BATCH_NUMBER
  {
    AtomicReachedInv(bins, k, s);
  }

  // ---- completion ----

  /** The completions received so far are counted, but for the one the listener is dealing with. */
  ghost predicate FinishedInv(bins: Bins, s: State) {
    && CountOf(s.stages, Received)
       == s.finished + (if s.listener == Holding || s.listener == Decremented || s.listener == Counting then 1 else 0)
    && (s.listener == Finishing || s.listener == Stopped ==> s.finished >= |bins|)
    && s.doneSent == if s.listener == Stopped then 1 else 0
  }

  lemma NextFinished(bins: Bins, s: State, s': State)
    requires CounterInv(bins, s) && FinishedInv(bins, s) && Next(bins, s, s')
    ensures FinishedInv(bins, s')
  {
    if OtherStep(bins, s, s') {
      OtherStepCounter(bins, s, s');
    } else if i: nat :| Complete(bins, s, s', i) {
      CompleteCounter(bins, s, s', i);
    }
  }

  /** How often x is among the heights fetched by the goroutines that have fetched. */
  function FetchedCount(bins: Bins, stages: seq<Stage>, x: nat): nat
    requires |stages| == |bins|
  {
    if bins == [] then 0
    else
      FetchedCount(bins[..|bins| - 1], stages[..|bins| - 1], x)
      + if stages[|bins| - 1] == Fetched || stages[|bins| - 1] == Received then multiset(bins[|bins| - 1])[x] else 0
  }

  lemma {:induction false} FetchedUpdate(bins: Bins, stages: seq<Stage>, i: nat, to: Stage, x: nat)
    requires |stages| == |bins| && i < |bins|
    ensures FetchedCount(bins, stages[i := to], x)
            + (if stages[i] == Fetched || stages[i] == Received then multiset(bins[i])[x] else 0)
            == FetchedCount(bins, stages, x) + if to == Fetched || to == Received then multiset(bins[i])[x] else 0
  {
    var init := stages[..|bins| - 1];
    if i < |init| {
      FetchedUpdate(bins[..|init|], init, i, to, x);
      assert stages[i := to][..|init|] == init[i := to];
    } else {
      assert stages[i := to][..|init|] == init;
    }
  }

  ghost predicate FetchedInv(bins: Bins, s: State) {
    |s.stages| == |bins| && forall x: nat :: multiset(s.fetched)[x] == FetchedCount(bins, s.stages, x)
  }

  lemma {:induction false} NothingFetched(bins: Bins, stages: seq<Stage>, x: nat)
    requires |stages| == |bins| && forall i :: 0 <= i < |bins| ==> stages[i] == NotLaunched
    ensures FetchedCount(bins, stages, x) == 0
  {
    if bins != [] {
      NothingFetched(bins[..|bins| - 1], stages[..|bins| - 1], x);
    }
  }

  lemma {:induction false} EverythingFetched(bins: Bins, stages: seq<Stage>, x: nat)
    requires |stages| == |bins| && forall i :: 0 <= i < |bins| ==> stages[i] == Received
    ensures FetchedCount(bins, stages, x) == multiset(Flatten<nat>(bins))[x]
  {
    if bins != [] {
      EverythingFetched(bins[..|bins| - 1], stages[..|bins| - 1], x);
    }
  }

  lemma StageFetched(bins: Bins, s: State, s': State, i: nat, to: Stage)
    requires CounterInv(bins, s) && FetchedInv(bins, s) && i < |bins|
    requires s'.stages == s.stages[i := to]
    requires s'.fetched == s.fetched + if s.stages[i] == Running && to == Fetched then bins[i] else []
    requires || (s.stages[i] == NotLaunched && to == Running)
             || (s.stages[i] == Running && to == Fetched)
             || (s.stages[i] == Fetched && to == Received)
    ensures FetchedInv(bins, s')
  {
    forall x: nat ensures multiset(s'.fetched)[x] == FetchedCount(bins, s'.stages, x) {
      assert multiset(s.fetched)[x] == FetchedCount(bins, s.stages, x);
      FetchedUpdate(bins, s.stages, i, to, x);
      assert s.fetched + [] == s.fetched;
    }
  }

  lemma NextFetched(bins: Bins, s: State, s': State)
    requires CounterInv(bins, s) && FetchedInv(bins, s) && Next(bins, s, s')
    ensures FetchedInv(bins, s')
  {
    if Launch(bins, s, s') {
      assert s'.fetched == s.fetched + [];
      StageFetched(bins, s, s', s.next, Running);
    } else if i: nat :| Fetch(bins, s, s', i) {
      StageFetched(bins, s, s', i, Fetched);
    } else if i: nat :| Complete(bins, s, s', i) {
      assert s'.fetched == s.fetched + [];
      StageFetched(bins, s, s', i, Received);
    }
  }

  lemma InitFinished(bins: Bins)
    ensures FinishedInv(bins, Init(bins)) && FetchedInv(bins, Init(bins))
  {
    InitCounter(bins);
    forall x: nat ensures FetchedCount(bins, Init(bins).stages, x) == 0 {
      NothingFetched(bins, Init(bins).stages, x);
    }
  }

  lemma {:induction false} ReachedFinished(bins: Bins, k: nat, s: State)
    requires Reaches(bins, k, s)
    ensures CounterInv(bins, s) && FinishedInv(bins, s) && FetchedInv(bins, s)
  {
    hide Next, CounterInv, FinishedInv, FetchedInv;
    if k == 0 {
      InitBound(bins);
      InitFinished(bins);
    } else {
      var before :| Reaches(bins, k - 1, before) && Next(bins, before, s);
      ReachedFinished(bins, k - 1, before);
      NextCounter(bins, before, s);
      NextFinished(bins, before, s);
      NextFetched(bins, before, s);
    }
  }

  lemma AllReceived(bins: Bins, s: State)
    requires CounterInv(bins, s) && FinishedInv(bins, s) && FetchedInv(bins, s)
    requires s.listener == Finishing || s.listener == Stopped
    ensures forall i :: 0 <= i < |bins| ==> s.stages[i] == Received
    ensures multiset(s.fetched) == multiset(Flatten<nat>(bins))
  {
    CountBounds(s.stages, Received);
    var all, fetched := multiset(Flatten<nat>(bins)), multiset(s.fetched);
    forall x: nat ensures fetched[x] == all[x] {
      EverythingFetched(bins, s.stages, x);
    }
    SameBag(fetched, all);
  }

  /** done is sent at most once, and from the moment it is offered every bin's goroutine has fetched and finished
      exactly once, so the heights fetched are those of all bins. */
  lemma DoneMeansComplete(bins: Bins, k: nat, s: State)
    requires Reaches(bins, k, s)
    ensures s.doneSent <= 1
    ensures s.doneSent == 1 || s.listener == Finishing ==>
              && |s.stages| == |bins|
              && (forall i :: 0 <= i < |bins| ==> s.stages[i] == Received)
              && multiset(s.fetched) == multiset(Flatten<nat>(bins))
  {
    ReachedFinished(bins, k, s);
    if s.doneSent == 1 || s.listener == Finishing {
      AllReceived(bins, s);
    }
  }

  /** For the bins of a range: each height of it once. */
  lemma DoneMeansRange(start: uint64, end: uint64, batch: uint64, k: nat, s: State)
    requires start <= end && batch > 0 && Fits(start, end, batch)
    requires Reaches(BlockHeightBins(start, end, batch).value, k, s) && s.doneSent == 1
    ensures multiset(s.fetched) == multiset(Range(start, (end as int) + 1))
  {
    DoneMeansComplete(BlockHeightBins(start, end, batch).value, k, s);
    BinsCoverIff(start, end, batch);
  }

  // ---- two schedules that show the limits of the handshake ----

  lemma OneMore(bins: Bins, k: nat, s: State, s': State)
    requires Reaches(bins, k, s) && Next(bins, s, s')
    ensures Reaches(bins, k + 1, s')
  {
  }

  /** A goroutine fetches and completes. */
  lemma RunAndComplete(bins: Bins, k: nat, s: State, i: nat)
    requires Reaches(bins, k, s) && !s.crashed && s.listener == AtSelect
    requires i < |s.stages| == |bins| && s.stages[i] == Running && bins[i] != []
    ensures Reaches(bins, k + 2, s.(stages := s.stages[i := Received], fetched := s.fetched + bins[i], listener := Holding))
  {
    hide Reaches;
    var s1 := s.(stages := s.stages[i := Fetched], fetched := s.fetched + bins[i]);
    assert Fetch(bins, s, s1, i);
    OneMore(bins, k, s, s1);
    var s2 := s1.(stages := s1.stages[i := Received], listener := Holding);
    assert Complete(bins, s1, s2, i);
    OneMore(bins, k + 1, s1, s2);
    assert s2.stages == s.stages[i := Received];
  }

  lemma DoDecrement(bins: Bins, k: nat, s: State)
    requires Reaches(bins, k, s) && !s.crashed && s.listener == Holding
    ensures Reaches(bins, k + 1, s.(active := s.active - 1, listener := Decremented))
  {
    hide Reaches;
    OneMore(bins, k, s, s.(active := s.active - 1, listener := Decremented));
  }

  lemma DoSignal(bins: Bins, k: nat, s: State)
    requires Reaches(bins, k, s) && !s.crashed && s.listener == Decremented
    ensures Reaches(bins, k + 1, s.(dispatcher := if s.dispatcher == Blocked then Launching else s.dispatcher,
                                    listener := Counting))
  {
    hide Reaches;
    OneMore(bins, k, s, s.(dispatcher := if s.dispatcher == Blocked then Launching else s.dispatcher, listener := Counting));
  }

  lemma DoCount(bins: Bins, k: nat, s: State)
    requires Reaches(bins, k, s) && !s.crashed && s.listener == Counting && s.finished + 1 < |bins|
    ensures Reaches(bins, k + 1, s.(finished := s.finished + 1, listener := AtSelect))
  {
    hide Reaches;
    OneMore(bins, k, s, s.(finished := s.finished + 1, listener := AtSelect));
  }

  lemma DoIncrement(bins: Bins, k: nat, s: State)
    requires Reaches(bins, k, s) && !s.crashed && s.dispatcher == AtLoop && s.next < |bins|
    ensures Reaches(bins, k + 1, s.(active := s.active + 1,
                                    dispatcher := if s.active + 1 > DEFAULT_MAX_BATCH_NUMBER then OverLimit else Launching))
  {
    hide Reaches;
    var s' := s.(active := s.active + 1,
                 dispatcher := if s.active + 1 > DEFAULT_MAX_BATCH_NUMBER then OverLimit else Launching);
    assert Increment(bins, s, s');
    OneMore(bins, k, s, s');
  }

  lemma DoBlock(bins: Bins, k: nat, s: State)
    requires Reaches(bins, k, s) && !s.crashed && s.dispatcher == OverLimit
    ensures Reaches(bins, k + 1, s.(dispatcher := Blocked))
  {
    hide Reaches;
    OneMore(bins, k, s, s.(dispatcher := Blocked));
  }

  lemma DoLaunch(bins: Bins, k: nat, s: State)
    requires Reaches(bins, k, s) && !s.crashed && s.dispatcher == Launching && s.next < |bins| == |s.stages|
    ensures Reaches(bins, k + 1, s.(dispatcher := AtLoop, next := s.next + 1, stages := s.stages[s.next := Running]))
  {
    hide Reaches;
    OneMore(bins, k, s, s.(dispatcher := AtLoop, next := s.next + 1, stages := s.stages[s.next := Running]));
  }

  /** The first j goroutines are running and nothing else has happened. */
  function LaunchedOnly(bins: Bins, j: nat): State {
    State(AtLoop, j, j, seq(|bins|, i => if i < j then Running else NotLaunched), AtSelect, 0, [], 0, false)
  }

  lemma LaunchOne(bins: Bins, j: nat)
    requires j < DEFAULT_MAX_BATCH_NUMBER && j < |bins|
    requires Reaches(bins, 2 * j, LaunchedOnly(bins, j))
    ensures Reaches(bins, 2 * j + 2, LaunchedOnly(bins, j + 1))
  {
    hide Reaches;
    var s0 := LaunchedOnly(bins, j);
    DoIncrement(bins, 2 * j, s0);
    var s1 := s0.(active := j + 1, dispatcher := Launching);
    DoLaunch(bins, 2 * j + 1, s1);
    assert s1.stages[j := Running] == LaunchedOnly(bins, j + 1).stages;
  }

  lemma {:induction false} LaunchMany(bins: Bins, j: nat)
    requires j <= DEFAULT_MAX_BATCH_NUMBER && j <= |bins|
    ensures Reaches(bins, 2 * j, LaunchedOnly(bins, j))
  {
    hide Reaches, LaunchedOnly;
    if j == 0 {
      NoneLaunched(bins);
    } else {
      LaunchMany(bins, j - 1);
      LaunchOne(bins, j - 1);
    }
  }

  lemma NoneLaunched(bins: Bins)
    ensures Reaches(bins, 0, LaunchedOnly(bins, 0))
  {
    assert LaunchedOnly(bins, 0).stages == Init(bins).stages;
  }

  /** A signal left over from an earlier completion releases a dispatcher that blocked later: the bound of
      WorkerBound is reached if there are two more bins than the limit and one of the first can complete. */
  lemma StaleSignalReleasesOneMore(bins: Bins, i: nat)
    requires |bins| >= DEFAULT_MAX_BATCH_NUMBER + 2 && i < DEFAULT_MAX_BATCH_NUMBER && bins[i] != []
    ensures exists k, s :: Reaches(bins, k, s) && RunningCount(s) == DEFAULT_MAX_BATCH_NUMBER + 1
  {
    hide Reaches;
    var max := DEFAULT_MAX_BATCH_NUMBER;
    LaunchMany(bins, max);
    var s0 := LaunchedOnly(bins, max);
    RunAndComplete(bins, 20, s0, i);
    var s1 := s0.(stages := s0.stages[i := Received], fetched := s0.fetched + bins[i], listener := Holding);
    DoDecrement(bins, 22, s1);
    var s2 := s1.(active := max - 1, listener := Decremented);
    DoIncrement(bins, 23, s2);
    var s3 := s2.(active := max, dispatcher := Launching);
    DoLaunch(bins, 24, s3);
    var s4 := s3.(dispatcher := AtLoop, next := max + 1, stages := s3.stages[max := Running]);
    DoIncrement(bins, 25, s4);
    var s5 := s4.(active := max + 1, dispatcher := OverLimit);
    DoBlock(bins, 26, s5);
    var s6 := s5.(dispatcher := Blocked);
    DoSignal(bins, 27, s6);
    var s7 := s6.(dispatcher := Launching, listener := Counting);
    DoLaunch(bins, 28, s7);
    var s8 := s7.(dispatcher := AtLoop, next := max + 2, stages := s7.stages[max + 1 := Running]);
    ReachedBound(bins, 29, s8);
  }

  /** All signals so far were sent while the dispatcher was on its way to block, and were lost. */
  function SignalsLost(bins: Bins, j: nat): State
    requires j <= DEFAULT_MAX_BATCH_NUMBER < |bins|
  {
    State(OverLimit, DEFAULT_MAX_BATCH_NUMBER, DEFAULT_MAX_BATCH_NUMBER + 1 - j,
          seq(|bins|, i => if i < j then Received else if i < DEFAULT_MAX_BATCH_NUMBER then Running else NotLaunched),
          AtSelect, j, Flatten<nat>(bins[..j]), 0, false)
  }

  lemma LoseOneSignal(bins: Bins, k: nat, j: nat)
    requires j < DEFAULT_MAX_BATCH_NUMBER < |bins| && bins[j] != []
    requires Reaches(bins, k, SignalsLost(bins, j))
    ensures Reaches(bins, k + 5, SignalsLost(bins, j + 1))
  {
    hide Reaches;
    var s0 := SignalsLost(bins, j);
    RunAndComplete(bins, k, s0, j);
    var s1 := s0.(stages := s0.stages[j := Received], fetched := s0.fetched + bins[j], listener := Holding);
    DoDecrement(bins, k + 2, s1);
    var s2 := s1.(active := s1.active - 1, listener := Decremented);
    DoSignal(bins, k + 3, s2);
    var s3 := s2.(listener := Counting);
    DoCount(bins, k + 4, s3);
    var s4 := s3.(finished := j + 1, listener := AtSelect);
    assert s4.fetched == SignalsLost(bins, j + 1).fetched by {
      FlattenSnoc<nat>(bins[..j], bins[j]);
      assert bins[..j + 1] == bins[..j] + [bins[j]];
    }
    assert s4.stages == SignalsLost(bins, j + 1).stages;
  }

  lemma FirstOverLimit(bins: Bins)
    requires DEFAULT_MAX_BATCH_NUMBER < |bins|
    ensures Reaches(bins, 2 * DEFAULT_MAX_BATCH_NUMBER + 1, SignalsLost(bins, 0))
  {
    LaunchMany(bins, DEFAULT_MAX_BATCH_NUMBER);
    hide Reaches;
    var s0 := LaunchedOnly(bins, DEFAULT_MAX_BATCH_NUMBER);
    DoIncrement(bins, 2 * DEFAULT_MAX_BATCH_NUMBER, s0);
    assert s0.stages == SignalsLost(bins, 0).stages;
  }

  lemma {:induction false} LoseSignals(bins: Bins, j: nat)
    requires j <= DEFAULT_MAX_BATCH_NUMBER < |bins| && !EmptyEarly(bins)
    ensures Reaches(bins, 2 * DEFAULT_MAX_BATCH_NUMBER + 1 + 5 * j, SignalsLost(bins, j))
  {
    hide Reaches, SignalsLost;
    if j == 0 {
      FirstOverLimit(bins);
    } else {
      LoseSignals(bins, j - 1);
      LoseOneSignal(bins, 2 * DEFAULT_MAX_BATCH_NUMBER + 1 + 5 * (j - 1), j - 1);
    }
  }

  /** A bin that is always launched is empty. */
  ghost predicate EmptyEarly(bins: Bins) {
    exists i :: 0 <= i < |bins| && i < DEFAULT_MAX_BATCH_NUMBER && bins[i] == []
  }

  /** A blocked dispatcher with nobody left to signal it: no step is possible. */
  lemma BlockedForGood(bins: Bins, s: State, s': State)
    requires s.dispatcher == Blocked && s.listener == AtSelect
    requires forall i :: 0 <= i < |s.stages| ==> s.stages[i] == Received || s.stages[i] == NotLaunched
    ensures !Next(bins, s, s')
  {
  }

  /** A signal can also be lost: with more bins than the limit, unless one that is always launched is empty, some
      schedule ends with the dispatcher blocked, bins never launched, and done never sent. */
  lemma LostWakeup(bins: Bins)
    requires |bins| > DEFAULT_MAX_BATCH_NUMBER && !EmptyEarly(bins)
    ensures exists k, s ::
              Reaches(bins, k, s) && s.doneSent == 0 && !s.crashed && s.next < |bins| && forall s' :: !Next(bins, s, s')
  {
    var max := DEFAULT_MAX_BATCH_NUMBER;
    LoseSignals(bins, max);
    var s0 := SignalsLost(bins, max);
    DoBlock(bins, 2 * max + 1 + 5 * max, s0);
    hide Reaches, Next;
    var s := s0.(dispatcher := Blocked);
    forall s' ensures !Next(bins, s, s') {
      BlockedForGood(bins, s, s');
    }
  }

  // ---- when the limit does hold ----

  /** Every launched goroutine is running, fetched or received. */
  ghost predicate LaunchedInv(s: State) {
    RunningCount(s) + CountOf(s.stages, Received) == s.next
  }

  /** Getting past the limit takes a completion. */
  ghost predicate PastLimitInv(s: State) {
    && LaunchedInv(s)
    && (s.next > DEFAULT_MAX_BATCH_NUMBER || (s.dispatcher == Launching && s.next >= DEFAULT_MAX_BATCH_NUMBER) ==>
          CountOf(s.stages, Received) >= 1)
  }

  lemma NextLaunched(bins: Bins, s: State, s': State)
    requires CounterInv(bins, s) && LaunchedInv(s) && Next(bins, s, s')
    ensures LaunchedInv(s') && CountOf(s'.stages, Received) >= CountOf(s.stages, Received)
  {
    if Launch(bins, s, s') {
      LaunchCounter(bins, s, s');
    } else if OtherStep(bins, s, s') {
      OtherStepCounter(bins, s, s');
    } else if i: nat :| Complete(bins, s, s', i) {
      CompleteCounter(bins, s, s', i);
    }
  }

  lemma NextPastLimit(bins: Bins, s: State, s': State)
    requires CounterInv(bins, s) && FinishedInv(bins, s) && PastLimitInv(s) && Next(bins, s, s')
    ensures PastLimitInv(s')
  {
    NextLaunched(bins, s, s');
    hide CountOf;
  }

  lemma {:induction false} ReachedPastLimit(bins: Bins, k: nat, s: State)
    requires Reaches(bins, k, s)
    ensures PastLimitInv(s)
  {
    hide Next, CounterInv, FinishedInv, FetchedInv, PastLimitInv;
    if k == 0 {
      InitPastLimit(bins);
    } else {
      var before :| Reaches(bins, k - 1, before) && Next(bins, before, s);
      ReachedPastLimit(bins, k - 1, before);
      ReachedFinished(bins, k - 1, before);
      NextPastLimit(bins, before, s);
    }
  }

  lemma InitPastLimit(bins: Bins)
    ensures PastLimitInv(Init(bins))
  {
    InitCounter(bins);
  }

  /** Only bins with a height are received, and only an empty one panics. */
  ghost predicate EmptyInv(bins: Bins, s: State) {
    && |s.stages| == |bins|
    && (forall i :: 0 <= i < |bins| && s.stages[i] == Received ==> bins[i] != [])
    && (s.crashed ==> [] in bins)
  }

  lemma NextEmpty(bins: Bins, s: State, s': State)
    requires EmptyInv(bins, s) && Next(bins, s, s')
    ensures EmptyInv(bins, s')
  {
  }

  lemma {:induction false} ReachedEmpty(bins: Bins, k: nat, s: State)
    requires Reaches(bins, k, s)
    ensures EmptyInv(bins, s)
  {
    hide Next;
    if k > 0 {
      var before :| Reaches(bins, k - 1, before) && Next(bins, before, s);
      ReachedEmpty(bins, k - 1, before);
      NextEmpty(bins, before, s);
    }
  }

  /** If no bin that is always launched can complete, none completes. */
  lemma NextNoneReceived(bins: Bins, s: State, s': State)
    requires forall i :: 0 <= i < |bins| && i < DEFAULT_MAX_BATCH_NUMBER ==> bins[i] == []
    requires CounterInv(bins, s) && PastLimitInv(s) && CountOf(s.stages, Received) == 0 && Next(bins, s, s')
    ensures CountOf(s'.stages, Received) == 0
  {
    if OtherStep(bins, s, s') {
      OtherStepCounter(bins, s, s');
    }
  }

  lemma {:induction false} NoneReceived(bins: Bins, k: nat, s: State)
    requires Reaches(bins, k, s)
    requires forall i :: 0 <= i < |bins| && i < DEFAULT_MAX_BATCH_NUMBER ==> bins[i] == []
    ensures CountOf(s.stages, Received) == 0
  {
    hide Next, CounterInv, BoundInv, PastLimitInv, CountOf;
    if k == 0 {
      InitCounter(bins);
    } else {
      var before :| Reaches(bins, k - 1, before) && Next(bins, before, s);
      NoneReceived(bins, k - 1, before);
      ReachedBound(bins, k - 1, before);
      ReachedPastLimit(bins, k - 1, before);
      NextNoneReceived(bins, before, s);
    }
  }

  /** At most one bin more than the limit, or nothing that could send a signal. */
  ghost predicate LimitSafe(bins: Bins) {
    || |bins| <= DEFAULT_MAX_BATCH_NUMBER + 1
    || forall i :: 0 <= i < |bins| && i < DEFAULT_MAX_BATCH_NUMBER ==> bins[i] == []
  }

  /** Then the limit holds on every interleaving. */
  lemma LimitHolds(bins: Bins, k: nat, s: State)
    requires Reaches(bins, k, s) && LimitSafe(bins)
    ensures RunningCount(s) <= DEFAULT_MAX_BATCH_NUMBER
  {
    ReachedPastLimit(bins, k, s);
    if |bins| > DEFAULT_MAX_BATCH_NUMBER + 1 {
      NoneReceived(bins, k, s);
    }
    ReachedBound(bins, k, s);
    hide Reaches, CountOf;
  }

  ghost predicate WithinLimit(bins: Bins) {
    forall k, s :: Reaches(bins, k, s) ==> RunningCount(s) <= DEFAULT_MAX_BATCH_NUMBER
  }

  /** The limit holds on every interleaving if and only if there is at most one bin more than it allows, or all the bins
      it allows are empty. */
  lemma LimitHoldsIff(bins: Bins)
    ensures WithinLimit(bins) <==> LimitSafe(bins)
  {
    hide Reaches, RunningCount;
    if LimitSafe(bins) {
      forall k, s | Reaches(bins, k, s) ensures RunningCount(s) <= DEFAULT_MAX_BATCH_NUMBER {
        LimitHolds(bins, k, s);
      }
    } else {
      var i: nat :| i < |bins| && i < DEFAULT_MAX_BATCH_NUMBER && bins[i] != [];
      StaleSignalReleasesOneMore(bins, i);
    }
  }

  /** For the bins of a range their number alone decides. */
  lemma RangeWithinLimitIff(start: uint64, end: uint64, batch: uint64)
    requires start <= end && batch > 0
    ensures WithinLimit(BlockHeightBins(start, end, batch).value)
            <==> BinsAllocated(start, end, batch) <= DEFAULT_MAX_BATCH_NUMBER + 1
  {
    var n := BinsAllocated(start, end, batch);
    LimitHoldsIff(BlockHeightBins(start, end, batch).value);
    if n > 1 {
      BinAt(start, end, batch, n, 0);
      BinEmpty(start, end, batch, 0);
    }
    hide WithinLimit, BinCount, Fits;
  }

  // ---- when done is always sent ----

  /** The dispatcher waits only with the limit launched, and ends only with everything launched. */
  ghost predicate WaitInv(bins: Bins, s: State) {
    && (s.dispatcher == OverLimit || s.dispatcher == Blocked ==> s.next >= DEFAULT_MAX_BATCH_NUMBER)
    && (s.dispatcher == Ended ==> s.next == |bins|)
    && (s.listener == AtSelect ==> s.finished < |bins|)
  }

  lemma NextWait(bins: Bins, s: State, s': State)
    requires CounterInv(bins, s) && FinishedInv(bins, s) && LaunchedInv(s) && WaitInv(bins, s) && Next(bins, s, s')
    ensures WaitInv(bins, s')
  {
    hide CountOf;
  }

  lemma {:induction false} ReachedWait(bins: Bins, k: nat, s: State)
    requires Reaches(bins, k, s) && bins != []
    ensures WaitInv(bins, s)
  {
    hide Next, CounterInv, FinishedInv, FetchedInv, LaunchedInv;
    if k > 0 {
      var before :| Reaches(bins, k - 1, before) && Next(bins, before, s);
      ReachedWait(bins, k - 1, before);
      ReachedFinished(bins, k - 1, before);
      ReachedPastLimit(bins, k - 1, before);
      NextWait(bins, before, s);
    }
  }

  ghost predicate CanStep(bins: Bins, s: State) {
    exists s' :: Next(bins, s, s')
  }

  lemma DispatcherCanStep(bins: Bins, s: State)
    requires CounterInv(bins, s) && !s.crashed && s.dispatcher != Blocked && s.dispatcher != Ended
    ensures CanStep(bins, s)
  {
    if s.dispatcher == Launching {
      var s' := s.(dispatcher := AtLoop, next := s.next + 1, stages := s.stages[s.next := Running]);
      assert Launch(bins, s, s') && Next(bins, s, s');
    } else if s.dispatcher == OverLimit {
      var s' := s.(dispatcher := Blocked);
      assert Block(s, s') && Next(bins, s, s');
    } else if s.next < |bins| {
      var s' := s.(active := s.active + 1,
                   dispatcher := if s.active + 1 > DEFAULT_MAX_BATCH_NUMBER then OverLimit else Launching);
      assert Increment(bins, s, s') && Next(bins, s, s');
    } else {
      var s' := s.(dispatcher := Ended);
      assert End(bins, s, s') && Next(bins, s, s');
    }
  }

  lemma ListenerCanStep(bins: Bins, s: State)
    requires !s.crashed && s.listener != AtSelect && s.listener != Stopped
    ensures CanStep(bins, s)
  {
    if s.listener == Holding {
      var s' := s.(active := s.active - 1, listener := Decremented);
      assert Decrement(s, s') && Next(bins, s, s');
    } else if s.listener == Decremented {
      var s' := s.(dispatcher := if s.dispatcher == Blocked then Launching else s.dispatcher, listener := Counting);
      assert Signal(s, s') && Next(bins, s, s');
    } else if s.listener == Counting {
      var s' := s.(finished := s.finished + 1, listener := if s.finished + 1 >= |bins| then Finishing else AtSelect);
      assert Count(bins, s, s') && Next(bins, s, s');
    } else {
      var s' := s.(listener := Stopped, doneSent := s.doneSent + 1);
      assert SendDone(s, s') && Next(bins, s, s');
    }
  }

  lemma WorkerCanStep(bins: Bins, s: State, i: nat)
    requires !s.crashed && i < |s.stages| == |bins| && s.listener == AtSelect
    requires s.stages[i] == Running || s.stages[i] == Fetched
    ensures CanStep(bins, s)
  {
    if s.stages[i] == Running {
      var s' := s.(stages := s.stages[i := Fetched], fetched := s.fetched + bins[i]);
      assert Fetch(bins, s, s', i) && Next(bins, s, s');
    } else if bins[i] == [] {
      var s' := s.(crashed := true);
      assert Crash(bins, s, s', i) && Next(bins, s, s');
    } else {
      var s' := s.(stages := s.stages[i := Received], listener := Holding);
      assert Complete(bins, s, s', i) && Next(bins, s, s');
    }
  }

  lemma {:induction false} CountAll(stages: seq<Stage>, st: Stage)
    requires forall i :: 0 <= i < |stages| ==> stages[i] == st
    ensures CountOf(stages, st) == |stages|
  {
    if stages != [] {
      CountAll(stages[..|stages| - 1], st);
    }
  }

  /** A schedule that cannot go on, without a panic and without done, is one whose dispatcher is blocked with every
      launched goroutine's completion received. */
  lemma StuckIsBlocked(bins: Bins, k: nat, s: State)
    requires Reaches(bins, k, s) && bins != [] && !CanStep(bins, s) && !s.crashed && s.doneSent == 0
    ensures s.dispatcher == Blocked && DEFAULT_MAX_BATCH_NUMBER <= s.next < |bins| == |s.stages|
    ensures forall i :: 0 <= i < s.next ==> s.stages[i] == Received
  {
    ReachedWait(bins, k, s);
    ReachedFinished(bins, k, s);
    hide Reaches, CanStep, FetchedInv;
    if s.listener != AtSelect {
      ListenerCanStep(bins, s);
    }
    if s.dispatcher != Blocked && s.dispatcher != Ended {
      DispatcherCanStep(bins, s);
    }
    forall i | 0 <= i < s.next ensures s.stages[i] == Received {
      if s.stages[i] != Received {
        WorkerCanStep(bins, s, i);
      }
    }
    if s.dispatcher == Ended {
      CountAll(s.stages, Received);
    }
  }

  /** With bins, but no more than the limit, no interleaving is stuck before done has been sent or a goroutine has
      panicked. */
  lemma SmallNeverStuck(bins: Bins, k: nat, s: State)
    requires Reaches(bins, k, s) && 0 < |bins| <= DEFAULT_MAX_BATCH_NUMBER && s.doneSent == 0 && !s.crashed
    ensures CanStep(bins, s)
  {
    hide Reaches, CanStep;
    if !CanStep(bins, s) {
      StuckIsBlocked(bins, k, s);
    }
  }

  ghost predicate CanStick(bins: Bins) {
    exists k, s :: Reaches(bins, k, s) && s.doneSent == 0 && !s.crashed && !CanStep(bins, s)
  }

  /** Without bins nobody ever sends done. */
  lemma NoBinsStuck(bins: Bins)
    requires bins == []
    ensures CanStick(bins)
  {
    var s := Init(bins).(dispatcher := Ended);
    assert Reaches(bins, 0, Init(bins));
    assert End(bins, Init(bins), s);
    OneMore(bins, 0, Init(bins), s);
    hide Reaches;
    forall s' ensures !Next(bins, s, s') {
    }
  }

  lemma ManyBinsStuck(bins: Bins)
    requires |bins| > DEFAULT_MAX_BATCH_NUMBER && !EmptyEarly(bins)
    ensures CanStick(bins)
  {
    LostWakeup(bins);
    hide Reaches, Next;
    var k, s :|
      Reaches(bins, k, s) && s.doneSent == 0 && !s.crashed && s.next < |bins| && forall s' :: !Next(bins, s, s');
    assert !CanStep(bins, s);
  }

  lemma NotStuck(bins: Bins, k: nat, s: State)
    requires Reaches(bins, k, s) && s.doneSent == 0 && !s.crashed && bins != []
    requires |bins| <= DEFAULT_MAX_BATCH_NUMBER || EmptyEarly(bins)
    ensures CanStep(bins, s)
  {
    ReachedEmpty(bins, k, s);
    hide Reaches, CanStep;
    if !CanStep(bins, s) {
      StuckIsBlocked(bins, k, s);
    }
  }

  /** Some interleaving is stuck, with neither done sent nor a panic, if and only if there are no bins, or more than the
      limit and none of those always launched is empty. */
  lemma CanStickIff(bins: Bins)
    ensures CanStick(bins) <==> bins == [] || (|bins| > DEFAULT_MAX_BATCH_NUMBER && !EmptyEarly(bins))
  {
    hide Reaches, CanStep, EmptyEarly;
    if bins == [] {
      NoBinsStuck(bins);
    } else if |bins| > DEFAULT_MAX_BATCH_NUMBER && !EmptyEarly(bins) {
      ManyBinsStuck(bins);
    } else {
      forall k, s | Reaches(bins, k, s) && s.doneSent == 0 && !s.crashed ensures CanStep(bins, s) {
        NotStuck(bins, k, s);
      }
    }
  }

  // ---- every schedule ends ----

  function DispatcherRank(d: Dispatcher): nat {
    match d
    case AtLoop => 4
    case OverLimit => 3
    case Blocked => 2
    case Launching => 1
    case Ended => 0
  }

  function ListenerRank(l: Listener): nat {
    match l
    case Holding => 5
    case Decremented => 4
    case Counting => 3
    case AtSelect => 2
    case Finishing => 1
    case Stopped => 0
  }

  /** A bound on the steps still possible. */
  function StepsLeft(bins: Bins, s: State): int {
    12 * (|bins| - s.next) + DispatcherRank(s.dispatcher)
    + 5 * CountOf(s.stages, Running) + 4 * CountOf(s.stages, Fetched) + ListenerRank(s.listener)
    + if s.crashed then 0 else 1
  }

  lemma StageSteps(stages: seq<Stage>, i: nat, to: Stage)
    requires i < |stages|
    requires || (stages[i] == NotLaunched && to == Running) || (stages[i] == Running && to == Fetched)
             || (stages[i] == Fetched && to == Received)
    ensures 5 * CountOf(stages[i := to], Running) + 4 * CountOf(stages[i := to], Fetched)
            == 5 * CountOf(stages, Running) + 4 * CountOf(stages, Fetched)
               + match to case Running => 5 case Fetched => -1 case _ => -4
  {
    CountUpdate(stages, i, to, Running);
    CountUpdate(stages, i, to, Fetched);
    hide CountOf;
  }

  lemma NextUsesAStep(bins: Bins, s: State, s': State)
    requires CounterInv(bins, s) && Next(bins, s, s')
    ensures StepsLeft(bins, s') < StepsLeft(bins, s)
  {
    if Launch(bins, s, s') {
      StageSteps(s.stages, s.next, Running);
    } else if i: nat :| Fetch(bins, s, s', i) {
      StageSteps(s.stages, i, Fetched);
    } else if i: nat :| Complete(bins, s, s', i) {
      StageSteps(s.stages, i, Received);
    }
    hide CountOf, CounterInv;
  }

  lemma {:induction false} SchedulesEnd(bins: Bins, k: nat, s: State)
    requires Reaches(bins, k, s)
    ensures 0 <= StepsLeft(bins, s) && k + StepsLeft(bins, s) <= 12 * |bins| + 7
  {
    hide Next, CounterInv, BoundInv, StepsLeft;
    if k == 0 {
      InitSteps(bins);
    } else {
      var before :| Reaches(bins, k - 1, before) && Next(bins, before, s);
      SchedulesEnd(bins, k - 1, before);
      ReachedBound(bins, k - 1, before);
      NextUsesAStep(bins, before, s);
    }
    ReachedBound(bins, k, s);
    StepsPositive(bins, s);
  }

  lemma StepsPositive(bins: Bins, s: State)
    requires CounterInv(bins, s)
    ensures StepsLeft(bins, s) >= 0
  {
  }

  lemma InitSteps(bins: Bins)
    ensures StepsLeft(bins, Init(bins)) == 12 * |bins| + 7
  {
    InitCounter(bins);
  }

  /** Every schedule can be continued to one that cannot go on. */
  lemma SomeScheduleEnds(bins: Bins, k: nat, s: State) returns (l: nat, e: State)
    requires Reaches(bins, k, s)
    ensures Reaches(bins, l, e) && !CanStep(bins, e)
    decreases 12 * |bins| + 7 - k
  {
    hide Next, StepsLeft;
    if s' :| Next(bins, s, s') {
      OneMore(bins, k, s, s');
      SchedulesEnd(bins, k + 1, s');
      l, e := SomeScheduleEnds(bins, k + 1, s');
    } else {
      l, e := k, s;
    }
  }

  /** With an empty bin done is never sent. */
  lemma DoneMeansNoneEmpty(bins: Bins, k: nat, s: State)
    requires Reaches(bins, k, s) && s.doneSent == 1
    ensures [] !in bins && !s.crashed
  {
    DoneMeansComplete(bins, k, s);
    ReachedEmpty(bins, k, s);
    hide Reaches;
  }

  /** Where there are bins, but no more than the limit, every schedule, however it goes on, ends after a bounded number
      of steps: in a panic if some bin is empty, and with done sent, once, if none is. */
  lemma SmallEnds(bins: Bins, k: nat, s: State)
    requires Reaches(bins, k, s) && 0 < |bins| <= DEFAULT_MAX_BATCH_NUMBER
    ensures k <= 12 * |bins| + 7
    ensures !CanStep(bins, s) ==> (s.crashed <==> [] in bins) && (s.doneSent == 1 <==> [] !in bins)
  {
    SchedulesEnd(bins, k, s);
    DoneMeansComplete(bins, k, s);
    ReachedEmpty(bins, k, s);
    hide Reaches, CanStep, StepsLeft;
    if s.doneSent == 1 {
      DoneMeansNoneEmpty(bins, k, s);
    } else if !s.crashed {
      SmallNeverStuck(bins, k, s);
    }
  }

  /** Every schedule that cannot go on has sent done. */
  ghost predicate AlwaysSendsDone(bins: Bins) {
    forall k, s :: Reaches(bins, k, s) && !CanStep(bins, s) ==> s.doneSent == 1
  }

  /** Liveness, exactly where it holds. */
  lemma AlwaysSendsDoneIff(bins: Bins)
    ensures AlwaysSendsDone(bins) <==> 0 < |bins| <= DEFAULT_MAX_BATCH_NUMBER && [] !in bins
  {
    CanStickIff(bins);
    assert Reaches(bins, 0, Init(bins));
    var l, e := SomeScheduleEnds(bins, 0, Init(bins));
    hide Reaches, CanStep;
    if 0 < |bins| <= DEFAULT_MAX_BATCH_NUMBER && [] !in bins {
      forall k, s | Reaches(bins, k, s) && !CanStep(bins, s) ensures s.doneSent == 1 {
        SmallEnds(bins, k, s);
      }
    } else if [] in bins && e.doneSent == 1 {
      DoneMeansNoneEmpty(bins, l, e);
    }
  }

  /** Every schedule that cannot go on has ended in a panic. */
  ghost predicate AlwaysCrashes(bins: Bins) {
    forall k, s :: Reaches(bins, k, s) && !CanStep(bins, s) ==> s.crashed
  }

  /** A panic is certain if and only if one of the bins that are always launched is empty. */
  lemma AlwaysCrashesIff(bins: Bins)
    ensures AlwaysCrashes(bins) <==> EmptyEarly(bins)
  {
    CanStickIff(bins);
    assert Reaches(bins, 0, Init(bins));
    var l, e := SomeScheduleEnds(bins, 0, Init(bins));
    hide Reaches, CanStep;
    if EmptyEarly(bins) {
      forall k, s | Reaches(bins, k, s) && !CanStep(bins, s) ensures s.crashed {
        DoneMeansComplete(bins, k, s);
        if s.doneSent == 1 {
          DoneMeansNoneEmpty(bins, k, s);
        }
      }
    } else if 0 < |bins| <= DEFAULT_MAX_BATCH_NUMBER {
      SmallEnds(bins, l, e);
    }
  }

  /** For a range of heights: done is always sent if and only if no boundary wraps and there are no more bins than the
      limit. */
  lemma RangeSendsDoneIff(start: uint64, end: uint64, batch: uint64)
    requires start <= end && batch > 0
    ensures AlwaysSendsDone(BlockHeightBins(start, end, batch).value)
            <==> Fits(start, end, batch) && BinCount(start, end, batch) <= DEFAULT_MAX_BATCH_NUMBER
  {
    AlwaysSendsDoneIff(BlockHeightBins(start, end, batch).value);
    EmptyBinIff(start, end, batch);
    LastBin(start, end, batch);
    hide AlwaysSendsDone, BinCount;
  }
}
