/** The dispatcher and its workers, as a step relation over one pass
    (pkg/super_node/resync/service.go, pkg/super_node/backfiller.go).
    A send on an unbuffered channel and its receive are one step. */
module WorkerPool {
  import opened Seqs

  type Bins = seq<seq<nat>>

  /** A worker is at its select, inside a bin with pos heights behind it, or gone. */
  datatype Worker = Idle | Busy(bin: nat, pos: nat) | Exited

  /** The dispatcher is sending bin number next, has told some workers to quit, or has returned; or a worker has
      panicked and the program is gone. */
  datatype Phase = Sending(next: nat) | Quitting(told: nat) | Returned | Crashed

  /** What has happened to a bin: who took it, how far that worker got, and whether it is through. */
  datatype Progress = Unsent | Taken(worker: nat, pos: nat, over: bool)

  /** Besides the running state: the bins in the order they were finished, the heights in the order they were
      processed, and those whose payload was published and indexed. */
  datatype Pool = Pool(
    phase: Phase,
    workers: seq<Worker>,
    progress: seq<Progress>,
    finished: seq<nat>,
    attempted: seq<nat>,
    indexed: seq<nat>)

  function Init(bins: Bins, n: nat): Pool {
    Pool(Sending(0), seq(n, i => Idle), seq(|bins|, i => Unsent), [], [], [])
  }

  /** heightsChan <- heights, received by an idle worker. */
  ghost predicate Handoff(bins: Bins, s: Pool, s': Pool, w: nat) {
    && s.phase.Sending? && s.phase.next < |bins| == |s.progress|
    && w < |s.workers| && s.workers[w].Idle?
    && bins[s.phase.next] != []
    && s' == s.(phase := Sending(s.phase.next + 1),
                workers := s.workers[w := Busy(s.phase.next, 0)],
                progress := s.progress[s.phase.next := Taken(w, 0, false)])
  }

  /** An empty bin, received by an idle worker, which looks at its first height. */
  ghost predicate Crash(bins: Bins, s: Pool, s': Pool, w: nat) {
    && s.phase.Sending? && s.phase.next < |bins|
    && w < |s.workers| && s.workers[w].Idle?
    && bins[s.phase.next] == []
    && s' == s.(phase := Crashed)
  }

  /** One payload of the worker's bin: fetched, converted, published and indexed, or given up on after an error. */
  ghost predicate Process(bins: Bins, s: Pool, s': Pool, w: nat, ok: bool) {
    && w < |s.workers| && s.workers[w].Busy?
    && var Busy(bin, pos) := s.workers[w];
    && bin < |bins| == |s.progress| && pos < |bins[bin]|
    && s' == s.(workers := s.workers[w := Busy(bin, pos + 1)],
                progress := s.progress[bin := Taken(w, pos + 1, false)],
                attempted := s.attempted + [bins[bin][pos]],
                indexed := if ok then s.indexed + [bins[bin][pos]] else s.indexed)
  }

  /** The worker has gone through its bin and is back at its select. */
  ghost predicate Finish(bins: Bins, s: Pool, s': Pool, w: nat) {
    && w < |s.workers| && s.workers[w].Busy?
    && var Busy(bin, pos) := s.workers[w];
    && bin < |bins| == |s.progress| && pos == |bins[bin]|
    && s' == s.(workers := s.workers[w := Idle],
                progress := s.progress[bin := Taken(w, pos, true)],
                finished := s.finished + [bin])
  }

  ghost predicate AllSent(bins: Bins, s: Pool, s': Pool) {
    && s.phase == Sending(|bins|)
    && s' == s.(phase := Quitting(0))
  }

  /** quitChan <- true, received by an idle worker. */
  ghost predicate Quit(s: Pool, s': Pool, w: nat) {
    && s.phase.Quitting? && s.phase.told < |s.workers|
    && w < |s.workers| && s.workers[w].Idle?
    && s' == s.(phase := Quitting(s.phase.told + 1), workers := s.workers[w := Exited])
  }

  ghost predicate Return(s: Pool, s': Pool) {
    && s.phase == Quitting(|s.workers|)
    && s' == s.(phase := Returned)
  }

  ghost predicate Next(bins: Bins, s: Pool, s': Pool) {
    && !s.phase.Crashed?
    && (|| (exists w: nat :: Handoff(bins, s, s', w))
        || (exists w: nat :: Crash(bins, s, s', w))
        || (exists w: nat, ok :: Process(bins, s, s', w, ok))
        || (exists w: nat :: Finish(bins, s, s', w))
        || AllSent(bins, s, s')
        || (exists w: nat :: Quit(s, s', w))
        || Return(s, s'))
  }

  /** Some schedule of k steps takes n fresh workers to state s. */
  ghost predicate Reaches(bins: Bins, n: nat, k: nat, s: Pool) {
    if k == 0 then s == Init(bins, n)
    else exists before :: Reaches(bins, n, k - 1, before) && Next(bins, before, s)
  }

  // ---- the invariant ----

  function Exits(workers: seq<Worker>): nat {
    if workers == [] then 0 else Exits(workers[..|workers| - 1]) + if workers[|workers| - 1].Exited? then 1 else 0
  }

  lemma {:induction false} ExitsUpdate(workers: seq<Worker>, i: nat, w: Worker)
    requires i < |workers| && !workers[i].Exited?
    ensures Exits(workers[i := w]) == Exits(workers) + if w.Exited? then 1 else 0
  {
    var init := workers[..|workers| - 1];
    if i < |init| {
      ExitsUpdate(init, i, w);
      assert workers[i := w][..|init|] == init[i := w];
    } else {
      assert workers[i := w][..|init|] == init;
    }
  }

  lemma {:induction false} ExitsBound(workers: seq<Worker>)
    ensures Exits(workers) <= |workers|
    ensures Exits(workers) == |workers| <==> forall i :: 0 <= i < |workers| ==> workers[i].Exited?
    ensures Exits(workers) == 0 <==> forall i :: 0 <= i < |workers| ==> !workers[i].Exited?
  {
    if workers != [] {
      ExitsBound(workers[..|workers| - 1]);
    }
  }

  /** How many bins have been sent and how many workers have quit, by phase. */
  ghost predicate PhaseInv(bins: Bins, s: Pool) {
    && |s.progress| == |bins|
    && match s.phase
       case Sending(next) =>
         next <= |bins| && Exits(s.workers) == 0 && forall k :: 0 <= k < |bins| ==> (s.progress[k].Unsent? <==> next <= k)
       case Quitting(told) =>
         told <= |s.workers| && Exits(s.workers) == told && forall k :: 0 <= k < |bins| ==> s.progress[k].Taken?
       case Returned =>
         Exits(s.workers) == |s.workers| && forall k :: 0 <= k < |bins| ==> s.progress[k].Taken?
       case Crashed => [] in bins
  }

  /** A busy worker and the bin it is in agree, a bin not yet through is in its worker's hands, and no bin that was
      taken is empty. */
  ghost predicate HandsInv(bins: Bins, s: Pool) {
    && |s.progress| == |bins|
    && (forall w :: 0 <= w < |s.workers| && s.workers[w].Busy? ==>
          && s.workers[w].bin < |bins|
          && s.workers[w].pos <= |bins[s.workers[w].bin]|
          && s.progress[s.workers[w].bin] == Taken(w, s.workers[w].pos, false))
    && (forall k :: 0 <= k < |bins| && s.progress[k].Taken? ==> bins[k] != [])
    && (forall k :: 0 <= k < |bins| && s.progress[k].Taken? ==>
          if s.progress[k].over then s.progress[k].pos == |bins[k]|
          else s.progress[k].worker < |s.workers| && s.workers[s.progress[k].worker] == Busy(k, s.progress[k].pos))
  }

  /** The finished bins are the bins that are through, each listed once. */
  ghost predicate FinishedInv(bins: Bins, s: Pool) {
    && |s.progress| == |bins|
    && Distinct(s.finished)
    && (forall k :: k in s.finished ==> k < |bins|)
    && (forall k :: 0 <= k < |bins| ==> (k in s.finished <==> s.progress[k].Taken? && s.progress[k].over))
  }

  /** How often x is among the heights a worker has behind it in this bin. */
  function Behind(bin: seq<nat>, p: Progress, x: nat): nat {
    if p.Taken? && p.pos <= |bin| then multiset(bin[..p.pos])[x] else 0
  }

  function AllBehind(bins: Bins, progress: seq<Progress>, x: nat): nat
    requires |progress| == |bins|
  {
    if bins == [] then 0
    else
      AllBehind(bins[..|bins| - 1], progress[..|bins| - 1], x) + Behind(bins[|bins| - 1], progress[|bins| - 1], x)
  }

  lemma {:induction false} AllBehindUpdate(bins: Bins, progress: seq<Progress>, k: nat, p: Progress, x: nat)
    requires |progress| == |bins| && k < |bins|
    ensures AllBehind(bins, progress[k := p], x) + Behind(bins[k], progress[k], x)
            == AllBehind(bins, progress, x) + Behind(bins[k], p, x)
  {
    var init := progress[..|bins| - 1];
    if k < |init| {
      AllBehindUpdate(bins[..|init|], init, k, p, x);
      assert progress[k := p][..|init|] == init[k := p];
    } else {
      assert progress[k := p][..|init|] == init;
    }
  }

  /** The processed heights are, bin by bin, the part its worker has behind it; only they can have been indexed. */
  ghost predicate HeightsInv(bins: Bins, s: Pool) {
    && |s.progress| == |bins|
    && (forall x: nat :: multiset(s.attempted)[x] == AllBehind(bins, s.progress, x))
    && (forall x: nat :: multiset(s.indexed)[x] <= multiset(s.attempted)[x])
  }

  ghost predicate Inv(bins: Bins, s: Pool) {
    PhaseInv(bins, s) && HandsInv(bins, s) && FinishedInv(bins, s) && HeightsInv(bins, s)
  }

  lemma {:induction false} NothingBehind(bins: Bins, progress: seq<Progress>, x: nat)
    requires |progress| == |bins| && forall k :: 0 <= k < |bins| ==> progress[k].Unsent?
    ensures AllBehind(bins, progress, x) == 0
  {
    if bins != [] {
      NothingBehind(bins[..|bins| - 1], progress[..|bins| - 1], x);
    }
  }

  lemma InitInv(bins: Bins, n: nat)
    ensures Inv(bins, Init(bins, n))
  {
    ExitsBound(Init(bins, n).workers);
    forall x: nat ensures AllBehind(bins, Init(bins, n).progress, x) == 0 {
      NothingBehind(bins, Init(bins, n).progress, x);
    }
  }

  lemma HandoffInv(bins: Bins, s: Pool, s': Pool, w: nat)
    requires Inv(bins, s) && Handoff(bins, s, s', w)
    ensures Inv(bins, s')
  {
    assert PhaseInv(bins, s') by {
      ExitsUpdate(s.workers, w, s'.workers[w]);
    }
    assert HeightsInv(bins, s') by {
      forall x: nat ensures AllBehind(bins, s'.progress, x) == AllBehind(bins, s.progress, x) {
        AllBehindUpdate(bins, s.progress, s.phase.next, Taken(w, 0, false), x);
      }
    }
  }

  lemma BehindOneMore(bin: seq<nat>, w: nat, pos: nat, x: nat)
    requires pos < |bin|
    ensures Behind(bin, Taken(w, pos + 1, false), x)
            == Behind(bin, Taken(w, pos, false), x) + if bin[pos] == x then 1 else 0
  {
    assert bin[..pos + 1] == bin[..pos] + [bin[pos]];
  }

  lemma ProcessHeight(bins: Bins, s: Pool, s': Pool, w: nat, ok: bool, x: nat)
    requires HandsInv(bins, s) && HeightsInv(bins, s) && Process(bins, s, s', w, ok)
    ensures |s'.progress| == |bins| && multiset(s'.attempted)[x] == AllBehind(bins, s'.progress, x)
    ensures multiset(s'.indexed)[x] <= multiset(s'.attempted)[x]
  {
    var Busy(bin, pos) := s.workers[w];
    assert s.progress[bin] == Taken(w, pos, false);
    assert multiset(s.attempted)[x] == AllBehind(bins, s.progress, x);
    assert multiset(s.indexed)[x] <= multiset(s.attempted)[x];
    hide AllBehind, Behind, HandsInv, HeightsInv;
    AllBehindUpdate(bins, s.progress, bin, Taken(w, pos + 1, false), x);
    BehindOneMore(bins[bin], w, pos, x);
  }

  lemma ProcessHeights(bins: Bins, s: Pool, s': Pool, w: nat, ok: bool)
    requires HandsInv(bins, s) && HeightsInv(bins, s) && Process(bins, s, s', w, ok)
    ensures HeightsInv(bins, s')
  {
    assert |s'.progress| == |bins|;
    forall x: nat
      ensures multiset(s'.attempted)[x] == AllBehind(bins, s'.progress, x)
      ensures multiset(s'.indexed)[x] <= multiset(s'.attempted)[x]
    {
      hide AllBehind, HandsInv, Process;
      ProcessHeight(bins, s, s', w, ok, x);
    }
  }

  lemma ProcessInv(bins: Bins, s: Pool, s': Pool, w: nat, ok: bool)
    requires Inv(bins, s) && Process(bins, s, s', w, ok)
    ensures Inv(bins, s')
  {
    assert PhaseInv(bins, s') by {
      ExitsUpdate(s.workers, w, s'.workers[w]);
    }
    assert HeightsInv(bins, s') by {
      ProcessHeights(bins, s, s', w, ok);
    }
  }

  lemma FinishInv(bins: Bins, s: Pool, s': Pool, w: nat)
    requires Inv(bins, s) && Finish(bins, s, s', w)
    ensures Inv(bins, s')
  {
    assert PhaseInv(bins, s') by {
      ExitsUpdate(s.workers, w, Idle);
    }
    assert HeightsInv(bins, s') by {
      forall x: nat ensures AllBehind(bins, s'.progress, x) == AllBehind(bins, s.progress, x) {
        AllBehindUpdate(bins, s.progress, s.workers[w].bin, Taken(w, s.workers[w].pos, true), x);
      }
    }
  }

  lemma QuitInv(bins: Bins, s: Pool, s': Pool, w: nat)
    requires Inv(bins, s) && Quit(s, s', w)
    ensures Inv(bins, s')
  {
    ExitsUpdate(s.workers, w, Exited);
  }

  lemma NextInv(bins: Bins, s: Pool, s': Pool)
    requires Inv(bins, s) && Next(bins, s, s')
    ensures Inv(bins, s') && |s'.workers| == |s.workers|
  {
    if w: nat :| Handoff(bins, s, s', w) {
      HandoffInv(bins, s, s', w);
    } else if w: nat, ok :| Process(bins, s, s', w, ok) {
      ProcessInv(bins, s, s', w, ok);
    } else if w: nat :| Finish(bins, s, s', w) {
      FinishInv(bins, s, s', w);
    } else if w: nat :| Quit(s, s', w) {
      QuitInv(bins, s, s', w);
    }
  }

  lemma {:induction false} ReachedInv(bins: Bins, n: nat, k: nat, s: Pool)
    requires Reaches(bins, n, k, s)
    ensures Inv(bins, s) && |s.workers| == n
  {
    hide Next, Inv;
    if k == 0 {
      InitInv(bins, n);
    } else {
      var before :| Reaches(bins, n, k - 1, before) && Next(bins, before, s);
      ReachedInv(bins, n, k - 1, before);
      NextInv(bins, before, s);
    }
  }

  // ---- what holds when the dispatcher returns ----

  lemma {:induction false} EverythingBehind(bins: Bins, progress: seq<Progress>, x: nat)
    requires |progress| == |bins|
    requires forall k :: 0 <= k < |bins| ==> progress[k].Taken? && progress[k].pos == |bins[k]|
    ensures AllBehind(bins, progress, x) == multiset(Flatten<nat>(bins))[x]
  {
    if bins != [] {
      var init, last := bins[..|bins| - 1], bins[|bins| - 1];
      EverythingBehind(init, progress[..|init|], x);
      assert last[..|last|] == last;
    }
  }

  /** Every worker has exited, and each bin was finished exactly once by the one worker that took it. */
  ghost predicate DrainedPool(bins: Bins, s: Pool) {
    && (forall w :: 0 <= w < |s.workers| ==> s.workers[w].Exited?)
    && |s.progress| == |bins|
    && (forall k :: 0 <= k < |bins| ==> s.progress[k].Taken? && s.progress[k].over)
    && Distinct(s.finished)
    && (forall k :: k in s.finished <==> 0 <= k < |bins|)
  }

  lemma ReturnedIsDrained(bins: Bins, s: Pool)
    requires Inv(bins, s) && s.phase.Returned?
    ensures DrainedPool(bins, s)
  {
    ExitsBound(s.workers);
  }

  lemma ReturnedHeights(bins: Bins, s: Pool)
    requires HandsInv(bins, s) && HeightsInv(bins, s) && DrainedPool(bins, s)
    ensures multiset(s.attempted) == multiset(Flatten<nat>(bins))
    ensures multiset(s.indexed) <= multiset(s.attempted)
  {
    var all, done := multiset(Flatten<nat>(bins)), multiset(s.attempted);
    forall x: nat ensures done[x] == all[x] {
      EverythingBehind(bins, s.progress, x);
    }
    SameBag(done, all);
    BagContained(multiset(s.indexed), done);
  }

  /** Whatever the schedule, on return the pool is drained and the processed heights are those of all the bins. */
  lemma Drained(bins: Bins, n: nat, k: nat, s: Pool)
    requires Reaches(bins, n, k, s) && s.phase.Returned?
    ensures |s.workers| == n && DrainedPool(bins, s)
    ensures multiset(s.attempted) == multiset(Flatten<nat>(bins))
    ensures multiset(s.indexed) <= multiset(s.attempted)
  {
    ReachedInv(bins, n, k, s);
    ReturnedIsDrained(bins, s);
    ReturnedHeights(bins, s);
  }

  // ---- every run ends, and ends by returning ----

  function BinSteps(bin: seq<nat>, p: Progress): nat {
    match p
    case Unsent => |bin| + 2
    case Taken(_, pos, over) => if over || pos > |bin| then 0 else |bin| - pos + 1
  }

  function AllBinSteps(bins: Bins, progress: seq<Progress>): nat
    requires |progress| == |bins|
  {
    if bins == [] then 0
    else
      AllBinSteps(bins[..|bins| - 1], progress[..|bins| - 1]) + BinSteps(bins[|bins| - 1], progress[|bins| - 1])
  }

  lemma {:induction false} AllBinStepsUpdate(bins: Bins, progress: seq<Progress>, k: nat, p: Progress)
    requires |progress| == |bins| && k < |bins|
    ensures AllBinSteps(bins, progress[k := p]) + BinSteps(bins[k], progress[k])
            == AllBinSteps(bins, progress) + BinSteps(bins[k], p)
  {
    var init := progress[..|bins| - 1];
    if k < |init| {
      AllBinStepsUpdate(bins[..|init|], init, k, p);
      assert progress[k := p][..|init|] == init[k := p];
    } else {
      assert progress[k := p][..|init|] == init;
    }
  }

  /** Steps still to come; the same number on every schedule that does not crash. */
  function StepsLeft(bins: Bins, s: Pool): int
    requires |s.progress| == |bins|
  {
    AllBinSteps(bins, s.progress)
    + match s.phase
      case Sending(_) => |s.workers| + 2
      case Quitting(told) => |s.workers| - told + 1
      case Returned => 0
      case Crashed => 0
  }

  lemma NextUsesAStep(bins: Bins, s: Pool, s': Pool)
    requires HandsInv(bins, s) && PhaseInv(bins, s) && Next(bins, s, s')
    ensures |s'.progress| == |bins| && StepsLeft(bins, s') < StepsLeft(bins, s)
    ensures !s'.phase.Crashed? ==> StepsLeft(bins, s') + 1 == StepsLeft(bins, s)
    ensures s'.phase.Crashed? ==> StepsLeft(bins, s') + 1 < StepsLeft(bins, s)
  {
    if w: nat :| Handoff(bins, s, s', w) {
      AllBinStepsUpdate(bins, s.progress, s.phase.next, s'.progress[s.phase.next]);
    } else if w: nat, ok :| Process(bins, s, s', w, ok) {
      AllBinStepsUpdate(bins, s.progress, s.workers[w].bin, s'.progress[s.workers[w].bin]);
    } else if w: nat :| Finish(bins, s, s', w) {
      AllBinStepsUpdate(bins, s.progress, s.workers[w].bin, s'.progress[s.workers[w].bin]);
    }
  }

  ghost predicate CanStep(bins: Bins, s: Pool) {
    exists s' :: Next(bins, s, s')
  }

  /** A step at which publishing and indexing do not fail, or at which they do. */
  ghost predicate NextAs(bins: Bins, s: Pool, s': Pool, ok: bool) {
    && Next(bins, s, s')
    && if ok then |s'.attempted| - |s'.indexed| == |s.attempted| - |s.indexed| else s'.indexed == s.indexed
  }

  ghost predicate CanStepAs(bins: Bins, s: Pool, ok: bool) {
    exists s' :: NextAs(bins, s, s', ok)
  }

  lemma BusyCanMove(bins: Bins, s: Pool, w: nat, ok: bool)
    requires HandsInv(bins, s) && w < |s.workers| && s.workers[w].Busy? && !s.phase.Crashed?
    ensures CanStepAs(bins, s, ok)
  {
    var Busy(bin, pos) := s.workers[w];
    if pos < |bins[bin]| {
      var s' := s.(workers := s.workers[w := Busy(bin, pos + 1)],
                   progress := s.progress[bin := Taken(w, pos + 1, false)],
                   attempted := s.attempted + [bins[bin][pos]],
                   indexed := if ok then s.indexed + [bins[bin][pos]] else s.indexed);
      assert Process(bins, s, s', w, ok);
      assert NextAs(bins, s, s', ok);
    } else {
      var s' := s.(workers := s.workers[w := Idle],
                   progress := s.progress[bin := Taken(w, pos, true)],
                   finished := s.finished + [bin]);
      assert Finish(bins, s, s', w);
      assert NextAs(bins, s, s', ok);
    }
  }

  lemma IdleCanMove(bins: Bins, s: Pool, w: nat, ok: bool)
    requires PhaseInv(bins, s) && w < |s.workers| && s.workers[w].Idle?
    requires s.phase.Sending? || (s.phase.Quitting? && s.phase.told < |s.workers|)
    ensures CanStepAs(bins, s, ok)
  {
    if s.phase.Quitting? {
      var s' := s.(phase := Quitting(s.phase.told + 1), workers := s.workers[w := Exited]);
      assert Quit(s, s', w);
      assert NextAs(bins, s, s', ok);
    } else if s.phase.next < |bins| && bins[s.phase.next] == [] {
      var s' := s.(phase := Crashed);
      assert Crash(bins, s, s', w);
      assert NextAs(bins, s, s', ok);
    } else if s.phase.next < |bins| {
      var s' := s.(phase := Sending(s.phase.next + 1),
                   workers := s.workers[w := Busy(s.phase.next, 0)],
                   progress := s.progress[s.phase.next := Taken(w, 0, false)]);
      assert Handoff(bins, s, s', w);
      assert NextAs(bins, s, s', ok);
    } else {
      var s' := s.(phase := Quitting(0));
      assert AllSent(bins, s, s');
      assert NextAs(bins, s, s', ok);
    }
  }

  /** No pool with a worker is stuck before it has returned or crashed, whether or not publishing and indexing fail. */
  lemma NeverStuck(bins: Bins, n: nat, k: nat, s: Pool, ok: bool)
    requires n > 0 && Reaches(bins, n, k, s) && !s.phase.Returned? && !s.phase.Crashed?
    ensures CanStep(bins, s) && CanStepAs(bins, s, ok)
  {
    ReachedInv(bins, n, k, s);
    ExitsBound(s.workers);
    if s.phase == Quitting(n) {
      var s' := s.(phase := Returned);
      assert Return(s, s');
      assert NextAs(bins, s, s', ok);
    } else {
      var w :| 0 <= w < n && !s.workers[w].Exited?;
      if s.workers[w].Busy? {
        BusyCanMove(bins, s, w, ok);
      } else {
        IdleCanMove(bins, s, w, ok);
      }
    }
    EitherIsStep(bins, s, ok);
  }

  lemma EitherIsStep(bins: Bins, s: Pool, ok: bool)
    requires CanStepAs(bins, s, ok)
    ensures CanStep(bins, s)
  {
    hide Next;
    var s' :| NextAs(bins, s, s', ok);
    assert Next(bins, s, s');
  }

  /** Steps of a whole pass. */
  function PassSteps(bins: Bins, n: nat): nat {
    AllBinSteps(bins, Init(bins, n).progress) + n + 2
  }

  lemma {:induction false} StepsUsed(bins: Bins, n: nat, k: nat, s: Pool)
    requires Reaches(bins, n, k, s)
    ensures |s.progress| == |bins|
    ensures !s.phase.Crashed? ==> StepsLeft(bins, s) + k == PassSteps(bins, n)
    ensures s.phase.Crashed? ==> StepsLeft(bins, s) + k < PassSteps(bins, n)
  {
    hide Next, HandsInv, HeightsInv, FinishedInv;
    if k > 0 {
      var before :| Reaches(bins, n, k - 1, before) && Next(bins, before, s);
      StepsUsed(bins, n, k - 1, before);
      ReachedInv(bins, n, k - 1, before);
      NextUsesAStep(bins, before, s);
      NotCrashed(bins, before, s);
    }
  }

  lemma NotCrashed(bins: Bins, s: Pool, s': Pool)
    requires Next(bins, s, s')
    ensures !s.phase.Crashed?
  {
  }

  lemma {:induction false} NoStepsLeft(bins: Bins, progress: seq<Progress>)
    requires |progress| == |bins|
    requires forall k :: 0 <= k < |bins| ==> progress[k].Taken? && progress[k].over
    ensures AllBinSteps(bins, progress) == 0
  {
    if bins != [] {
      NoStepsLeft(bins[..|bins| - 1], progress[..|bins| - 1]);
    }
  }

  /** No schedule runs past the length of the pass, and the schedules of that length are the ones that have returned. */
  lemma SchedulesEndReturned(bins: Bins, n: nat, k: nat, s: Pool)
    requires Reaches(bins, n, k, s)
    ensures k <= PassSteps(bins, n)
    ensures s.phase.Returned? <==> k == PassSteps(bins, n)
  {
    StepsUsed(bins, n, k, s);
    ReachedInv(bins, n, k, s);
    if s.phase.Returned? {
      ReturnedIsDrained(bins, s);
      NoStepsLeft(bins, s.progress);
    }
  }

  /** Every schedule that cannot go on has crashed if some bin is empty, and returned if none is. */
  lemma EndsCrashedIff(bins: Bins, n: nat, k: nat, s: Pool)
    requires n > 0 && Reaches(bins, n, k, s) && !CanStep(bins, s)
    ensures s.phase.Crashed? <==> [] in bins
    ensures s.phase.Returned? <==> [] !in bins
  {
    hide Reaches, CanStep, HeightsInv, FinishedInv;
    ReachedInv(bins, n, k, s);
    if !s.phase.Crashed? {
      if !s.phase.Returned? {
        NeverStuck(bins, n, k, s, true);
      }
      NoEmptyTaken(bins, s);
    }
  }

  lemma NoEmptyTaken(bins: Bins, s: Pool)
    requires PhaseInv(bins, s) && HandsInv(bins, s) && s.phase.Returned?
    ensures [] !in bins
  {
    forall k | 0 <= k < |bins| ensures bins[k] != [] {
      assert s.progress[k].Taken?;
    }
  }

  lemma {:induction false} ReachedAs(bins: Bins, n: nat, k: nat, ok: bool) returns (s: Pool)
    requires n > 0 && k <= PassSteps(bins, n) && [] !in bins
    ensures Reaches(bins, n, k, s)
    ensures if ok then |s.indexed| == |s.attempted| else s.indexed == []
  {
    hide Next, PassSteps;
    if k == 0 {
      s := Init(bins, n);
    } else {
      var before := ReachedAs(bins, n, k - 1, ok);
      SchedulesEndReturned(bins, n, k - 1, before);
      ReachedInv(bins, n, k - 1, before);
      assert !before.phase.Crashed?;
      NeverStuck(bins, n, k - 1, before, ok);
      s :| NextAs(bins, before, s, ok);
    }
  }

  /** With a worker some schedule gets through the whole pass with nothing failing, and some with nothing indexed. */
  lemma CompletePass(bins: Bins, n: nat, ok: bool) returns (k: nat, s: Pool)
    requires n > 0 && [] !in bins
    ensures Reaches(bins, n, k, s) && s.phase.Returned?
    ensures if ok then |s.indexed| == |s.attempted| else s.indexed == []
  {
    k := PassSteps(bins, n);
    s := ReachedAs(bins, n, k, ok);
    SchedulesEndReturned(bins, n, k, s);
    hide Reaches;
  }

  /** Every schedule can be continued to one that cannot go on. */
  lemma SomeScheduleEnds(bins: Bins, n: nat, k: nat, s: Pool) returns (l: nat, e: Pool)
    requires Reaches(bins, n, k, s)
    ensures Reaches(bins, n, l, e) && !CanStep(bins, e)
    decreases PassSteps(bins, n) - k
  {
    hide Next, PassSteps;
    if s' :| Next(bins, s, s') {
      SchedulesEndReturned(bins, n, k + 1, s');
      l, e := SomeScheduleEnds(bins, n, k + 1, s');
    } else {
      l, e := k, s;
    }
  }

  /** Every schedule that cannot go on has returned. */
  ghost predicate AlwaysReturns(bins: Bins, n: nat) {
    forall k, s :: Reaches(bins, n, k, s) && !CanStep(bins, s) ==> s.phase.Returned?
  }

  lemma NoWorkersStuck(bins: Bins)
    requires bins != []
    ensures Reaches(bins, 0, 0, Init(bins, 0)) && !CanStep(bins, Init(bins, 0))
  {
  }

  lemma NothingToDo(n: nat, k: nat, s: Pool)
    requires n == 0 && Reaches([], n, k, s) && !s.phase.Returned?
    ensures CanStep([], s)
  {
    ReachedInv([], n, k, s);
    if s.phase.Sending? {
      var s' := s.(phase := Quitting(0));
      assert AllSent([], s, s') && Next([], s, s');
    } else {
      var s' := s.(phase := Returned);
      assert Return(s, s') && Next([], s, s');
    }
  }

  /** Returning is certain if and only if no bin is empty, and there is a worker or nothing to do. */
  lemma AlwaysReturnsIff(bins: Bins, n: nat)
    ensures AlwaysReturns(bins, n) <==> [] !in bins && (n > 0 || bins == [])
  {
    assert Reaches(bins, n, 0, Init(bins, n));
    var l, e := SomeScheduleEnds(bins, n, 0, Init(bins, n));
    hide Reaches, CanStep, Init;
    if n > 0 {
      EndsCrashedIff(bins, n, l, e);
      forall k, s | Reaches(bins, n, k, s) && !CanStep(bins, s) ensures s.phase.Returned? <==> [] !in bins {
        EndsCrashedIff(bins, n, k, s);
      }
    } else if bins != [] {
      NoWorkersStuck(bins);
      NotReturned(bins);
    } else {
      forall k, s | Reaches(bins, n, k, s) && !CanStep(bins, s) ensures s.phase.Returned? {
        if !s.phase.Returned? {
          NothingToDo(n, k, s);
        }
      }
    }
  }

  lemma NotReturned(bins: Bins)
    ensures !Init(bins, 0).phase.Returned?
  {
  }
}
