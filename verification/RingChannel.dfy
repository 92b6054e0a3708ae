/** The channel from Sync to the publishAndIndex workers, used as a ring buffer (pkg/super_node/service.go). Each
    channel operation is a step of its own, so workers may act between the producer's receive and its send. */
module RingChannel {
  import opened Seqs

  type Item(==, !new)

  const BUFFER_SIZE := 2000

  /** Where the producer is: waiting for a payload, about to take one out of the full channel, about to send. */
  datatype Producer = Idle | Dropping(item: Item) | Sending(item: Item)

  /** What became of an element that has left the channel. */
  datatype Removed = Consumed(item: Item) | Dropped(item: Item)

  datatype State = State(producer: Producer, buffer: seq<Item>, removed: seq<Removed>)

  datatype Action = Offer(item: Item) | Drop | Send | Take

  const EMPTY := State(Idle, [], [])

  predicate Enabled(s: State, a: Action) {
    match a
    case Offer(_) => s.producer.Idle?
    case Drop => s.producer.Dropping? && s.buffer != []
    case Send => s.producer.Sending? && |s.buffer| < BUFFER_SIZE
    case Take => s.buffer != []
  }

  function Step(s: State, a: Action): State
    requires Enabled(s, a)
  {
    match a
    case Offer(x) =>
      if |s.buffer| < BUFFER_SIZE then s.(buffer := s.buffer + [x]) else s.(producer := Dropping(x))
    case Drop => State(Sending(s.producer.item), s.buffer[1..], s.removed + [Dropped(s.buffer[0])])
    case Send => State(Idle, s.buffer + [s.producer.item], s.removed)
    case Take => State(s.producer, s.buffer[1..], s.removed + [Consumed(s.buffer[0])])
  }

  /** A run, unless it has a step that is not possible where it stands. */
  function Run(actions: seq<Action>): Option<State> {
    if actions == [] then Some(EMPTY)
    else
      match Run(actions[..|actions| - 1])
      case None => None
      case Some(s) =>
        var a := actions[|actions| - 1];
        if Enabled(s, a) then Some(Step(s, a)) else None
  }

  // ---- conservation ----

  /** The payloads the producer got, in order. */
  function Offered(actions: seq<Action>): seq<Item> {
    if actions == [] then []
    else
      var before, a := Offered(actions[..|actions| - 1]), actions[|actions| - 1];
      if a.Offer? then before + [a.item] else before
  }

  function Items(removed: seq<Removed>): seq<Item> {
    if removed == [] then [] else Items(removed[..|removed| - 1]) + [removed[|removed| - 1].item]
  }

  function InHand(p: Producer): seq<Item> {
    if p.Idle? then [] else [p.item]
  }

  /** What left the channel, then what is in it, then what the producer holds. */
  function Stream(s: State): seq<Item> {
    Items(s.removed) + s.buffer + InHand(s.producer)
  }

  lemma RemoveFirst(s: State, r: Removed, p: Producer)
    requires s.buffer != [] && r.item == s.buffer[0] && InHand(p) == InHand(s.producer)
    ensures Stream(State(p, s.buffer[1..], s.removed + [r])) == Stream(s)
  {
    hide InHand;
    assert (s.removed + [r])[..|s.removed|] == s.removed;
    assert s.buffer == [s.buffer[0]] + s.buffer[1..];
  }

  ghost predicate Bounded(s: State) {
    && |s.buffer| <= BUFFER_SIZE
    && (s.producer.Sending? ==> |s.buffer| < BUFFER_SIZE)
  }

  lemma StepStream(s: State, a: Action)
    requires Enabled(s, a) && Bounded(s)
    ensures Bounded(Step(s, a))
    ensures Stream(Step(s, a)) == Stream(s) + if a.Offer? then [a.item] else []
  {
    hide Items;
    match a
    case Offer(x) =>
      assert Stream(s) == Items(s.removed) + s.buffer;
    case Drop => RemoveFirst(s, Dropped(s.buffer[0]), Sending(s.producer.item));
    case Send =>
    case Take => RemoveFirst(s, Consumed(s.buffer[0]), s.producer);
  }

  /** Over any interleaving every payload is, in order, first those that left the channel, each either consumed or
      dropped, then at most BUFFER_SIZE in the channel, then possibly one in the producer's hands. */
  lemma {:induction false} Conserved(actions: seq<Action>, s: State)
    requires Run(actions) == Some(s)
    ensures Stream(s) == Offered(actions) && Bounded(s)
  {
    if actions != [] {
      var before := Run(actions[..|actions| - 1]).value;
      Conserved(actions[..|actions| - 1], before);
      StepStream(before, actions[|actions| - 1]);
      hide Stream, Step, Enabled, Bounded;
    } else {
      assert Stream(EMPTY) == [];
    }
  }

  /** The actions that take an element out. */
  function Removals(actions: seq<Action>): seq<Action> {
    if actions == [] then []
    else
      var before, a := Removals(actions[..|actions| - 1]), actions[|actions| - 1];
      if a.Drop? || a.Take? then before + [a] else before
  }

  ghost predicate RemovedBy(removed: seq<Removed>, actions: seq<Action>) {
    && |removed| == |actions|
    && forall i :: 0 <= i < |actions| ==>
         && (removed[i].Dropped? <==> actions[i].Drop?) && (removed[i].Consumed? <==> actions[i].Take?)
  }

  lemma StepRemoved(s: State, a: Action, before: seq<Action>)
    requires Enabled(s, a) && RemovedBy(s.removed, before)
    ensures RemovedBy(Step(s, a).removed, if a.Drop? || a.Take? then before + [a] else before)
  {
  }

  /** What has left the channel was dropped by the producer's receives and consumed by the workers', one each, in their
      order. */
  lemma {:induction false} RemovedByActions(actions: seq<Action>, s: State)
    requires Run(actions) == Some(s)
    ensures RemovedBy(s.removed, Removals(actions))
  {
    if actions != [] {
      var init := actions[..|actions| - 1];
      var before := Run(init).value;
      RemovedByActions(init, before);
      StepRemoved(before, actions[|actions| - 1], Removals(init));
      hide Step, Enabled, RemovedBy;
    }
  }

  // ---- blocking ----

  /** The producer's send after a drop never waits; and, as long as there is a next payload, nothing can happen any
      more exactly when the producer waits to drop from a channel the workers have emptied. */
  lemma StuckIff(actions: seq<Action>, s: State, next: Item)
    requires Run(actions) == Some(s)
    ensures s.producer.Sending? ==> Enabled(s, Send)
    ensures (forall a :: !Enabled(s, a)) <==> s.producer.Dropping? && s.buffer == []
  {
    Conserved(actions, s);
    if s.producer.Sending? {
      assert Enabled(s, Send);
    } else if s.producer.Dropping? && s.buffer != [] {
      assert Enabled(s, Drop);
    } else if s.producer.Idle? {
      assert Enabled(s, Offer(next));
    }
  }

  /** How many workers have received since the producer last did anything. */
  function TrailingTakes(actions: seq<Action>): nat {
    if actions == [] || !actions[|actions| - 1].Take? then 0 else TrailingTakes(actions[..|actions| - 1]) + 1
  }

  ghost predicate DropsFromFull(s: State, takes: nat) {
    s.producer.Dropping? ==> |s.buffer| + takes == BUFFER_SIZE
  }

  lemma StepDropsFromFull(s: State, a: Action, takes: nat)
    requires Enabled(s, a) && Bounded(s) && DropsFromFull(s, takes)
    ensures DropsFromFull(Step(s, a), if a.Take? then takes + 1 else 0)
  {
  }

  /** A producer about to drop found the channel full, and since then there were only the workers. */
  lemma {:induction false} DroppingBuffer(actions: seq<Action>, s: State)
    requires Run(actions) == Some(s)
    ensures DropsFromFull(s, TrailingTakes(actions))
  {
    if actions != [] {
      var init := actions[..|actions| - 1];
      var before := Run(init).value;
      DroppingBuffer(init, before);
      Conserved(init, before);
      StepDropsFromFull(before, actions[|actions| - 1], TrailingTakes(init));
      hide Step, Enabled, DropsFromFull;
    }
  }

  lemma {:induction false} RunPrefix(actions: seq<Action>, n: nat)
    requires Run(actions).Some? && n <= |actions|
    ensures Run(actions[..n]).Some?
  {
    if n < |actions| {
      RunPrefix(actions[..|actions| - 1], n);
      assert actions[..|actions| - 1][..n] == actions[..n];
    } else {
      assert actions[..n] == actions;
    }
  }

  /** At this point of the run something can happen. */
  ghost predicate Alive(actions: seq<Action>, n: nat)
    requires n <= |actions|
  {
    Run(actions[..n]).Some? && exists a :: Enabled(Run(actions[..n]).value, a)
  }

  /** At this point of the run the producer is not about to drop after the workers have received a whole buffer. */
  predicate Prompt(actions: seq<Action>, n: nat)
    requires n <= |actions|
  {
    Run(actions[..n]).Some? && Run(actions[..n]).value.producer.Dropping? ==> TrailingTakes(actions[..n]) < BUFFER_SIZE
  }

  lemma AliveIffPrompt(actions: seq<Action>, n: nat, next: Item)
    requires Run(actions).Some? && n <= |actions|
    ensures Alive(actions, n) <==> Prompt(actions, n)
  {
    RunPrefix(actions, n);
    var s := Run(actions[..n]).value;
    StuckIff(actions[..n], s, next);
    DroppingBuffer(actions[..n], s);
    hide Run, Enabled, TrailingTakes;
  }

  /** A run gets by without ever being stuck if and only if, each time the producer finds the channel full, it drops
      from it before the workers have received BUFFER_SIZE payloads. */
  lemma NeverStuckIff(actions: seq<Action>, next: Item)
    requires Run(actions).Some?
    ensures (forall n :: 0 <= n <= |actions| ==> Alive(actions, n))
            <==> (forall n :: 0 <= n <= |actions| ==> Prompt(actions, n))
  {
    forall n | 0 <= n <= |actions| ensures Alive(actions, n) <==> Prompt(actions, n) {
      AliveIffPrompt(actions, n, next);
    }
    hide Alive, Prompt;
  }

  function Offers(x: Item, n: nat): seq<Action> {
    if n == 0 then [] else Offers(x, n - 1) + [Offer(x)]
  }

  function Takes(n: nat): seq<Action> {
    if n == 0 then [] else Takes(n - 1) + [Take]
  }

  lemma RunSnoc(actions: seq<Action>, a: Action)
    ensures Run(actions + [a])
            == if Run(actions).Some? && Enabled(Run(actions).value, a) then Some(Step(Run(actions).value, a)) else None
  {
    assert (actions + [a])[..|actions|] == actions;
  }

  lemma {:induction false} RunOffers(x: Item, n: nat)
    requires n <= BUFFER_SIZE
    ensures Run(Offers(x, n)).Some?
    ensures var s := Run(Offers(x, n)).value;
            s.producer == Idle && |s.buffer| == n
  {
    if n > 0 {
      RunOffers(x, n - 1);
      RunSnoc(Offers(x, n - 1), Offer(x));
    }
  }

  lemma RunTake(actions: seq<Action>, n: nat)
    requires Run(actions + Takes(n)).Some? && Run(actions + Takes(n)).value.buffer != []
    ensures Run(actions + Takes(n + 1)) == Some(Step(Run(actions + Takes(n)).value, Take))
  {
    hide Run, Step;
    RunSnoc(actions + Takes(n), Take);
    assert actions + Takes(n + 1) == (actions + Takes(n)) + [Take];
  }

  lemma {:induction false} RunTakes(actions: seq<Action>, s: State, n: nat)
    requires Run(actions) == Some(s) && n <= |s.buffer|
    ensures Run(actions + Takes(n)).Some?
    ensures var t := Run(actions + Takes(n)).value;
            t.producer == s.producer && |t.buffer| == |s.buffer| - n
  {
    if n == 0 {
      assert actions + [] == actions;
    } else {
      hide Run, Takes;
      RunTakes(actions, s, n - 1);
      RunTake(actions, n - 1);
    }
  }

  /** The producer does block for good if, between finding the channel full and dropping from it, the workers empty it:
      then the whole loop of Sync hangs, the arm that stops it included. */
  lemma BlocksForGood(x: Item) returns (actions: seq<Action>, s: State)
    ensures Run(actions) == Some(s) && forall a :: !Enabled(s, a)
  {
    RunOffers(x, BUFFER_SIZE);
    RunSnoc(Offers(x, BUFFER_SIZE), Offer(x));
    actions := Offers(x, BUFFER_SIZE) + [Offer(x)];
    s := Run(actions).value;
    hide Offers, Run;
    RunTakes(actions, s, BUFFER_SIZE);
    actions := actions + Takes(BUFFER_SIZE);
    s := Run(actions).value;
  }
}
