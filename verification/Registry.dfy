/** The super node's subscription registry (pkg/super_node/service.go). Every method holds the service's lock, so each
    is one step. */
module Registry {
  import opened Seqs

  type Kind(==, !new)
  type Id(==, !new)
  type Data(==, !new)
  type Terms(==, !new)

  datatype Settings = Settings(end: int, historicalOnly: bool, terms: Terms)

  datatype Payload = Payload(height: int, data: Data)

  datatype Filtered = Response(data: Data) | FilterError | EncodeError

  /** The hash of settings, which is the subscription type, and the chain's filter. */
  datatype Env = Env(hash: Settings -> Kind, filter: (Settings, Payload) -> Filtered)

  /** A subscription by what has been sent to its channel. */
  datatype Subscription = Subscription(sent: seq<Data>)

  type Group = map<Id, Subscription>

  datatype State = State(subs: map<Kind, Group>, types: map<Kind, Settings>)

  /** room: the subscriptions whose channel takes what is sent. */
  datatype Event =
    | Subscribe(id: Id, settings: Settings, sameChain: bool)
    | Unsubscribe(id: Id)
    | Serve(payload: Payload, room: set<(Kind, Id)>)
    | Close

  // ---- what each call does ----

  function Added(env: Env, s: State, id: Id, settings: Settings): State {
    var k := env.hash(settings);
    var group: Group := if k in s.subs then s.subs[k] else map[];
    State(s.subs[k := group[id := Subscription([])]], s.types[k := settings])
  }

  function Removed(s: State, id: Id): State {
    var left := set k | k in s.subs && s.subs[k] - {id} != map[];
    State(map k | k in left :: s.subs[k] - {id}, map k | k in left && k in s.types :: s.types[k])
  }

  predicate Closes(env: Env, settings: Settings, p: Payload) {
    0 < settings.end < p.height || env.filter(settings, p).FilterError?
  }

  function Extended(k: Kind, group: Group, data: Data, room: set<(Kind, Id)>): Group {
    map id | id in group :: if (k, id) in room then Subscription(group[id].sent + [data]) else group[id]
  }

  function Delivered(env: Env, settings: Settings, p: Payload, k: Kind, group: Group, room: set<(Kind, Id)>): Group {
    match env.filter(settings, p)
    case Response(data) => Extended(k, group, data, room)
    case _ => group
  }

  function Served(env: Env, s: State, p: Payload, room: set<(Kind, Id)>): State
    requires s.subs.Keys == s.types.Keys
  {
    var left := set k | k in s.subs && !Closes(env, s.types[k], p);
    State(map k | k in left :: Delivered(env, s.types[k], p, k, s.subs[k], room), map k | k in left :: s.types[k])
  }

  /** The two maps have the same subscription types, none without a subscription. */
  ghost predicate Consistent(env: Env, s: State) {
    && s.subs.Keys == s.types.Keys
    && (forall k :: k in s.subs ==> s.subs[k] != map[])
    && (forall k :: k in s.types ==> env.hash(s.types[k]) == k && !s.types[k].historicalOnly)
  }

  ghost function Step(env: Env, s: State, e: Event): State
    requires Consistent(env, s)
  {
    match e
    case Subscribe(id, settings, sameChain) =>
      if sameChain && !settings.historicalOnly then Added(env, s, id, settings) else s
    case Unsubscribe(id) => Removed(s, id)
    case Serve(p, room) => Served(env, s, p, room)
    case Close => State(map[], map[])
  }

  // ---- half-way through the loops over subscription types ----

  /** Unsubscribing with the types todo still to be looked at. */
  function PartlyRemoved(s: State, id: Id, todo: set<Kind>): State {
    var left := set k | k in s.subs && (k in todo || s.subs[k] - {id} != map[]);
    State(map k | k in left :: if k in todo then s.subs[k] else s.subs[k] - {id},
          map k | k in left && k in s.types :: s.types[k])
  }

  lemma RemoveOne(s: State, id: Id, todo: set<Kind>, ty: Kind)
    requires s.subs.Keys == s.types.Keys && todo <= s.subs.Keys && ty in todo
    ensures var c := PartlyRemoved(s, id, todo);
            && ty in c.subs && c.subs[ty] == s.subs[ty]
            && PartlyRemoved(s, id, todo - {ty})
               == if s.subs[ty] - {id} == map[] then State(c.subs[ty := map[]] - {ty}, c.types - {ty})
                  else State(c.subs[ty := s.subs[ty] - {id}], c.types)
  {
    var c, d := PartlyRemoved(s, id, todo), PartlyRemoved(s, id, todo - {ty});
    if s.subs[ty] - {id} == map[] {
      assert d.subs == c.subs[ty := map[]] - {ty} && d.types == c.types - {ty};
    } else {
      assert d.subs == c.subs[ty := s.subs[ty] - {id}] && d.types == c.types;
    }
  }

  lemma RemoveAll(env: Env, s: State, id: Id)
    requires Consistent(env, s)
    ensures PartlyRemoved(s, id, s.subs.Keys) == s && PartlyRemoved(s, id, {}) == Removed(s, id)
  {
    var c, d := PartlyRemoved(s, id, s.subs.Keys), PartlyRemoved(s, id, {});
    assert c.subs == s.subs && c.types == s.types;
    assert d.subs == Removed(s, id).subs && d.types == Removed(s, id).types;
  }

  /** Serving with the types todo still to be looked at. */
  function PartlyServed(env: Env, s: State, p: Payload, room: set<(Kind, Id)>, todo: set<Kind>): State
    requires s.subs.Keys == s.types.Keys
  {
    var left := set k | k in s.subs && (k in todo || !Closes(env, s.types[k], p));
    State(map k | k in left :: if k in todo then s.subs[k] else Delivered(env, s.types[k], p, k, s.subs[k], room),
          map k | k in left :: s.types[k])
  }

  lemma ServeOne(env: Env, s: State, p: Payload, room: set<(Kind, Id)>, todo: set<Kind>, ty: Kind)
    requires s.subs.Keys == s.types.Keys && todo <= s.subs.Keys && ty in todo
    ensures var c := PartlyServed(env, s, p, room, todo);
            && ty in c.subs && ty in c.types && c.subs[ty] == s.subs[ty] && c.types[ty] == s.types[ty]
            && PartlyServed(env, s, p, room, todo - {ty})
               == if Closes(env, s.types[ty], p) then State(c.subs - {ty}, c.types - {ty})
                  else State(c.subs[ty := Delivered(env, s.types[ty], p, ty, s.subs[ty], room)], c.types)
  {
    hide Closes, Delivered;
    var c, d := PartlyServed(env, s, p, room, todo), PartlyServed(env, s, p, room, todo - {ty});
    if Closes(env, s.types[ty], p) {
      assert d.subs == c.subs - {ty} && d.types == c.types - {ty};
    } else {
      assert d.subs == c.subs[ty := Delivered(env, s.types[ty], p, ty, s.subs[ty], room)] && d.types == c.types;
    }
  }

  lemma ServeAll(env: Env, s: State, p: Payload, room: set<(Kind, Id)>)
    requires s.subs.Keys == s.types.Keys
    ensures PartlyServed(env, s, p, room, s.subs.Keys) == s && PartlyServed(env, s, p, room, {}) == Served(env, s, p, room)
  {
    hide Closes, Delivered;
    var c, d := PartlyServed(env, s, p, room, s.subs.Keys), PartlyServed(env, s, p, room, {});
    assert c.subs == s.subs && c.types == s.types;
    assert d.subs == Served(env, s, p, room).subs && d.types == Served(env, s, p, room).types;
  }

  // ---- the code ----

  class Service {
    const env: Env
    var subscriptions: map<Kind, Group>
    var subscriptionTypes: map<Kind, Settings>

    ghost function Current(): State
      reads this
    {
      State(subscriptions, subscriptionTypes)
    }

    constructor (env: Env)
      ensures this.env == env && Current() == State(map[], map[])
    {
      this.env := env;
      subscriptions, subscriptionTypes := map[], map[];
    }

    method OnSubscribe(id: Id, params: Settings, sameChain: bool)
      requires Consistent(env, Current())
      modifies this
      ensures Current() == Step(env, old(Current()), Subscribe(id, params, sameChain))
    {
      if !sameChain {
        return;
      }
      var subscriptionType := env.hash(params);
      if !params.historicalOnly {
        if subscriptionType !in subscriptions {
          subscriptions := subscriptions[subscriptionType := map[]];
        }
        subscriptions :=
          subscriptions[subscriptionType := subscriptions[subscriptionType][id := Subscription([])]];
        subscriptionTypes := subscriptionTypes[subscriptionType := params];
      }
    }

    method OnUnsubscribe(id: Id)
      requires Consistent(env, Current())
      modifies this
      ensures Current() == Step(env, old(Current()), Unsubscribe(id))
    {
      ghost var s := Current();
      RemoveAll(env, s, id);
      var todo := subscriptions.Keys;
      assert s.subs.Keys == s.types.Keys;
      hide PartlyRemoved, Removed, Consistent;
      while todo != {}
        invariant todo <= s.subs.Keys
        invariant Current() == PartlyRemoved(s, id, todo)
        decreases todo
      {
        var ty :| ty in todo;
        RemoveOne(s, id, todo, ty);
        todo := todo - {ty};
        subscriptions := subscriptions[ty := subscriptions[ty] - {id}];
        if subscriptions[ty] == map[] {
          subscriptions := subscriptions - {ty};
          subscriptionTypes := subscriptionTypes - {ty};
        }
      }
    }

    method CloseType(subType: Kind)
      modifies this
      ensures subscriptions == old(subscriptions) - {subType}
      ensures subscriptionTypes == old(subscriptionTypes) - {subType}
    {
      subscriptions := subscriptions - {subType};
      subscriptionTypes := subscriptionTypes - {subType};
    }

    method OnClose()
      requires Consistent(env, Current())
      modifies this
      ensures Current() == Step(env, old(Current()), Close)
    {
      var todo := subscriptions.Keys;
      while todo != {}
        invariant subscriptions.Keys == todo == subscriptionTypes.Keys
        decreases todo
      {
        var subType :| subType in todo;
        todo := todo - {subType};
        subscriptions := subscriptions - {subType};
        subscriptionTypes := subscriptionTypes - {subType};
      }
    }

    /** Sends a response to the subscriptions of one type. */
    method SendAll(ty: Kind, data: Data, room: set<(Kind, Id)>)
      requires ty in subscriptions
      modifies this`subscriptions
      ensures subscriptions == old(subscriptions)[ty := Extended(ty, old(subscriptions)[ty], data, room)]
    {
      ghost var before := subscriptions;
      var subs := subscriptions[ty];
      var todo := subs.Keys;
      while todo != {}
        invariant todo <= subs.Keys
        invariant ty in subscriptions && subscriptions == before[ty := subscriptions[ty]]
        invariant subscriptions[ty].Keys == subs.Keys
        invariant forall id :: id in subs ==>
                    subscriptions[ty][id]
                    == if id !in todo && (ty, id) in room then Subscription(subs[id].sent + [data]) else subs[id]
        decreases todo
      {
        var id :| id in todo;
        todo := todo - {id};
        if (ty, id) in room {
          subscriptions := subscriptions[ty := subscriptions[ty][id := Subscription(subs[id].sent + [data])]];
        }
      }
      assert subscriptions[ty] == Extended(ty, subs, data, room);
    }

    method FilterAndServe(payload: Payload, room: set<(Kind, Id)>)
      requires Consistent(env, Current())
      modifies this
      ensures Current() == Step(env, old(Current()), Serve(payload, room))
    {
      ghost var s := Current();
      ServeAll(env, s, payload, room);
      var todo := subscriptions.Keys;
      hide PartlyServed, Served;
      while todo != {}
        invariant todo <= s.subs.Keys
        invariant Current() == PartlyServed(env, s, payload, room, todo)
        decreases todo
      {
        var ty :| ty in todo;
        ServeOne(env, s, payload, room, todo, ty);
        todo := todo - {ty};
        if ty !in subscriptionTypes {
          // "subscription configuration not available": the two maps have the same keys.
          assert false;
        }
        var subConfig := subscriptionTypes[ty];
        if subConfig.end > 0 && subConfig.end < payload.height {
          CloseType(ty);
          continue;
        }
        match env.filter(subConfig, payload) {
          case FilterError => CloseType(ty);
          case EncodeError =>
            SameAgain(subscriptions, ty);
          case Response(data) =>
            SendAll(ty, data, room);
        }
      }
    }
  }

  lemma SameAgain(m: map<Kind, Group>, k: Kind)
    requires k in m
    ensures m[k := m[k]] == m
  {
  }

  // ---- every run ----

  lemma StepConsistent(env: Env, s: State, e: Event)
    requires Consistent(env, s)
    ensures Consistent(env, Step(env, s, e))
  {
    match e
    case Serve(p, room) =>
      forall k | k in Served(env, s, p, room).subs ensures Served(env, s, p, room).subs[k] != map[] {
        DeliveredSome(env, s.types[k], p, k, s.subs[k], room);
      }
    case Subscribe(id, settings, _) =>
      assert id in Added(env, s, id, settings).subs[env.hash(settings)];
    case _ =>
  }

  lemma DeliveredSome(env: Env, settings: Settings, p: Payload, k: Kind, group: Group, room: set<(Kind, Id)>)
    requires group != map[]
    ensures Delivered(env, settings, p, k, group, room) != map[]
  {
    var id :| id in group;
    assert id in Delivered(env, settings, p, k, group, room);
  }

  /** The registry after a run; in every run its two maps stay consistent. */
  ghost function Run(env: Env, events: seq<Event>): (s: State)
    ensures Consistent(env, s)
  {
    if events == [] then State(map[], map[])
    else
      var before, e := Run(env, events[..|events| - 1]), events[|events| - 1];
      StepConsistent(env, before, e);
      Step(env, before, e)
  }

  /** An accepted subscription with these settings. */
  ghost predicate Subscribes(e: Event, settings: Settings) {
    e.Subscribe? && e.settings == settings && e.sameChain && !settings.historicalOnly
  }

  /** Some event after number n subscribes with these settings. */
  ghost predicate SubscribedAfter(events: seq<Event>, n: nat, settings: Settings) {
    exists m :: n < m < |events| && Subscribes(events[m], settings)
  }

  lemma KeptSettings(env: Env, s: State, e: Event, k: Kind)
    requires Consistent(env, s) && k in Step(env, s, e).types
    ensures Subscribes(e, Step(env, s, e).types[k]) || (k in s.types && Step(env, s, e).types[k] == s.types[k])
    ensures e.Serve? ==> k in s.types && !(0 < s.types[k].end < e.payload.height)
  {
  }

  /** Expired types go and do not come back by themselves: in every run, a type that is there although it ends below a
      height served earlier has been subscribed to again since. */
  lemma {:induction false} ExpiredOnlyIfResubscribed(env: Env, events: seq<Event>, n: nat, k: Kind)
    requires n < |events| && events[n].Serve?
    requires k in Run(env, events).types && 0 < Run(env, events).types[k].end < events[n].payload.height
    ensures SubscribedAfter(events, n, Run(env, events).types[k])
  {
    hide Step, Consistent, SubscribedAfter, Subscribes;
    var init, e, settings := events[..|events| - 1], events[|events| - 1], Run(env, events).types[k];
    KeptSettings(env, Run(env, init), e, k);
    if n < |init| {
      if Subscribes(e, settings) {
        SubscribedNow(events, n, settings);
      } else {
        assert init[n] == events[n];
        ExpiredOnlyIfResubscribed(env, init, n, k);
        SubscribedStill(init, e, n, settings);
        assert events == init + [e];
      }
    } else {
      ServesNotSubscribes(e, settings);
    }
  }

  lemma ServesNotSubscribes(e: Event, settings: Settings)
    requires e.Serve?
    ensures !Subscribes(e, settings)
  {
  }

  lemma SubscribedNow(events: seq<Event>, n: nat, settings: Settings)
    requires n < |events| - 1 && Subscribes(events[|events| - 1], settings)
    ensures SubscribedAfter(events, n, settings)
  {
  }

  lemma SubscribedStill(events: seq<Event>, e: Event, n: nat, settings: Settings)
    requires SubscribedAfter(events, n, settings)
    ensures SubscribedAfter(events + [e], n, settings)
  {
    var m :| n < m < |events| && Subscribes(events[m], settings);
    assert (events + [e])[m] == events[m];
  }

  // ---- one subscriber ----

  /** Different settings are different subscription types. */
  ghost predicate Injective(env: Env) {
    forall a, b :: env.hash(a) == env.hash(b) ==> a == b
  }

  function Look(s: State, k: Kind, id: Id): Option<seq<Data>> {
    if k in s.subs && id in s.subs[k] then Some(s.subs[k][id].sent) else None
  }

  /** What one subscriber has been sent, seen alone: None while it is not subscribed. */
  function View(env: Env, v: Option<seq<Data>>, settings: Settings, id: Id, e: Event): Option<seq<Data>> {
    match e
    case Subscribe(i, t, sameChain) => if i == id && t == settings && sameChain && !t.historicalOnly then Some([]) else v
    case Unsubscribe(i) => if i == id then None else v
    case Close => None
    case Serve(p, room) =>
      if v.None? || Closes(env, settings, p) then None
      else
        match env.filter(settings, p)
        case Response(data) => if (env.hash(settings), id) in room then Some(v.value + [data]) else v
        case _ => v
  }

  ghost function Alone(env: Env, events: seq<Event>, settings: Settings, id: Id): Option<seq<Data>> {
    if events == [] then None
    else View(env, Alone(env, events[..|events| - 1], settings, id), settings, id, events[|events| - 1])
  }

  lemma StepAlone(env: Env, s: State, e: Event, settings: Settings, id: Id)
    requires Consistent(env, s) && Injective(env)
    ensures var k := env.hash(settings);
            Look(Step(env, s, e), k, id) == View(env, Look(s, k, id), settings, id, e)
  {
    var k := env.hash(settings);
    match e
    case Subscribe(i, t, _) =>
      if env.hash(t) == k {
        assert t == settings;
      }
    case Unsubscribe(i) =>
      if k in s.subs {
        assert i != id && id in s.subs[k] ==> id in s.subs[k] - {i};
      }
    case Serve(p, room) =>
      if k in s.subs {
        assert s.types[k] == settings;
      }
    case Close =>
  }

  /** The registry serves every subscriber as if it were the only one. */
  lemma {:induction false} EachAlone(env: Env, events: seq<Event>, settings: Settings, id: Id)
    requires Injective(env)
    ensures Look(Run(env, events), env.hash(settings), id) == Alone(env, events, settings, id)
  {
    if events != [] {
      hide Injective, Look, View, Step;
      EachAlone(env, events[..|events| - 1], settings, id);
      StepAlone(env, Run(env, events[..|events| - 1]), events[|events| - 1], settings, id);
    }
  }

  /** The responses since the last subscription, after one more event. */
  function FeedNext(env: Env, feed: seq<Data>, settings: Settings, id: Id, e: Event): seq<Data> {
    match e
    case Subscribe(i, t, sameChain) =>
      if i == id && t == settings && sameChain && !t.historicalOnly then [] else feed
    case Serve(p, _) => feed + Responses(env.filter(settings, p))
    case _ => feed
  }

  /** The filter's responses for the payloads served since the last subscription. */
  function Feed(env: Env, events: seq<Event>, settings: Settings, id: Id): seq<Data> {
    if events == [] then []
    else FeedNext(env, Feed(env, events[..|events| - 1], settings, id), settings, id, events[|events| - 1])
  }

  function Responses(f: Filtered): seq<Data> {
    if f.Response? then [f.data] else []
  }

  /** xs is ys with some elements left out. */
  predicate Subsequence(xs: seq<Data>, ys: seq<Data>) {
    if xs == [] then true
    else if ys == [] then false
    else
      || Subsequence(xs, ys[..|ys| - 1])
      || (xs[|xs| - 1] == ys[|ys| - 1] && Subsequence(xs[..|xs| - 1], ys[..|ys| - 1]))
  }

  lemma SubsequenceMore(xs: seq<Data>, ys: seq<Data>, y: Data)
    requires Subsequence(xs, ys)
    ensures Subsequence(xs, ys + [y]) && Subsequence(xs + [y], ys + [y])
  {
    assert (ys + [y])[..|ys|] == ys && (xs + [y])[..|xs|] == xs;
  }

  /** A subscriber's channel was always free. */
  ghost predicate AlwaysRoom(events: seq<Event>, k: Kind, id: Id) {
    forall i :: 0 <= i < |events| && events[i].Serve? ==> (k, id) in events[i].room
  }

  /** What was sent, against the feed; room: whether the channel was always free. */
  ghost predicate InOrder(v: Option<seq<Data>>, feed: seq<Data>, room: bool) {
    v.Some? ==> Subsequence(v.value, feed) && (room ==> v.value == feed)
  }

  lemma InOrderStep(env: Env, v: Option<seq<Data>>, feed: seq<Data>, settings: Settings, id: Id, e: Event, room: bool)
    requires InOrder(v, feed, room)
    requires room && e.Serve? ==> (env.hash(settings), id) in e.room
    ensures InOrder(View(env, v, settings, id, e), FeedNext(env, feed, settings, id, e), room)
  {
    if e.Serve? && v.Some? {
      if env.filter(settings, e.payload).Response? {
        SubsequenceMore(v.value, feed, env.filter(settings, e.payload).data);
      } else {
        assert feed + [] == feed;
      }
      hide Subsequence;
    }
  }

  /** Every live stream of the registry is the filtered payloads since joining, in order, without those the channel had
      no room for. */
  lemma {:induction false} StreamInOrder(env: Env, events: seq<Event>, settings: Settings, id: Id)
    requires Injective(env)
    ensures var sent := Look(Run(env, events), env.hash(settings), id);
            sent.Some? ==>
              && Subsequence(sent.value, Feed(env, events, settings, id))
              && (AlwaysRoom(events, env.hash(settings), id) ==> sent.value == Feed(env, events, settings, id))
  {
    EachAlone(env, events, settings, id);
    Streams(env, events, settings, id, AlwaysRoom(events, env.hash(settings), id));
    hide Injective, Look, Run, Subsequence, Alone, Feed, AlwaysRoom;
  }

  lemma {:induction false} Streams(env: Env, events: seq<Event>, settings: Settings, id: Id, room: bool)
    requires room ==> AlwaysRoom(events, env.hash(settings), id)
    ensures InOrder(Alone(env, events, settings, id), Feed(env, events, settings, id), room)
  {
    if events != [] {
      hide InOrder, View, FeedNext;
      var init := events[..|events| - 1];
      assert room ==> AlwaysRoom(init, env.hash(settings), id);
      Streams(env, init, settings, id, room);
      InOrderStep(env, Alone(env, init, settings, id), Feed(env, init, settings, id), settings, id,
                  events[|events| - 1], room);
    }
  }

  // ---- how long a subscription lasts ----

  /** An accepted subscription of this id. */
  ghost predicate Joins(e: Event, settings: Settings, id: Id) {
    Subscribes(e, settings) && e.id == id
  }

  /** What ends it: unsubscribing, closing the service, a payload above the ending block, or one on which the filter
      fails. */
  predicate Leaves(env: Env, e: Event, settings: Settings, id: Id) {
    match e
    case Subscribe(_, _, _) => false
    case Unsubscribe(i) => i == id
    case Close => true
    case Serve(p, _) => (settings.end > 0 && p.height > settings.end) || env.filter(settings, p) == FilterError
  }

  /** It joined as event number m and has not left since. */
  ghost predicate StayedSince(env: Env, events: seq<Event>, m: nat, settings: Settings, id: Id) {
    && m < |events| && Joins(events[m], settings, id)
    && forall j :: m < j < |events| ==> !Leaves(env, events[j], settings, id)
  }

  lemma ViewSome(env: Env, v: Option<seq<Data>>, settings: Settings, id: Id, e: Event)
    ensures View(env, v, settings, id, e).Some?
            <==> Joins(e, settings, id) || (v.Some? && !Leaves(env, e, settings, id))
  {
  }

  lemma StayedOneMore(env: Env, init: seq<Event>, e: Event, settings: Settings, id: Id)
    ensures (exists m :: StayedSince(env, init + [e], m, settings, id))
            <==> Joins(e, settings, id)
                 || ((exists m :: StayedSince(env, init, m, settings, id)) && !Leaves(env, e, settings, id))
  {
    hide Joins, Leaves;
    var events := init + [e];
    assert events[|init|] == e && forall j :: 0 <= j < |init| ==> events[j] == init[j];
    if Joins(e, settings, id) {
      assert StayedSince(env, events, |init|, settings, id);
    }
    forall m | StayedSince(env, init, m, settings, id) && !Leaves(env, e, settings, id)
      ensures StayedSince(env, events, m, settings, id)
    {
    }
    forall m: nat | StayedSince(env, events, m, settings, id) && m < |init|
      ensures StayedSince(env, init, m, settings, id) && !Leaves(env, e, settings, id)
    {
      assert !Leaves(env, events[|init|], settings, id);
    }
  }

  lemma {:induction false} AloneStays(env: Env, events: seq<Event>, settings: Settings, id: Id)
    ensures Alone(env, events, settings, id).Some? <==> exists m :: StayedSince(env, events, m, settings, id)
  {
    if events != [] {
      hide View, StayedSince, Joins, Leaves;
      var init, e := events[..|events| - 1], events[|events| - 1];
      AloneStays(env, init, settings, id);
      ViewSome(env, Alone(env, init, settings, id), settings, id, e);
      StayedOneMore(env, init, e, settings, id);
      assert events == init + [e];
    }
  }

  /** In every run a subscriber is there if and only if it has joined and not left since. */
  lemma {:induction false} ThereIff(env: Env, events: seq<Event>, settings: Settings, id: Id)
    requires Injective(env)
    ensures Look(Run(env, events), env.hash(settings), id).Some?
            <==> exists m :: StayedSince(env, events, m, settings, id)
  {
    EachAlone(env, events, settings, id);
    AloneStays(env, events, settings, id);
    hide Injective, Look, Run, Alone, StayedSince;
  }

  /** The filter's responses for the payloads served after event number m. */
  function ResponsesSince(env: Env, events: seq<Event>, m: nat, settings: Settings): seq<Data> {
    if |events| <= m + 1 then []
    else
      var e := events[|events| - 1];
      ResponsesSince(env, events[..|events| - 1], m, settings)
      + if e.Serve? then Responses(env.filter(settings, e.payload)) else []
  }

  /** It has not joined again since, and its channel was free. */
  ghost predicate Undisturbed(env: Env, events: seq<Event>, m: nat, settings: Settings, id: Id) {
    forall j :: m < j < |events| ==>
      && !Joins(events[j], settings, id)
      && (events[j].Serve? ==> (env.hash(settings), id) in events[j].room)
  }

  lemma ViewReceives(env: Env, sent: seq<Data>, settings: Settings, id: Id, e: Event)
    requires !Joins(e, settings, id) && !Leaves(env, e, settings, id)
    requires e.Serve? ==> (env.hash(settings), id) in e.room
    ensures View(env, Some(sent), settings, id, e)
            == Some(sent + if e.Serve? then Responses(env.filter(settings, e.payload)) else [])
  {
    assert sent + [] == sent;
  }

  lemma {:induction false} AloneReceives(env: Env, events: seq<Event>, m: nat, settings: Settings, id: Id)
    requires StayedSince(env, events, m, settings, id) && Undisturbed(env, events, m, settings, id)
    ensures Alone(env, events, settings, id) == Some(ResponsesSince(env, events, m, settings))
  {
    var init, e := events[..|events| - 1], events[|events| - 1];
    if m < |init| {
      hide View, Joins, Leaves, Responses;
      assert forall j :: 0 <= j < |init| ==> init[j] == events[j];
      AloneReceives(env, init, m, settings, id);
      ViewReceives(env, ResponsesSince(env, init, m, settings), settings, id, e);
    }
  }

  /** A subscriber with room receives every response from joining up to and including its ending block. */
  lemma {:induction false} ReceivesToTheEnd(env: Env, events: seq<Event>, m: nat, settings: Settings, id: Id)
    requires Injective(env)
    requires StayedSince(env, events, m, settings, id) && Undisturbed(env, events, m, settings, id)
    ensures Look(Run(env, events), env.hash(settings), id) == Some(ResponsesSince(env, events, m, settings))
  {
    EachAlone(env, events, settings, id);
    AloneReceives(env, events, m, settings, id);
    hide Injective, Look, Run, Alone, StayedSince, Undisturbed, ResponsesSince;
  }
}
