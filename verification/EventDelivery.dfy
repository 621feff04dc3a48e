/**
 Delivery of one Echo's events: the persisted log and its single writer, the hub's channels, and any
 number of SSE clients that subscribe, replay the log and then follow the live channel.
 */
module EventDelivery {
  import opened Common

  const CHANNEL_CAPACITY: nat := 64

  datatype Event = Event(sequence: nat, payload: nat)

  /** `early` says that an appended event had not been published when the Echo was finished. */
  datatype Cause = Overflow | Finish(early: bool) | Unsubscribe

  /**
   `start` is how many events had been published when the channel was made, `taken` how many were
   received from it.
   */
  datatype Channel = Channel(queue: seq<Event>, closed: Option<Cause>, start: nat, taken: nat)

  datatype Reason = NotRunning | StreamClosed | Disconnected

  datatype Stage =
    | Subscribed
    | StatusRead(running: bool)
    | Replaying(running: bool, events: seq<Event>, position: nat)
    | Following
    | Done(reason: Reason)

  /**
   `first` is the client's Last-Event-ID, `read` how many events of the log were read for the replay,
   `last` the handler's lastSequence, `received` what was written to the client.
   */
  datatype Client = Client(stage: Stage, first: nat, read: nat, last: nat, received: seq<Event>)

  /**
   `pending` is the event that was appended and not yet published; `panicked` records a misuse of a
   closed channel.
   */
  datatype State = State(log: seq<Event>, finalized: bool, pending: Option<Event>, registered: set<nat>,
                         channels: map<nat, Channel>, clients: map<nat, Client>, panicked: bool)

  datatype Action =
    | Append(payload: nat)
    | Publish
    | Finalize
    | FinishEcho
    | Subscribe(id: nat, lastEventId: nat)
    | ReadStatus(id: nat)
    | ReadEvents(id: nat)
    | Replay(id: nat)
    | EndReplay(id: nat)
    | Receive(id: nat)
    | SeeClosed(id: nat)
    | Disconnect(id: nat)
    | Cancel(id: nat)

  const INIT := State([], false, None, {}, map[], map[], false)

  function Send(c: Channel, e: Event): Channel {
    if |c.queue| < CHANNEL_CAPACITY then c.(queue := c.queue + [e]) else c.(closed := Some(Overflow))
  }

  /** The published part of the log. */
  function Published(s: State): nat {
    if s.pending.Some? && |s.log| > 0 then |s.log| - 1 else |s.log|
  }

  predicate At(s: State, id: nat) {
    id in s.clients && id in s.channels
  }

  /** A send on, or a close of, a channel that is already closed would panic. */
  predicate SendsOnClosed(s: State) {
    exists id :: id in s.registered && id in s.channels && s.channels[id].closed.Some?
  }

  predicate Enabled(s: State, a: Action) {
    match a
    case Append(_) => s.pending.None? && !s.finalized
    case Publish => s.pending.Some?
    case Finalize => true
    case FinishEcho => s.finalized
    case Subscribe(id, _) => id !in s.clients && id !in s.channels
    case ReadStatus(id) => At(s, id) && s.clients[id].stage.Subscribed?
    case ReadEvents(id) => At(s, id) && s.clients[id].stage.StatusRead?
    case Replay(id) =>
      At(s, id) && s.clients[id].stage.Replaying? && s.clients[id].stage.position < |s.clients[id].stage.events|
    case EndReplay(id) =>
      At(s, id) && s.clients[id].stage.Replaying? && s.clients[id].stage.position >= |s.clients[id].stage.events|
    case Receive(id) => At(s, id) && s.clients[id].stage.Following? && s.channels[id].queue != []
    case SeeClosed(id) =>
      At(s, id) && s.clients[id].stage.Following? && s.channels[id].queue == [] && s.channels[id].closed.Some?
    case Disconnect(id) => At(s, id) && !s.clients[id].stage.Done?
    case Cancel(id) => At(s, id) && s.clients[id].stage.Done?
  }

  function Goto(s: State, id: nat, stage: Stage): State
    requires id in s.clients
  {
    s.(clients := s.clients[id := s.clients[id].(stage := stage)])
  }

  /** Writing an event to a client unless it is not newer than the last one. */
  function Deliver(c: Client, e: Event): Client {
    if e.sequence > c.last then c.(last := e.sequence, received := c.received + [e]) else c
  }

  function Apply(s: State, a: Action): State
    requires Enabled(s, a)
  {
    match a
    case Append(payload) =>
      var e := Event(|s.log| + 1, payload);
      s.(log := s.log + [e], pending := Some(e))
    case Publish =>
      var e := s.pending.value;
      s.(pending := None,
         channels := (map id | id in s.channels ::
           if id in s.registered then Send(s.channels[id], e) else s.channels[id]),
         registered := (set id | id in s.registered && id in s.channels && |s.channels[id].queue| < CHANNEL_CAPACITY),
         panicked := s.panicked || SendsOnClosed(s))
    case Finalize => s.(finalized := true)
    case FinishEcho =>
      s.(channels := (map id | id in s.channels ::
           if id in s.registered then s.channels[id].(closed := Some(Finish(s.pending.Some?))) else s.channels[id]),
         registered := {},
         panicked := s.panicked || SendsOnClosed(s))
    case Subscribe(id, first) =>
      s.(registered := s.registered + {id},
         channels := s.channels[id := Channel([], None, Published(s), 0)],
         clients := s.clients[id := Client(Subscribed, first, 0, first, [])])
    case ReadStatus(id) => Goto(s, id, StatusRead(!s.finalized))
    case ReadEvents(id) =>
      var c := s.clients[id];
      s.(clients := s.clients[id := c.(stage := Replaying(c.stage.running, s.log, 0), read := |s.log|)])
    case Replay(id) =>
      var stage := s.clients[id].stage;
      var c := Deliver(s.clients[id], stage.events[stage.position]);
      s.(clients := s.clients[id := c.(stage := stage.(position := stage.position + 1))])
    case EndReplay(id) => Goto(s, id, if s.clients[id].stage.running then Following else Done(NotRunning))
    case Receive(id) =>
      var ch := s.channels[id];
      s.(clients := s.clients[id := Deliver(s.clients[id], ch.queue[0])],
         channels := s.channels[id := ch.(queue := ch.queue[1..], taken := ch.taken + 1)])
    case SeeClosed(id) => Goto(s, id, Done(StreamClosed))
    case Disconnect(id) => Goto(s, id, Done(Disconnected))
    case Cancel(id) =>
      if id in s.registered then
        s.(registered := s.registered - {id},
           channels := s.channels[id := s.channels[id].(closed := Some(Unsubscribe))],
           panicked := s.panicked || s.channels[id].closed.Some?)
      else s
  }

  ghost predicate Step(s: State, a: Action, s': State) {
    Enabled(s, a) && s' == Apply(s, a)
  }

  ghost predicate Behaviour(states: seq<State>, acts: seq<Action>) {
    && |states| == |acts| + 1 && states[0] == INIT
    && forall i {:trigger Step(states[i], acts[i], states[i + 1])} :: 0 <= i < |acts| ==>
         Step(states[i], acts[i], states[i + 1])
  }

  lemma StepAt(states: seq<State>, acts: seq<Action>, i: nat)
    requires Behaviour(states, acts) && i < |acts|
    ensures Step(states[i], acts[i], states[i + 1])
  {
  }

  ghost predicate Reachable(s: State) {
    exists states, acts :: Behaviour(states, acts) && states[|acts|] == s
  }

  // ---- the invariant ----

  /** The log's events with numbers above `first` and up to `last`. */
  function Slice(log: seq<Event>, first: nat, last: nat): (r: seq<Event>)
  {
    var to := Min(last, |log|);
    if first < to then log[first..to] else []
  }

  ghost predicate Numbered(log: seq<Event>) {
    forall k :: 0 <= k < |log| ==> log[k].sequence == k + 1
  }

  ghost predicate LogInv(s: State) {
    && Numbered(s.log)
    && (s.pending.Some? ==> s.log != [] && s.pending.value == s.log[|s.log| - 1])
    && !s.panicked
    && (forall id :: id in s.registered ==> id in s.channels && s.channels[id].closed.None?)
    && s.clients.Keys == s.channels.Keys
  }

  /** A channel holds the stretch of the log that was published while it was registered. */
  ghost predicate ChannelOk(s: State, id: nat)
    requires id in s.channels
  {
    var c := s.channels[id];
    var from := c.start + c.taken;
    && |c.queue| <= CHANNEL_CAPACITY
    && from + |c.queue| <= |s.log| && c.queue == s.log[from..from + |c.queue|]
    && (id in s.registered ==> from + |c.queue| == Published(s))
    && (c.closed.Some? && c.closed.value.Finish? ==>
          s.finalized && from + |c.queue| == |s.log| - (if c.closed.value.early then 1 else 0))
    && (c.closed.None? <==> id in s.registered)
  }

  /** How far a client has got that replayed all it had read and handled all it took from the channel. */
  function Covered(c: Client, ch: Channel): nat {
    Max(c.first, Max(c.read, ch.start + ch.taken))
  }

  /** What a client has received has no gap and no duplicate, and nothing it missed is out of reach. */
  ghost predicate ClientOk(s: State, id: nat)
    requires id in s.channels && id in s.clients
  {
    var c, ch := s.clients[id], s.channels[id];
    && c.first <= c.last && (c.first < c.last ==> c.last <= |s.log|)
    && c.received == Slice(s.log, c.first, c.last)
    && (match c.stage
        case Subscribed => ch.taken == 0 && c.last == c.first && ch.closed != Some(Unsubscribe)
        case StatusRead(running) =>
          ch.taken == 0 && c.last == c.first && (!running ==> s.finalized) && ch.closed != Some(Unsubscribe)
        case Replaying(running, events, position) =>
          && ch.taken == 0 && ch.closed != Some(Unsubscribe)
          && ch.start <= |events| <= |s.log| && events == s.log[..|events|] && position <= |events| == c.read
          && (if c.first < position then c.last == position else c.last == c.first)
          && (!running ==> s.finalized && |events| == |s.log|)
        case Following => c.last == Covered(c, ch) && c.read <= |s.log| && ch.closed != Some(Unsubscribe)
        case Done(reason) =>
          && (reason == NotRunning ==> s.finalized && |s.log| <= c.last)
          && (reason == StreamClosed ==>
                ch.closed.Some? && ch.queue == [] && c.last == Covered(c, ch) && c.read <= |s.log|))
  }

  ghost predicate Inv(s: State) {
    && LogInv(s)
    && (forall id :: id in s.channels ==> ChannelOk(s, id))
    && (forall id :: id in s.clients ==> ClientOk(s, id))
  }

  /** Appending keeps every earlier slice. */
  lemma SliceGrows(log: seq<Event>, e: Event, first: nat, last: nat)
    requires first == last || last <= |log|
    ensures Slice(log + [e], first, last) == Slice(log, first, last)
  {
  }

  lemma SliceNext(log: seq<Event>, first: nat, last: nat)
    requires first <= last < |log|
    ensures Slice(log, first, last + 1) == Slice(log, first, last) + [log[last]]
  {
  }

  // ---- the writer's steps ----

  lemma AppendChannel(s: State, payload: nat, id: nat)
    requires LogInv(s) && Enabled(s, Append(payload)) && id in s.channels && ChannelOk(s, id)
    ensures ChannelOk(Apply(s, Append(payload)), id)
  {
  }

  lemma AppendClient(s: State, payload: nat, id: nat)
    requires Enabled(s, Append(payload)) && id in s.channels && id in s.clients && ClientOk(s, id)
    ensures ClientOk(Apply(s, Append(payload)), id)
  {
    SliceGrows(s.log, Event(|s.log| + 1, payload), s.clients[id].first, s.clients[id].last);
    hide Slice;
  }

  lemma AppendKeeps(s: State, payload: nat)
    requires Inv(s) && Enabled(s, Append(payload))
    ensures Inv(Apply(s, Append(payload)))
  {
    hide ChannelOk, ClientOk;
    var s' := Apply(s, Append(payload));
    forall id | id in s'.channels ensures ChannelOk(s', id) {
      AppendChannel(s, payload, id);
    }
    forall id | id in s'.clients ensures ClientOk(s', id) {
      AppendClient(s, payload, id);
    }
  }

  lemma FinalizeKeeps(s: State)
    requires Inv(s)
    ensures Inv(s.(finalized := true))
  {
    forall id | id in s.channels ensures ChannelOk(s.(finalized := true), id) {
      assert ChannelOk(s, id);
    }
    forall id | id in s.clients ensures ClientOk(s.(finalized := true), id) {
      assert ClientOk(s, id);
    }
  }

  /** A step of the hub: clients stay as they are, and every channel keeps what it has. */
  lemma HubStepKeeps(s: State, s': State)
    requires Inv(s) && LogInv(s') && s'.log == s.log && s'.finalized == s.finalized && s'.clients == s.clients
    requires s'.channels.Keys == s.channels.Keys
    requires forall id :: id in s.channels ==> ChannelOk(s', id) && Follows(s.channels[id], s'.channels[id])
    ensures Inv(s')
  {
    forall id | id in s'.clients ensures ClientOk(s', id) {
      assert ClientOk(s, id) && Follows(s.channels[id], s'.channels[id]);
    }
  }

  ghost predicate Follows(c: Channel, c': Channel) {
    && c'.start == c.start && c'.taken == c.taken
    && (c.closed.Some? ==> c' == c) && (c'.closed == Some(Unsubscribe) ==> c.closed == c'.closed)
  }

  lemma PublishKeeps(s: State)
    requires Inv(s) && Enabled(s, Publish)
    ensures Inv(Apply(s, Publish))
  {
    var s' := Apply(s, Publish);
    assert !SendsOnClosed(s);
    hide ClientOk;
    forall id | id in s.channels ensures ChannelOk(s', id) && Follows(s.channels[id], s'.channels[id]) {
      PublishChannel(s, s', id);
    }
    hide ChannelOk, ClientOk;
    HubStepKeeps(s, s');
  }

  lemma PublishAt(s: State, id: nat)
    requires LogInv(s) && s.pending.Some? && id in s.channels
    ensures var s', c := Apply(s, Publish), s.channels[id];
      && s'.log == s.log && s'.pending.None? && s'.finalized == s.finalized && id in s'.channels
      && s'.channels[id] == (if id in s.registered then Send(c, s.pending.value) else c)
      && (id in s'.registered <==> id in s.registered && |c.queue| < CHANNEL_CAPACITY)
  {
  }

  lemma PublishChannel(s: State, s': State, id: nat)
    requires LogInv(s) && s.pending.Some? && s' == Apply(s, Publish) && id in s.channels && ChannelOk(s, id)
    ensures id in s'.channels && ChannelOk(s', id)
  {
    PublishAt(s, id);
    hide Apply;
    var c := s.channels[id];
    var from := c.start + c.taken;
    if id in s.registered {
      assert s.log[from..|s.log|] == s.log[from..|s.log| - 1] + [s.log[|s.log| - 1]];
    }
  }

  lemma FinishKeeps(s: State)
    requires Inv(s) && Enabled(s, FinishEcho)
    ensures Inv(Apply(s, FinishEcho))
  {
    var s' := Apply(s, FinishEcho);
    assert !SendsOnClosed(s);
    forall id | id in s.channels ensures ChannelOk(s', id) && Follows(s.channels[id], s'.channels[id]) {
      assert ChannelOk(s, id);
    }
    HubStepKeeps(s, s');
  }

  // ---- the clients' steps ----

  /** Everything but one client and its channel is as it was. */
  ghost predicate OnlyClient(s: State, s': State, id: nat) {
    && s'.log == s.log && s'.finalized == s.finalized && s'.pending == s.pending
    && (forall other :: other != id ==>
          && (other in s'.channels <==> other in s.channels) && (other in s'.clients <==> other in s.clients)
          && (other in s'.registered <==> other in s.registered))
    && (forall other :: other != id && other in s.channels ==> s'.channels[other] == s.channels[other])
    && (forall other :: other != id && other in s.clients ==> s'.clients[other] == s.clients[other])
  }

  lemma OtherClient(s: State, s': State, id: nat, other: nat)
    requires OnlyClient(s, s', id) && other != id && other in s'.channels
    ensures other in s.channels
    ensures ChannelOk(s, other) ==> ChannelOk(s', other)
    ensures other in s'.clients ==> other in s.clients && (ClientOk(s, other) ==> ClientOk(s', other))
  {
  }

  /** A step of one client, which may also change its own channel. */
  lemma ClientStepKeeps(s: State, s': State, id: nat)
    requires Inv(s) && OnlyClient(s, s', id) && !s'.panicked
    requires id in s'.channels && id in s'.clients && ChannelOk(s', id) && ClientOk(s', id)
    requires id in s'.registered ==> s'.channels[id].closed.None?
    ensures Inv(s')
  {
    hide ChannelOk, ClientOk;
    assert s'.clients.Keys == s'.channels.Keys;
    forall other | other in s'.channels && other != id ensures ChannelOk(s', other) && ClientOk(s', other) {
      OtherClient(s, s', id, other);
    }
  }

  /** A step that moves the client on without touching its channel. */
  lemma GotoKeeps(s: State, id: nat, c: Client)
    requires Inv(s) && At(s, id) && ClientOk(s.(clients := s.clients[id := c]), id)
    ensures Inv(s.(clients := s.clients[id := c]))
  {
    var s' := s.(clients := s.clients[id := c]);
    assert ChannelOk(s, id) && ChannelOk(s', id);
    hide ChannelOk, ClientOk;
    ClientStepKeeps(s, s', id);
  }

  lemma SubscribeKeeps(s: State, id: nat, first: nat)
    requires Inv(s) && Enabled(s, Subscribe(id, first))
    ensures Inv(Apply(s, Subscribe(id, first)))
  {
    ClientStepKeeps(s, Apply(s, Subscribe(id, first)), id);
  }

  lemma ReadsKeep(s: State, id: nat, a: Action)
    requires Inv(s) && (a == ReadStatus(id) || a == ReadEvents(id) || a == EndReplay(id)) && Enabled(s, a)
    ensures Inv(Apply(s, a))
  {
    assert ClientOk(s, id) && ChannelOk(s, id);
    assert s.log[..|s.log|] == s.log;
    GotoKeeps(s, id, Apply(s, a).clients[id]);
  }

  lemma EndsKeep(s: State, id: nat, a: Action)
    requires Inv(s) && (a == SeeClosed(id) || a == Disconnect(id)) && Enabled(s, a)
    ensures Inv(Apply(s, a))
  {
    assert ClientOk(s, id) && ChannelOk(s, id);
    GotoKeeps(s, id, Apply(s, a).clients[id]);
  }

  lemma ReplayClient(s: State, id: nat)
    requires LogInv(s) && Enabled(s, Replay(id)) && ClientOk(s, id)
    ensures ClientOk(Apply(s, Replay(id)), id)
  {
    var c := s.clients[id];
    var position := c.stage.position;
    assert c.stage.events[position] == s.log[position];
    if c.first <= position {
      SliceNext(s.log, c.first, position);
    }
    hide Slice;
  }

  lemma ReplayKeeps(s: State, id: nat)
    requires Inv(s) && Enabled(s, Replay(id))
    ensures Inv(Apply(s, Replay(id)))
  {
    hide ChannelOk, ClientOk;
    assert ClientOk(s, id);
    ReplayClient(s, id);
    GotoKeeps(s, id, Apply(s, Replay(id)).clients[id]);
  }

  lemma ReceiveChannel(s: State, id: nat)
    requires Enabled(s, Receive(id)) && ChannelOk(s, id)
    ensures ChannelOk(Apply(s, Receive(id)), id)
  {
    var ch := s.channels[id];
    var from := ch.start + ch.taken;
    assert ch.queue[1..] == s.log[from + 1..from + |ch.queue|];
  }

  /** A received event is the next one the client is missing, or one it has already. */
  lemma ReceiveClient(s: State, id: nat)
    requires LogInv(s) && Enabled(s, Receive(id)) && ChannelOk(s, id) && ClientOk(s, id)
    ensures ClientOk(Apply(s, Receive(id)), id)
  {
    var c, ch := s.clients[id], s.channels[id];
    var from := ch.start + ch.taken;
    assert ch.queue[0] == s.log[from] && ch.queue[0].sequence == from + 1;
    if c.last == from {
      SliceNext(s.log, c.first, c.last);
    }
    hide Slice, ChannelOk, Numbered;
  }

  lemma ReceiveIsOnly(s: State, id: nat)
    requires LogInv(s) && Enabled(s, Receive(id))
    ensures var s' := Apply(s, Receive(id));
      && OnlyClient(s, s', id) && !s'.panicked && id in s'.channels && id in s'.clients
      && (id in s'.registered ==> s'.channels[id].closed.None?)
  {
  }

  lemma ReceiveKeeps(s: State, id: nat)
    requires Inv(s) && Enabled(s, Receive(id))
    ensures Inv(Apply(s, Receive(id)))
  {
    hide ChannelOk, ClientOk;
    ReceiveChannel(s, id);
    ReceiveClient(s, id);
    ReceiveIsOnly(s, id);
    hide Apply;
    ClientStepKeeps(s, Apply(s, Receive(id)), id);
  }

  lemma CancelIsOnly(s: State, id: nat)
    requires LogInv(s) && Enabled(s, Cancel(id)) && ChannelOk(s, id) && ClientOk(s, id)
    ensures var s' := Apply(s, Cancel(id));
      && OnlyClient(s, s', id) && !s'.panicked && id in s'.channels && id in s'.clients
      && (id in s'.registered ==> s'.channels[id].closed.None?)
      && ChannelOk(s', id) && ClientOk(s', id)
  {
    hide Slice;
  }

  lemma CancelKeeps(s: State, id: nat)
    requires Inv(s) && Enabled(s, Cancel(id))
    ensures Inv(Apply(s, Cancel(id)))
  {
    hide ChannelOk, ClientOk;
    assert ChannelOk(s, id) && ClientOk(s, id);
    CancelIsOnly(s, id);
    hide Apply;
    ClientStepKeeps(s, Apply(s, Cancel(id)), id);
  }

  lemma StepKeeps(s: State, a: Action)
    requires Inv(s) && Enabled(s, a)
    ensures Inv(Apply(s, a))
  {
    hide Inv;
    match a
    case Append(payload) => AppendKeeps(s, payload);
    case Publish => PublishKeeps(s);
    case Finalize => FinalizeKeeps(s);
    case FinishEcho => FinishKeeps(s);
    case Subscribe(id, first) => SubscribeKeeps(s, id, first);
    case ReadStatus(id) => ReadsKeep(s, id, a);
    case ReadEvents(id) => ReadsKeep(s, id, a);
    case Replay(id) => ReplayKeeps(s, id);
    case EndReplay(id) => ReadsKeep(s, id, a);
    case Receive(id) => ReceiveKeeps(s, id);
    case SeeClosed(id) => EndsKeep(s, id, a);
    case Disconnect(id) => EndsKeep(s, id, a);
    case Cancel(id) => CancelKeeps(s, id);
  }

  lemma {:induction false} InvAlong(states: seq<State>, acts: seq<Action>, k: nat)
    requires Behaviour(states, acts) && k < |states|
    ensures Inv(states[k])
  {
    hide Apply, Enabled;
    if k > 0 {
      InvAlong(states, acts, k - 1);
      StepAt(states, acts, k - 1);
      StepKeeps(states[k - 1], acts[k - 1]);
    }
  }

  lemma ReachableInv(s: State)
    requires Reachable(s)
    ensures Inv(s)
  {
    hide Inv;
    var states, acts :| Behaviour(states, acts) && states[|acts|] == s;
    InvAlong(states, acts, |acts|);
  }
}
