/** What an Echo's clients receive, in every reachable state. */
module DeliveryTheorems {
  import opened Common
  import opened EventDelivery

  /** What a client has received is exactly the run of persisted events after its Last-Event-ID, so far. */
  lemma ReceivedIsTheLog(s: State, id: nat, k: nat)
    requires Reachable(s) && id in s.clients && k < |s.clients[id].received|
    ensures var c := s.clients[id];
      && c.first + k < |s.log| && c.received[k] == s.log[c.first + k]
      && c.received[k].sequence == c.first + k + 1
  {
    ReachableInv(s);
    assert ClientOk(s, id);
  }

  /** A stream that ended because the Echo is not running any more has delivered the whole rest of the log. */
  lemma ReplayIsComplete(s: State, id: nat)
    requires Reachable(s) && id in s.clients && s.clients[id].stage == Done(NotRunning)
    ensures s.clients[id].received == Slice(s.log, s.clients[id].first, |s.log|)
  {
    ReachableInv(s);
    assert ClientOk(s, id);
  }

  /**
   A stream closed by the end of the Echo has delivered the whole rest of the log exactly when no event
   was left unpublished by then, or the replay had read it, or the client had it before it came.
   */
  lemma FinishCompleteExactly(s: State, id: nat, early: bool)
    requires Reachable(s) && At(s, id) && s.clients[id].stage == Done(StreamClosed)
    requires s.channels[id].closed == Some(Finish(early))
    ensures var c := s.clients[id];
      c.received == Slice(s.log, c.first, |s.log|) <==> !early || c.read >= |s.log| || c.first >= |s.log|
  {
    ReachableInv(s);
    assert ClientOk(s, id) && ChannelOk(s, id);
    var c := s.clients[id];
    assert early && c.read < |s.log| && c.first < |s.log| ==>
             |Slice(s.log, c.first, c.last)| < |Slice(s.log, c.first, |s.log|)|;
  }

  // ---- both ends of an unpublished event ----

  const LAST: Event := Event(1, 7)

  /** The client reads the log before the last event is appended: the event is lost on this stream. */
  const LOSING_RUN: seq<Action> :=
    [Subscribe(0, 0), ReadStatus(0), ReadEvents(0), EndReplay(0), Append(7), Finalize, FinishEcho, SeeClosed(0)]

  /** The client reads the log after the last event was appended: nothing is lost. */
  const COMPLETE_RUN: seq<Action> :=
    [Subscribe(0, 0), ReadStatus(0), Append(7), ReadEvents(0), Replay(0), EndReplay(0), Finalize, FinishEcho,
     SeeClosed(0)]

  /** A state on the way, of one client that subscribed to an empty log. */
  function WithClient(ended: nat, open: bool, stage: Stage, read: nat, received: seq<Event>): State {
    State(if ended == 0 then [] else [LAST], ended > 1, if ended == 0 then None else Some(LAST),
          if open then {0} else {},
          map[0 := Channel([], if open then None else Some(Finish(true)), 0, 0)],
          map[0 := Client(stage, 0, read, |received|, received)], false)
  }

  const LOSING_STATES: seq<State> :=
    [INIT,
     WithClient(0, true, Subscribed, 0, []),
     WithClient(0, true, StatusRead(true), 0, []),
     WithClient(0, true, Replaying(true, [], 0), 0, []),
     WithClient(0, true, Following, 0, []),
     WithClient(1, true, Following, 0, []),
     WithClient(2, true, Following, 0, []),
     WithClient(2, false, Following, 0, []),
     WithClient(2, false, Done(StreamClosed), 0, [])]

  const COMPLETE_STATES: seq<State> :=
    [INIT,
     WithClient(0, true, Subscribed, 0, []),
     WithClient(0, true, StatusRead(true), 0, []),
     WithClient(1, true, StatusRead(true), 0, []),
     WithClient(1, true, Replaying(true, [LAST], 0), 1, []),
     WithClient(1, true, Replaying(true, [LAST], 1), 1, [LAST]),
     WithClient(1, true, Following, 1, [LAST]),
     WithClient(2, true, Following, 1, [LAST]),
     WithClient(2, false, Following, 1, [LAST]),
     WithClient(2, false, Done(StreamClosed), 1, [LAST])]

  lemma LosingSteps(i: nat)
    requires i < |LOSING_RUN|
    ensures Step(LOSING_STATES[i], LOSING_RUN[i], LOSING_STATES[i + 1])
  {
    var none: seq<Event> := [];
    assert none + [LAST] == [LAST];
  }

  lemma LosingRun()
    ensures Behaviour(LOSING_STATES, LOSING_RUN)
  {
    hide Apply, Enabled;
    forall i | 0 <= i < |LOSING_RUN| ensures Step(LOSING_STATES[i], LOSING_RUN[i], LOSING_STATES[i + 1]) {
      LosingSteps(i);
    }
  }

  lemma CompleteReads(i: nat)
    requires i < 5
    ensures Step(COMPLETE_STATES[i], COMPLETE_RUN[i], COMPLETE_STATES[i + 1])
  {
    var none: seq<Event> := [];
    assert none + [LAST] == [LAST];
  }

  lemma CompleteEnds(i: nat)
    requires 5 <= i < |COMPLETE_RUN|
    ensures Step(COMPLETE_STATES[i], COMPLETE_RUN[i], COMPLETE_STATES[i + 1])
  {
  }

  lemma CompleteRun()
    ensures Behaviour(COMPLETE_STATES, COMPLETE_RUN)
  {
    hide Apply, Enabled;
    forall i | 0 <= i < |COMPLETE_RUN| ensures Step(COMPLETE_STATES[i], COMPLETE_RUN[i], COMPLETE_STATES[i + 1]) {
      if i < 5 {
        CompleteReads(i);
      } else {
        CompleteEnds(i);
      }
    }
  }

  /** The same end of an Echo, both ways: one client loses the last event, another one does not. */
  lemma EarlyFinishEitherWay()
    ensures exists s :: Reachable(s) && At(s, 0) && s.clients[0].stage == Done(StreamClosed)
                        && s.channels[0].closed == Some(Finish(true)) && s.log == [LAST] && s.clients[0].received == []
    ensures exists s :: Reachable(s) && At(s, 0) && s.clients[0].stage == Done(StreamClosed)
                        && s.channels[0].closed == Some(Finish(true)) && s.log == [LAST]
                        && s.clients[0].received == [LAST]
  {
    LosingRun();
    CompleteRun();
    assert Reachable(LOSING_STATES[8]);
    assert Reachable(COMPLETE_STATES[9]);
  }

  /** Even otherwise no more than the last event is missing. */
  lemma EarlyFinishMissesAtMostOne(s: State, id: nat)
    requires Reachable(s) && At(s, id) && s.clients[id].stage == Done(StreamClosed)
    requires s.channels[id].closed.Some? && s.channels[id].closed.value.Finish? && s.clients[id].first < |s.log|
    ensures |s.clients[id].received| >= |s.log| - s.clients[id].first - 1
  {
    ReachableInv(s);
    assert ClientOk(s, id);
  }

  /** The hub never sends on a closed channel and never closes one twice. */
  lemma NeverPanics(s: State)
    requires Reachable(s)
    ensures !s.panicked && !SendsOnClosed(s)
    ensures forall id :: id in s.registered ==> id in s.channels && s.channels[id].closed.None?
  {
    ReachableInv(s);
  }

  // ---- catching up ----

  /** The actions can be taken one after the other, and lead from the one state to the other. */
  ghost predicate Leads(s: State, acts: seq<Action>, end: State)
    decreases |acts|
  {
    if acts == [] then s == end
    else Enabled(s, acts[0]) && Leads(Apply(s, acts[0]), acts[1..], end)
  }

  lemma LeadsFirst(s: State, a: Action, acts: seq<Action>, next: State, end: State)
    requires Step(s, a, next) && Leads(next, acts, end)
    ensures Leads(s, [a] + acts, end)
  {
    assert ([a] + acts)[1..] == acts;
  }

  /** What a client's own handler does while nobody disconnects. */
  predicate Own(a: Action, id: nat) {
    a == ReadStatus(id) || a == ReadEvents(id) || a == Replay(id) || a == EndReplay(id) || a == Receive(id)
  }

  /** The steps a client has left until it has everything that was published. */
  function Left(s: State, id: nat): nat
    requires At(s, id)
  {
    var queued := |s.channels[id].queue|;
    match s.clients[id].stage
    case Subscribed => |s.log| + queued + 3
    case StatusRead(_) => |s.log| + queued + 2
    case Replaying(_, events, position) => queued + 1 + if position <= |events| then |events| - position else 0
    case Following => queued
    case Done(_) => 0
  }

  function NextOf(s: State, id: nat): Action
    requires At(s, id)
  {
    match s.clients[id].stage
    case Subscribed => ReadStatus(id)
    case StatusRead(_) => ReadEvents(id)
    case Replaying(_, events, position) => if position < |events| then Replay(id) else EndReplay(id)
    case _ => Receive(id)
  }

  /** The log, the hub's registrations and where the client began are as they were. */
  ghost predicate SameStream(s: State, s': State, id: nat)
    requires At(s, id)
  {
    && At(s', id) && s'.log == s.log && s'.pending == s.pending && s'.registered == s.registered
    && s'.clients[id].first == s.clients[id].first
  }

  lemma NextAllowed(s: State, id: nat)
    requires At(s, id) && ClientOk(s, id) && Left(s, id) > 0
    ensures Enabled(s, NextOf(s, id)) && Own(NextOf(s, id), id)
    ensures SameStream(s, Apply(s, NextOf(s, id)), id) && Left(Apply(s, NextOf(s, id)), id) < Left(s, id)
    ensures Apply(s, NextOf(s, id)).clients[id].stage.Done? ==>
              Apply(s, NextOf(s, id)).clients[id].stage.reason == NotRunning
  {
    hide Slice, Numbered;
  }

  lemma CatchUpStep(s: State, id: nat) returns (next: State)
    requires Inv(s) && At(s, id) && Left(s, id) > 0
    ensures Own(NextOf(s, id), id) && Step(s, NextOf(s, id), next) && Inv(next)
    ensures SameStream(s, next, id) && Left(next, id) < Left(s, id)
    ensures next.clients[id].stage.Done? ==> next.clients[id].stage.reason == NotRunning
  {
    assert ClientOk(s, id);
    hide Inv, Apply, Enabled, ClientOk;
    NextAllowed(s, id);
    StepKeeps(s, NextOf(s, id));
    next := Apply(s, NextOf(s, id));
  }

  /**
   No client has to stay behind: one that is still registered can always take what it has left, and
   has then received everything that was published after its Last-Event-ID.
   */
  lemma {:induction false} CanCatchUp(s: State, id: nat) returns (acts: seq<Action>, end: State)
    requires Inv(s) && At(s, id) && id in s.registered
    requires s.clients[id].stage.Done? ==> s.clients[id].stage.reason == NotRunning
    ensures Leads(s, acts, end) && SameStream(s, end, id) && forall a :: a in acts ==> Own(a, id)
    ensures var c := end.clients[id];
      Published(s) <= c.last && c.received == Slice(s.log, c.first, c.last)
    decreases Left(s, id)
  {
    hide Inv, Apply, Enabled;
    if Left(s, id) == 0 {
      acts, end := [], s;
      CaughtUp(s, id);
    } else {
      var next := CatchUpStep(s, id);
      var rest;
      rest, end := CanCatchUp(next, id);
      acts := [NextOf(s, id)] + rest;
      LeadsFirst(s, NextOf(s, id), rest, next, end);
    }
  }

  lemma CaughtUp(s: State, id: nat)
    requires Inv(s) && At(s, id) && id in s.registered && Left(s, id) == 0
    requires s.clients[id].stage.Done? ==> s.clients[id].stage.reason == NotRunning
    ensures var c := s.clients[id];
      Published(s) <= c.last && c.received == Slice(s.log, c.first, c.last)
  {
    assert ClientOk(s, id) && ChannelOk(s, id);
  }
}
