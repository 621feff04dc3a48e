/** The hub as an object, and the SSE handler's two loops. */
module EventHub {
  import opened EventDelivery

  datatype Key = Key(app: string, echo: string)

  /** A subscriber's channel; the hub forgets a closed one, its receiver may still drain it. */
  datatype Pipe = Pipe(queue: seq<Event>, open: bool)

  /** Publish to one subscriber: it gets the event, or with a full channel it is closed and keeps what it had. */
  ghost predicate Served(p: Pipe, p': Pipe, e: Event) {
    if |p.queue| < CHANNEL_CAPACITY then p'.queue == p.queue + [e] && p'.open == p.open
    else p'.queue == p.queue && !p'.open
  }

  predicate Registered(subscribers: map<Key, set<nat>>, key: Key, id: nat) {
    key in subscribers && id in subscribers[key]
  }

  /** Registered channels are open and belong to one key; ids are never reused. */
  ghost predicate Consistent(nextId: nat, subscribers: map<Key, set<nat>>, pipes: map<nat, Pipe>) {
    && (forall id :: id in pipes ==> 1 <= id <= nextId)
    && (forall key, id :: Registered(subscribers, key, id) ==> id in pipes && pipes[id].open)
    && (forall key, other, id ::
          Registered(subscribers, key, id) && Registered(subscribers, other, id) ==> key == other)
  }

  class Hub {
    var nextId: nat
    var subscribers: map<Key, set<nat>>
    var pipes: map<nat, Pipe>

    ghost predicate Valid()
      reads this
    {
      Consistent(nextId, subscribers, pipes)
    }

    constructor ()
      ensures Valid() && pipes == map[] && subscribers == map[]
    {
      nextId, subscribers, pipes := 0, map[], map[];
    }

    method Subscribe(key: Key) returns (id: nat)
      requires Valid()
      modifies this
      ensures Valid() && id !in old(pipes) && Registered(subscribers, key, id)
      ensures pipes == old(pipes)[id := Pipe([], true)]
      ensures forall k, i :: i != id ==> (Registered(subscribers, k, i) <==> Registered(old(subscribers), k, i))
    {
      nextId := nextId + 1;
      id := nextId;
      if key !in subscribers {
        subscribers := subscribers[key := {}];
      }
      pipes := pipes[id := Pipe([], true)];
      subscribers := subscribers[key := subscribers[key] + {id}];
      assert forall k, i :: i != id ==> (Registered(subscribers, k, i) <==> Registered(old(subscribers), k, i));
      assert forall k :: Registered(subscribers, k, id) && k != key ==> Registered(old(subscribers), k, id);
    }

    /** The cancel function returned by Subscribe. It may be called again, or after the hub closed the channel. */
    method Cancel(key: Key, id: nat)
      requires Valid()
      modifies this
      ensures Valid() && !Registered(subscribers, key, id)
      ensures forall k, i ::
                !(k == key && i == id) ==> (Registered(subscribers, k, i) <==> Registered(old(subscribers), k, i))
      ensures pipes == if Registered(old(subscribers), key, id) then old(pipes)[id := old(pipes)[id].(open := false)]
                       else old(pipes)
    {
      if key in subscribers {
        if id in subscribers[key] {
          assert Registered(subscribers, key, id);
          subscribers := subscribers[key := subscribers[key] - {id}];
          Close(id);
        }
        assert forall k, i ::
                 !(k == key && i == id) ==> (Registered(subscribers, k, i) <==> Registered(old(subscribers), k, i));
        if subscribers[key] == {} {
          assert forall i :: !Registered(subscribers, key, i);
          ghost var before := subscribers;
          subscribers := subscribers - {key};
          assert forall k, i :: Registered(subscribers, k, i) <==> Registered(before, k, i);
        }
      }
    }

    /** Closing a closed channel would panic. */
    method Close(id: nat)
      requires id in pipes && pipes[id].open
      modifies this`pipes
      ensures pipes == old(pipes)[id := old(pipes)[id].(open := false)]
    {
      pipes := pipes[id := pipes[id].(open := false)];
    }

    /** A send that does not block; sending on a closed channel would panic. */
    method TrySend(id: nat, e: Event) returns (sent: bool)
      requires id in pipes && pipes[id].open
      modifies this`pipes
      ensures sent <==> |old(pipes)[id].queue| < CHANNEL_CAPACITY
      ensures sent ==> pipes == old(pipes)[id := old(pipes)[id].(queue := old(pipes)[id].queue + [e])]
      ensures !sent ==> pipes == old(pipes)
    {
      sent := |pipes[id].queue| < CHANNEL_CAPACITY;
      if sent {
        pipes := pipes[id := pipes[id].(queue := pipes[id].queue + [e])];
      }
    }

    /** One turn of Publish's loop. */
    method Offer(key: Key, id: nat, e: Event)
      requires Valid() && Registered(subscribers, key, id)
      modifies this`pipes, this`subscribers
      ensures Valid() && id in old(pipes) && id in pipes && pipes == old(pipes)[id := pipes[id]]
      ensures Served(old(pipes)[id], pipes[id], e)
      ensures forall k, i ::
                Registered(subscribers, k, i) <==>
                  Registered(old(subscribers), k, i) && (k == key && i == id ==> pipes[id].open)
    {
      var sent := TrySend(id, e);
      if !sent {
        Close(id);
        subscribers := subscribers[key := subscribers[key] - {id}];
        assert forall k, i ::
                 Registered(subscribers, k, i) <==> Registered(old(subscribers), k, i) && !(k == key && i == id);
      }
    }

    /** Every subscriber of the key gets the event or is cut off; nobody else notices. */
    method Publish(key: Key, e: Event)
      requires Valid()
      modifies this`pipes, this`subscribers
      ensures Valid() && pipes.Keys == old(pipes).Keys
      ensures forall id :: id in pipes ==>
                if Registered(old(subscribers), key, id) then Served(old(pipes)[id], pipes[id], e)
                else pipes[id] == old(pipes)[id]
      ensures forall k, id ::
                Registered(subscribers, k, id) <==> Registered(old(subscribers), k, id) && (k == key ==> pipes[id].open)
      ensures forall id :: Registered(old(subscribers), key, id) && |old(pipes)[id].queue| >= CHANNEL_CAPACITY ==>
                !pipes[id].open && !Registered(subscribers, key, id)
    {
      var left := if key in subscribers then subscribers[key] else {};
      ghost var all := left;
      assert forall id :: id in all <==> Registered(subscribers, key, id);
      while left != {}
        invariant left <= all && Valid() && pipes.Keys == old(pipes).Keys
        invariant forall id :: id in pipes ==>
                    if id in all - left then Served(old(pipes)[id], pipes[id], e) else pipes[id] == old(pipes)[id]
        invariant forall k, id :: Registered(subscribers, k, id) <==>
                    Registered(old(subscribers), k, id)
                      && (k == key && id in all - left ==> id in pipes && pipes[id].open)
      {
        var id :| id in left;
        assert Registered(old(subscribers), key, id);
        Offer(key, id, e);
        left := left - {id};
      }
    }

    /** One turn of Finish's loop. */
    method CutOff(key: Key, id: nat)
      requires Valid() && Registered(subscribers, key, id)
      modifies this`pipes, this`subscribers
      ensures Valid() && id in old(pipes) && pipes == old(pipes)[id := old(pipes)[id].(open := false)]
      ensures forall k, i ::
                Registered(subscribers, k, i) <==> Registered(old(subscribers), k, i) && !(k == key && i == id)
    {
      subscribers := subscribers[key := subscribers[key] - {id}];
      assert forall k, i ::
               Registered(subscribers, k, i) <==> Registered(old(subscribers), k, i) && !(k == key && i == id);
      Close(id);
    }

    /** The end of an Echo closes all of its subscriptions. */
    method Finish(key: Key)
      requires Valid()
      modifies this`pipes, this`subscribers
      ensures Valid() && key !in subscribers && pipes.Keys == old(pipes).Keys
      ensures forall id :: id in pipes ==>
                pipes[id] == if Registered(old(subscribers), key, id) then old(pipes)[id].(open := false)
                             else old(pipes)[id]
      ensures forall k, id :: k != key ==> (Registered(subscribers, k, id) <==> Registered(old(subscribers), k, id))
    {
      var left := if key in subscribers then subscribers[key] else {};
      ghost var all := left;
      assert forall id :: id in all <==> Registered(subscribers, key, id);
      while left != {}
        invariant left <= all && Valid() && pipes.Keys == old(pipes).Keys
        invariant forall id :: id in pipes ==>
                    pipes[id] == if id in all - left then old(pipes)[id].(open := false) else old(pipes)[id]
        invariant forall k, id :: Registered(subscribers, k, id) <==>
                    Registered(old(subscribers), k, id) && !(k == key && id in all - left)
      {
        var id :| id in left;
        assert Registered(old(subscribers), key, id);
        CutOff(key, id);
        left := left - {id};
      }
      ghost var before := subscribers;
      subscribers := subscribers - {key};
      assert forall k, i :: Registered(subscribers, k, i) <==> Registered(before, k, i);
    }
  }

  // ---- the SSE handler ----

  datatype Live = Item(event: Event) | Heartbeat | Closed | ContextDone

  /** The items a stretch of the live channel carries. */
  ghost function Items(live: seq<Live>): seq<Event> {
    if live == [] then []
    else Items(live[..|live| - 1]) + (if live[|live| - 1].Item? then [live[|live| - 1].event] else [])
  }

  /** The replay loop; `read` events of the log were read, and the connection survives `writes` writes. */
  method ReplayEvents(log: seq<Event>, first: nat, read: nat, writes: nat)
    returns (sent: seq<Event>, last: nat, broken: bool)
    requires Numbered(log) && read <= |log|
    ensures first <= last && (first < last ==> last <= |log|) && sent == Slice(log, first, last) && |sent| <= writes
    ensures !broken ==> last == if first < read then read else first
    ensures broken ==> |sent| == writes
  {
    var replayed := log[..read];
    sent, last, broken := [], first, false;
    var n := 0;
    while n < |replayed|
      invariant n <= |replayed| && |sent| <= writes
      invariant last == if first < n then n else first
      invariant sent == Slice(log, first, last)
    {
      if replayed[n].sequence > last {
        if |sent| >= writes {
          broken := true;
          return;
        }
        SliceNext(log, first, n);
        sent, last := sent + [replayed[n]], replayed[n].sequence;
      }
      n := n + 1;
    }
  }

  /** The stream ends at this point. */
  ghost predicate Ends(live: seq<Live>, n: nat) {
    n < |live| && (live[n].Closed? || live[n].ContextDone?)
  }

  /** The loop over the live channel, whose items are the log from position `start` on. */
  method FollowEvents(log: seq<Event>, first: nat, soFar: seq<Event>, lastSent: nat, live: seq<Live>, start: nat,
                      writes: nat)
    returns (sent: seq<Event>, last: nat, n: nat)
    requires Numbered(log) && first <= lastSent && start <= lastSent && (first < lastSent ==> lastSent <= |log|)
    requires soFar == Slice(log, first, lastSent) && |soFar| <= writes
    requires start + |Items(live)| <= |log| && Items(live) == log[start..start + |Items(live)|]
    ensures first <= last && (first < last ==> last <= |log|) && sent == Slice(log, first, last) && |sent| <= writes
    ensures n <= |live| && lastSent <= last && start + |Items(live[..n])| <= last
    ensures n == |live| || Ends(live, n) || |sent| == writes
  {
    hide Slice, Numbered;
    sent, last, n := soFar, lastSent, 0;
    while n < |live|
      invariant n <= |live|
      invariant first <= lastSent <= last && start + |Items(live[..n])| <= last && |sent| <= writes
      invariant first < last ==> last <= |log|
      invariant sent == Slice(log, first, last)
    {
      ghost var taken := |Items(live[..n])|;
      assert live[..n + 1][..n] == live[..n];
      ItemsPrefix(live, n + 1);
      match live[n] {
        case Closed => return;
        case ContextDone => return;
        case Heartbeat =>
        case Item(event) =>
          assert event == Items(live[..n + 1])[taken] == Items(live)[taken];
          NumberAt(log, start + taken);
          if event.sequence > last {
            if |sent| >= writes {
              return;
            }
            SliceNext(log, first, last);
            sent, last := sent + [event], event.sequence;
          }
      }
      n := n + 1;
    }
  }

  lemma NumberAt(log: seq<Event>, k: nat)
    requires Numbered(log) && k < |log|
    ensures log[k].sequence == k + 1
  {
  }

  /**
   echoEvents after the subscription: `read` events of the log were read after it, and `live` is what the
   channel then yields, a stretch of the same log that starts no later than the replay ended. What is
   sent is the log from the client's last event on, without a gap and without a repetition; unless a
   write fails it covers all that was read and all that the channel yielded before it closed.
   */
  method EchoEvents(log: seq<Event>, first: nat, running: bool, read: nat, live: seq<Live>, start: nat, writes: nat)
    returns (sent: seq<Event>, last: nat, n: nat)
    requires Numbered(log) && read <= |log| && start <= read
    requires start + |Items(live)| <= |log| && Items(live) == log[start..start + |Items(live)|]
    ensures first <= last && sent == Slice(log, first, last) && n <= |live|
    ensures |sent| < writes ==>
              (first < read ==> read <= last)
                && (running ==> start + |Items(live[..n])| <= last && (n == |live| || Ends(live, n)))
  {
    hide Slice, Numbered;
    var broken;
    n := 0;
    sent, last, broken := ReplayEvents(log, first, read, writes);
    if broken || !running {
      return;
    }
    sent, last, n := FollowEvents(log, first, sent, last, live, start, writes);
  }

  lemma {:induction false} ItemsPrefix(live: seq<Live>, n: nat)
    requires n <= |live|
    ensures |Items(live[..n])| <= |Items(live)| && Items(live[..n]) == Items(live)[..|Items(live[..n])|]
    decreases |live| - n
  {
    if n < |live| {
      ItemsPrefix(live, n + 1);
      assert live[..n + 1][..n] == live[..n];
    } else {
      assert live[..n] == live;
    }
  }
}
