/** WatchProxy of watch_proxy.go: one upstream watch per watch type stands for all local subscribers.

    The simple form is `Hub`, a flat set of (watch type, subscriber) pairs with the log of upstream
    calls. The class keeps two nested maps and edits them in place, also while ranging over them. */
module WatchProxies {
  import opened Actors
  import opened Basics

  type WatchType = uint32
  type QueueId = nat     // the identity of a *Queue

  datatype Subscriber = Outer(queue: QueueId) | Inner(actor: ActorRef)
  type Pairs = set<(WatchType, Subscriber)>

  datatype Up = Watch(wt: WatchType) | Unwatch(wt: WatchType)

  // stop is the last interval given to SetStopInterval, in seconds.
  datatype Hub = Hub(pairs: Pairs, up: seq<Up>, stop: Option<nat>)

  ghost predicate Watched(pairs: Pairs, wt: WatchType) { exists s :: (wt, s) in pairs }

  // What replacing the subscriptions, all of watch type wt, by pairs does to the upstream watch.
  ghost function Become(h: Hub, wt: WatchType, pairs: Pairs): Hub {
    var was, now := Watched(h.pairs, wt), Watched(pairs, wt);
    if !was && now then Hub(pairs, h.up + [Watch(wt)], Some(0))
    else if was && !now then Hub(pairs, h.up + [Unwatch(wt)], if pairs == {} then Some(10) else h.stop)
    else h.(pairs := pairs)
  }

  ghost function Subscribe(h: Hub, wt: WatchType, s: Subscriber, isWatch: bool): Hub {
    Become(h, wt, if isWatch then h.pairs + {(wt, s)} else h.pairs - {(wt, s)})
  }

  function Dead(wt: WatchType, refusing: set<QueueId>): Pairs { set q | q in refusing :: (wt, Outer(q)) }

  // A notification of type wt that the given queues refuse.
  ghost function Notify(h: Hub, wt: WatchType, refusing: set<QueueId>): Hub {
    Become(h, wt, h.pairs - Dead(wt, refusing))
  }

  datatype Event =
    | Subscription(wt: WatchType, subscriber: Subscriber, isWatch: bool)
    | Notification(wt: WatchType, refusing: set<QueueId>)

  ghost function Step(h: Hub, e: Event): Hub {
    match e
    case Subscription(wt, s, isWatch) => Subscribe(h, wt, s, isWatch)
    case Notification(wt, refusing) => Notify(h, wt, refusing)
  }

  ghost function Run(events: seq<Event>): Hub {
    if events == [] then Hub({}, [], None) else Step(Run(events[..|events| - 1]), events[|events| - 1])
  }

  // The upstream watches in force after the calls.
  function Replay(up: seq<Up>): set<WatchType> {
    if up == [] then {}
    else
      var before := Replay(up[..|up| - 1]);
      match up[|up| - 1]
      case Watch(wt) => before + {wt}
      case Unwatch(wt) => before - {wt}
  }

  // The calls about one type, true for Watch.
  function CallsFor(up: seq<Up>, wt: WatchType): seq<bool> {
    if up == [] then []
    else
      var last := up[|up| - 1];
      CallsFor(up[..|up| - 1], wt) + if last.wt == wt then [last.Watch?] else []
  }

  predicate Alternates(calls: seq<bool>) { forall i :: 0 <= i < |calls| ==> calls[i] == (i % 2 == 0) }

  ghost predicate HubInv(h: Hub) {
    && (forall wt :: wt in Replay(h.up) <==> Watched(h.pairs, wt))
    && (forall wt :: Alternates(CallsFor(h.up, wt)) && (Watched(h.pairs, wt) <==> |CallsFor(h.up, wt)| % 2 == 1))
    && (h.pairs != {} ==> h.stop == Some(0))
    && (h.pairs == {} ==> h.stop == if h.up == [] then None else Some(10))
  }

  lemma BecomeKeeps(h: Hub, wt: WatchType, pairs: Pairs)
    requires HubInv(h)
    requires forall p: (WatchType, Subscriber) :: p.0 != wt ==> (p in pairs <==> p in h.pairs)
    ensures HubInv(Become(h, wt, pairs))
  {
    var h' := Become(h, wt, pairs);
    assert forall t :: t != wt ==> (Watched(pairs, t) <==> Watched(h.pairs, t));
    if h'.up != h.up {
      assert h'.up[..|h'.up| - 1] == h.up;
    }
  }

  /** Over any sequence of subscriptions and notifications: the upstream calls of each type alternate,
      starting with Watch; replaying them gives exactly the types that have a subscriber; and the stop
      interval is 0 while there is any subscriber and 10 seconds once the last one has gone. */
  lemma {:induction false} UpstreamFollowsSubscribers(events: seq<Event>)
    ensures HubInv(Run(events))
  {
    if events == [] {
    } else {
      UpstreamFollowsSubscribers(events[..|events| - 1]);
      var h, e := Run(events[..|events| - 1]), events[|events| - 1];
      match e
      case Subscription(wt, s, isWatch) =>
        BecomeKeeps(h, wt, if isWatch then h.pairs + {(wt, s)} else h.pairs - {(wt, s)});
      case Notification(wt, refusing) =>
        BecomeKeeps(h, wt, h.pairs - Dead(wt, refusing));
    }
  }

  /** A notification ends the upstream watch, with one Unwatch, exactly when every subscriber of its
      type is a queue that refuses it; otherwise it makes no upstream call. */
  lemma NotifyUnwatches(h: Hub, wt: WatchType, refusing: set<QueueId>)
    ensures var lastGone := && Watched(h.pairs, wt)
                            && forall s :: (wt, s) in h.pairs ==> s.Outer? && s.queue in refusing;
            Notify(h, wt, refusing).up == h.up + if lastGone then [Unwatch(wt)] else []
  {
    var left := h.pairs - Dead(wt, refusing);
    assert forall s :: (wt, s) in left <==> (wt, s) in h.pairs && !(s.Outer? && s.queue in refusing);
    if Watched(left, wt) { assert Watched(h.pairs, wt); }
  }

  // Refusals can be handled one queue at a time, in any order.
  lemma NotifyOneMore(h: Hub, wt: WatchType, refusing: set<QueueId>, q: QueueId)
    requires (wt, Outer(q)) in h.pairs && q !in refusing
    ensures Subscribe(Notify(h, wt, refusing), wt, Outer(q), false) == Notify(h, wt, refusing + {q})
  {
    assert (wt, Outer(q)) in h.pairs - Dead(wt, refusing);
    assert h.pairs - Dead(wt, refusing) - {(wt, Outer(q))} == h.pairs - Dead(wt, refusing + {q});
  }

  // MsgOnStart carries the watchee that GetWatcheeActorRef finds in the proxy's own name.
  datatype Incoming =
    | OnStart(watchee: Option<ActorRef>)
    | InnerWatch(wt: WatchType, isWatch: bool, from: ActorRef)
    | OuterWatch(wt: WatchType, isWatch: bool, queue: QueueId)
    | WatchMsg(actor: Option<ActorRef>, wt: WatchType, message: seq<byte>)
    | EventMsg(eventId: uint32, message: seq<byte>)

  // What the queue subscribers are handed: a notification is made anew with the proxy's own watchee as
  // its actor, an event is passed on as it is.
  function Content(m: Incoming, watchee: Option<ActorRef>): Incoming {
    if m.WatchMsg? then m.(actor := watchee) else m
  }

  datatype Delivery =
    | Enqueued(queue: QueueId, content: Incoming)
    | BatchSent(from: Option<ActorRef>, to: seq<ActorRef>, messages: seq<Incoming>)   // through LocalRouter

  function PairsOf(queuess: map<WatchType, set<QueueId>>, watcherss: map<WatchType, set<ActorRef>>): Pairs {
    (set wt, q | wt in queuess && q in queuess[wt] :: (wt, Outer(q))) +
    (set wt, a | wt in watcherss && a in watcherss[wt] :: (wt, Inner(a)))
  }

  predicate NoEmptySet<T>(m: map<WatchType, set<T>>) { forall wt :: wt in m ==> m[wt] != {} }

  predicate Holds(queuess: map<WatchType, set<QueueId>>, watcherss: map<WatchType, set<ActorRef>>,
                  p: (WatchType, Subscriber)) {
    match p.1
    case Outer(q) => Member(queuess, p.0, q)
    case Inner(a) => Member(watcherss, p.0, a)
  }

  lemma PairsHeld(queuess: map<WatchType, set<QueueId>>, watcherss: map<WatchType, set<ActorRef>>)
    ensures forall p :: p in PairsOf(queuess, watcherss) <==> Holds(queuess, watcherss, p)
  {
    forall p: (WatchType, Subscriber) ensures p in PairsOf(queuess, watcherss) <==> Holds(queuess, watcherss, p) {
      assert p == (p.0, p.1);
    }
  }

  predicate Member<T(==)>(m: map<WatchType, set<T>>, wt: WatchType, x: T) { wt in m && x in m[wt] }

  // Adds x to the inner map of wt, making the inner map first when there is none.
  function With<T(!new)>(m: map<WatchType, set<T>>, wt: WatchType, x: T): (r: map<WatchType, set<T>>)
    ensures NoEmptySet(m) ==> NoEmptySet(r)
    ensures forall t, y :: Member(r, t, y) <==> Member(m, t, y) || (t == wt && y == x)
  {
    var n := if wt in m then m else m[wt := {}];
    n[wt := n[wt] + {x}]
  }

  // Deletes x from the inner map of wt, and the inner map with its last entry.
  function Without<T(!new)>(m: map<WatchType, set<T>>, wt: WatchType, x: T): (r: map<WatchType, set<T>>)
    ensures NoEmptySet(m) ==> NoEmptySet(r)
    ensures forall t, y :: Member(r, t, y) <==> Member(m, t, y) && !(t == wt && y == x)
  {
    if !Member(m, wt, x) then m
    else
      var inner := m[wt] - {x};
      assert m[wt] == inner + {x};
      if inner == {} then m - {wt} else m[wt := inner]
  }

  lemma WatchedIsKey(queuess: map<WatchType, set<QueueId>>, watcherss: map<WatchType, set<ActorRef>>, wt: WatchType)
    requires NoEmptySet(queuess) && NoEmptySet(watcherss)
    ensures Watched(PairsOf(queuess, watcherss), wt) <==> wt in queuess || wt in watcherss
    ensures PairsOf(queuess, watcherss) == {} <==> queuess == map[] && watcherss == map[]
  {
    var pairs := PairsOf(queuess, watcherss);
    if w :| w in queuess {
      var q :| q in queuess[w];
      assert (w, Outer(q)) in pairs;
    }
    if w :| w in watcherss {
      var a :| a in watcherss[w];
      assert (w, Inner(a)) in pairs;
    }
    if wt in queuess {
      var q :| q in queuess[wt];
      assert (wt, Outer(q)) in pairs;
    } else if wt in watcherss {
      var a :| a in watcherss[wt];
      assert (wt, Inner(a)) in pairs;
    }
  }

  class WatchProxy {
    var queuess: map<WatchType, set<QueueId>>
    var watcherss: map<WatchType, set<ActorRef>>
    var watchee: Option<ActorRef>
    // The calls made on the actor context.
    ghost var up: seq<Up>
    ghost var stop: Option<nat>
    ghost var deliveries: seq<Delivery>
    // What OnMessage has been asked so far.
    ghost var history: seq<Event>

    ghost predicate Valid()
      reads this
    {
      NoEmptySet(queuess) && NoEmptySet(watcherss)
    }

    ghost function Value(): Hub
      reads this
    {
      Hub(PairsOf(queuess, watcherss), up, stop)
    }

    ghost predicate Consistent()
      reads this
    {
      Valid() && Value() == Run(history)
    }

    constructor ()
      ensures Consistent() && history == [] && deliveries == [] && watchee == None
    {
      history := [];
      queuess, watcherss, watchee := map[], map[], None;
      up, stop, deliveries := [], None, [];
    }

    predicate IsWatch(wt: WatchType)
      requires Valid()
      reads this
      ensures IsWatch(wt) <==> Watched(PairsOf(queuess, watcherss), wt)
    {
      WatchedIsKey(queuess, watcherss, wt);
      wt in queuess || wt in watcherss
    }

    // The tail both update functions share: compare the watch state before and after.
    method Upstream(wt: WatchType, oldIsWatch: bool, ghost before: Hub)
      requires Valid() && before == Value().(pairs := before.pairs) && oldIsWatch == Watched(before.pairs, wt)
      modifies this`up, this`stop
      ensures Valid() && Value() == Become(before, wt, old(Value()).pairs)
    {
      var newIsWatch := IsWatch(wt);
      WatchedIsKey(queuess, watcherss, wt);
      if !oldIsWatch && newIsWatch {
        stop := Some(0);
        up := up + [Watch(wt)];
      } else if oldIsWatch && !newIsWatch {
        if |queuess| == 0 && |watcherss| == 0 { stop := Some(10); }
        up := up + [Unwatch(wt)];
      }
    }

    method UpdateInnerWatch(wt: WatchType, isWatch: bool, watcher: ActorRef)
      requires Valid()
      modifies this`watcherss, this`up, this`stop
      ensures Valid() && Value() == Subscribe(old(Value()), wt, Inner(watcher), isWatch)
      ensures forall p :: p in Value().pairs <==> if p == (wt, Inner(watcher)) then isWatch else p in old(Value()).pairs
    {
      ghost var before := Value();
      PairsHeld(queuess, watcherss);
      var oldIsWatch := IsWatch(wt);
      watcherss := if isWatch then With(watcherss, wt, watcher) else Without(watcherss, wt, watcher);
      PairsHeld(queuess, watcherss);
      ghost var pair := {(wt, Inner(watcher))};
      assert Value().pairs == if isWatch then before.pairs + pair else before.pairs - pair;
      Upstream(wt, oldIsWatch, before);
    }

    method UpdateOuterWatch(wt: WatchType, isWatch: bool, queue: QueueId)
      requires Valid()
      modifies this`queuess, this`up, this`stop
      ensures Valid() && Value() == Subscribe(old(Value()), wt, Outer(queue), isWatch)
      ensures forall p :: p in Value().pairs <==> if p == (wt, Outer(queue)) then isWatch else p in old(Value()).pairs
      ensures queuess == if isWatch then With(old(queuess), wt, queue) else Without(old(queuess), wt, queue)
    {
      ghost var before := Value();
      PairsHeld(queuess, watcherss);
      var oldIsWatch := IsWatch(wt);
      queuess := if isWatch then With(queuess, wt, queue) else Without(queuess, wt, queue);
      PairsHeld(queuess, watcherss);
      ghost var pair := {(wt, Outer(queue))};
      assert Value().pairs == if isWatch then before.pairs + pair else before.pairs - pair;
      Upstream(wt, oldIsWatch, before);
    }

    // The queues registered for wt at this moment.
    function Live(wt: WatchType): set<QueueId>
      reads this
    {
      if wt in queuess then queuess[wt] else {}
    }

    // queue.Enqueue, and the removal of a queue that refuses.
    method Offer(wt: WatchType, queue: QueueId, content: Incoming, accepted: bool)
      requires Valid() && queue in Live(wt)
      modifies this`queuess, this`up, this`stop, this`deliveries
      ensures Valid() && (wt, Outer(queue)) in old(Value()).pairs
      ensures Value() == if accepted then old(Value()) else Subscribe(old(Value()), wt, Outer(queue), false)
      ensures Live(wt) == if accepted then old(Live(wt)) else old(Live(wt)) - {queue}
      ensures deliveries == old(deliveries) + if accepted then [Enqueued(queue, content)] else []
    {
      PairsHeld(queuess, watcherss);
      assert Holds(queuess, watcherss, (wt, Outer(queue)));
      if accepted {
        deliveries := deliveries + [Enqueued(queue, content)];
      } else {
        UpdateOuterWatch(wt, false, queue);
      }
    }

    // Ranges over the queues of wt while refusing ones are deleted from the map being ranged over.
    method ToQueues(wt: WatchType, content: Incoming, accepts: QueueId -> bool) returns (reached: seq<QueueId>)
      requires Valid()
      modifies this`queuess, this`up, this`stop, this`deliveries
      ensures Valid() && Value() == Notify(old(Value()), wt, Refusing(old(Live(wt)), accepts))
      ensures NoRepeats(reached) && forall q :: q in reached <==> q in old(Live(wt)) && accepts(q)
      ensures deliveries == old(deliveries) + Enqueues(reached, content)
    {
      ghost var before, live, log := Value(), Live(wt), deliveries;
      ghost var refused: set<QueueId> := {};
      var visited: set<QueueId> := {};
      reached := [];
      assert before.pairs - Dead(wt, {}) == before.pairs;
      while Live(wt) - visited != {}
        invariant Valid() && visited <= live && Live(wt) == live - refused
        invariant refused == Refusing(visited, accepts) && Value() == Notify(before, wt, refused)
        invariant NoRepeats(reached) && forall q :: q in reached <==> q in visited && accepts(q)
        invariant deliveries == log + Enqueues(reached, content)
        decreases live - visited
      {
        var queue :| queue in Live(wt) - visited;
        Offer(wt, queue, content, accepts(queue));
        RefusingOneMore(visited, queue, accepts);
        if accepts(queue) {
          EnqueuesOneMore(reached, queue, content);
          reached := reached + [queue];
        } else {
          NotifyOneMore(before, wt, refused, queue);
          refused := refused + {queue};
        }
        visited := visited + {queue};
      }
      assert refused == Refusing(live, accepts);
    }

    // One LocalRouter call for all actors of wt, if there are any.
    method ToActors(wt: WatchType, m: Incoming) returns (told: seq<ActorRef>)
      requires Valid()
      modifies this`deliveries
      ensures NoRepeats(told) && forall a :: a in told <==> wt in watcherss && a in watcherss[wt]
      ensures deliveries == old(deliveries) + Batches(watchee, told, m)
      ensures deliveries == old(deliveries) + if told == [] then [] else [BatchSent(watchee, told, [m])]
    {
      told := [];
      if wt in watcherss {
        var todo := watcherss[wt];
        while todo != {}
          invariant todo <= watcherss[wt]
          invariant NoRepeats(told) && forall a :: a in told <==> a in watcherss[wt] - todo
        {
          var watcher :| watcher in todo;
          assert watcher !in told;
          told, todo := told + [watcher], todo - {watcher};
        }
        assert exists a :: a in watcherss[wt];
        deliveries := deliveries + [BatchSent(watchee, told, [m])];
      }
    }

    /** MsgOnWatchMsg and MsgOnEventMsg: every queue of type wt that accepts gets the content once,
        every actor of wt gets the received message m once, nobody else gets anything, and exactly the queues
        that refuse are removed. */
    method FanOut(wt: WatchType, content: Incoming, m: Incoming, accepts: QueueId -> bool)
      returns (reached: seq<QueueId>, told: seq<ActorRef>)
      requires Valid()
      modifies this`queuess, this`up, this`stop, this`deliveries
      ensures Valid() && Value() == Notify(old(Value()), wt, Refusing(old(Live(wt)), accepts))
      ensures FansOut(old(Value()).pairs, wt, accepts, reached, told)
      ensures deliveries == old(deliveries) + Enqueues(reached, content) + Batches(watchee, told, m)
      ensures old(deliveries) <= deliveries
      ensures Delivers(deliveries[|old(deliveries)|..], old(Value()).pairs, wt, accepts, content, watchee, m)
    {
      ghost var pairs, log := Value().pairs, deliveries;
      reached, told := Reach(wt, content, m, accepts);
      DeliveredOnce(pairs, wt, accepts, content, watchee, m, reached, told);
      Associative(log, Enqueues(reached, content), Batches(watchee, told, m));
      assert deliveries[|log|..] == Enqueues(reached, content) + Batches(watchee, told, m);
    }

    method Reach(wt: WatchType, content: Incoming, m: Incoming, accepts: QueueId -> bool)
      returns (reached: seq<QueueId>, told: seq<ActorRef>)
      requires Valid()
      modifies this`queuess, this`up, this`stop, this`deliveries
      ensures Valid() && Value() == Notify(old(Value()), wt, Refusing(old(Live(wt)), accepts))
      ensures FansOut(old(Value()).pairs, wt, accepts, reached, told)
      ensures deliveries == old(deliveries) + Enqueues(reached, content) + Batches(watchee, told, m)
    {
      PairsHeld(queuess, watcherss);
      assert forall q :: q in Live(wt) <==> Holds(queuess, watcherss, (wt, Outer(q)));
      assert forall a :: Member(watcherss, wt, a) <==> Holds(queuess, watcherss, (wt, Inner(a)));
      reached := ToQueues(wt, content, accepts);
      told := ToActors(wt, m);
    }

    // The event that a message is to the hub; accepts tells which queues take it.
    ghost function EventOf(m: Incoming, accepts: QueueId -> bool): seq<Event>
      reads this
    {
      match m
      case OnStart(_) => []
      case InnerWatch(wt, isWatch, from) => [Subscription(wt, Inner(from), isWatch)]
      case OuterWatch(wt, isWatch, queue) => [Subscription(wt, Outer(queue), isWatch)]
      case WatchMsg(_, wt, _) => [Notification(wt, Refusing(Live(wt), accepts))]
      case EventMsg(id, _) => [Notification(id, Refusing(Live(id), accepts))]
    }

    /** After any sequence of messages the proxy is the hub that sequence leads to, so its upstream
        calls, its replay and its stop interval are as UpstreamFollowsSubscribers says. */
    method OnMessage(m: Incoming, accepts: QueueId -> bool) returns (reached: seq<QueueId>, told: seq<ActorRef>)
      requires Consistent()
      modifies this
      ensures Consistent() && history == old(history) + old(EventOf(m, accepts)) && HubInv(Value())
      ensures watchee == if m.OnStart? then m.watchee else old(watchee)
      ensures m.WatchMsg? ==> FansOut(old(Value()).pairs, m.wt, accepts, reached, told)
      ensures m.EventMsg? ==> FansOut(old(Value()).pairs, m.eventId, accepts, reached, told)
      ensures deliveries == old(deliveries) + DeliveriesOf(m, watchee, reached, told)
      ensures old(deliveries) <= deliveries
      ensures m.WatchMsg? ==>
                Delivers(deliveries[|old(deliveries)|..], old(Value()).pairs, m.wt, accepts,
                         WatchMsg(watchee, m.wt, m.message), watchee, m)
      ensures m.EventMsg? ==>
                Delivers(deliveries[|old(deliveries)|..], old(Value()).pairs, m.eventId, accepts, m, watchee, m)
      ensures !m.WatchMsg? && !m.EventMsg? ==> deliveries == old(deliveries)
      ensures forall p :: p in Value().pairs <==> PairAfter(p, old(Value()).pairs, m, accepts)
      ensures up == old(up) || up == old(up) + [Watch(TypeOf(m))] || up == old(up) + [Unwatch(TypeOf(m))]
    {
      ghost var before, events := history, EventOf(m, accepts);
      ghost var hub, log := Value(), deliveries;
      EventFits(m, accepts);
      reached, told := Dispatch(m, accepts);
      assert deliveries[|log|..] == DeliveriesOf(m, watchee, reached, told);
      if m.WatchMsg? || m.EventMsg? {
        DeliveredOnce(hub.pairs, TypeOf(m), accepts, Content(m, watchee), watchee, m, reached, told);
      }
      if !m.OnStart? { StepFits(hub, events[0], m, accepts); }
      history := history + events;
      if m.OnStart? {
        assert history == before;
      } else {
        assert history[..|history| - 1] == before && Value() == Step(Run(before), events[0]);
      }
      UpstreamFollowsSubscribers(history);
    }

    lemma EventFits(m: Incoming, accepts: QueueId -> bool)
      ensures if m.OnStart? then EventOf(m, accepts) == []
              else |EventOf(m, accepts)| == 1 && Fits(EventOf(m, accepts)[0], Value().pairs, m, accepts)
    {
      PairsHeld(queuess, watcherss);
      var wt := TypeOf(m);
      assert forall q :: q in Live(wt) <==> Holds(queuess, watcherss, (wt, Outer(q)));
    }

    method Dispatch(m: Incoming, accepts: QueueId -> bool) returns (reached: seq<QueueId>, told: seq<ActorRef>)
      requires Valid()
      modifies this`queuess, this`watcherss, this`watchee, this`up, this`stop, this`deliveries
      ensures Valid() && Value() == if m.OnStart? then old(Value()) else Step(old(Value()), old(EventOf(m, accepts))[0])
      ensures watchee == if m.OnStart? then m.watchee else old(watchee)
      ensures m.WatchMsg? ==> FansOut(old(Value()).pairs, m.wt, accepts, reached, told)
      ensures m.EventMsg? ==> FansOut(old(Value()).pairs, m.eventId, accepts, reached, told)
      ensures deliveries == old(deliveries) + DeliveriesOf(m, watchee, reached, told)
    {
      reached, told := [], [];
      match m
      case OnStart(resolved) => watchee := resolved;
      case InnerWatch(wt, isWatch, from) => UpdateInnerWatch(wt, isWatch, from);
      case OuterWatch(wt, isWatch, queue) => UpdateOuterWatch(wt, isWatch, queue);
      case WatchMsg(_, wt, message) =>
        reached, told := FanOut(wt, WatchMsg(watchee, wt, message), m, accepts);
        Associative(old(deliveries), Enqueues(reached, Content(m, watchee)), Batches(watchee, told, m));
      case EventMsg(id, _) =>
        reached, told := FanOut(id, m, m, accepts);
        Associative(old(deliveries), Enqueues(reached, Content(m, watchee)), Batches(watchee, told, m));
    }
  }

  /** Every queue of type wt that accepts is reached once, every actor of wt is told once, nobody else. */
  ghost predicate FansOut(pairs: Pairs, wt: WatchType, accepts: QueueId -> bool,
                          reached: seq<QueueId>, told: seq<ActorRef>) {
    && NoRepeats(reached) && (forall q :: q in reached <==> (wt, Outer(q)) in pairs && accepts(q))
    && NoRepeats(told) && (forall a :: a in told <==> (wt, Inner(a)) in pairs)
  }

  // The type that a message is about; MsgOnStart is about none.
  function TypeOf(m: Incoming): WatchType {
    if m.OnStart? then 0 else if m.EventMsg? then m.eventId else m.wt
  }

  // Whether p subscribes after m: one pair more or less, or the queues that refuse m gone.
  predicate PairAfter(p: (WatchType, Subscriber), pairs: Pairs, m: Incoming, accepts: QueueId -> bool) {
    match m
    case OnStart(_) => p in pairs
    case InnerWatch(wt, isWatch, from) => if p == (wt, Inner(from)) then isWatch else p in pairs
    case OuterWatch(wt, isWatch, queue) => if p == (wt, Outer(queue)) then isWatch else p in pairs
    case WatchMsg(_, wt, _) => p in pairs && !(p.0 == wt && p.1.Outer? && !accepts(p.1.queue))
    case EventMsg(id, _) => p in pairs && !(p.0 == id && p.1.Outer? && !accepts(p.1.queue))
  }

  /** What a notification or event of type wt adds to the log: for every queue of the type that accepts,
      exactly one entry with the content; if the type has actors, one batch from the watchee with the
      received message m in which each of them stands exactly once; and nothing else. */
  ghost predicate Delivers(log: seq<Delivery>, pairs: Pairs, wt: WatchType, accepts: QueueId -> bool,
                           content: Incoming, watchee: Option<ActorRef>, m: Incoming) {
    && (forall q :: multiset(log)[Enqueued(q, content)] == if (wt, Outer(q)) in pairs && accepts(q) then 1 else 0)
    && (forall d :: d in log && d.Enqueued? ==> d.content == content)
    && (forall d :: d in log && d.BatchSent? ==>
          && d.from == watchee && d.messages == [m] && d.to != []
          && forall a :: multiset(d.to)[a] == if (wt, Inner(a)) in pairs then 1 else 0)
    && (forall i, j :: 0 <= i < j < |log| ==> !log[i].BatchSent? || !log[j].BatchSent?)
    && ((exists d :: d in log && d.BatchSent?) <==> exists a :: (wt, Inner(a)) in pairs)
  }

  lemma {:induction false} OnceEach<T>(s: seq<T>, x: T)
    requires NoRepeats(s)
    ensures multiset(s)[x] == if x in s then 1 else 0
  {
    if s == [] {
    } else {
      OnceEach(s[..|s| - 1], x);
      assert s == s[..|s| - 1] + [s[|s| - 1]];
    }
  }

  lemma EnqueuedOnce(reached: seq<QueueId>, content: Incoming, q: QueueId)
    requires NoRepeats(reached)
    ensures multiset(Enqueues(reached, content))[Enqueued(q, content)] == if q in reached then 1 else 0
  {
    OnceEach(Enqueues(reached, content), Enqueued(q, content));
    if i :| 0 <= i < |reached| && reached[i] == q { assert Enqueues(reached, content)[i] == Enqueued(q, content); }
  }

  lemma DeliveredOnce(pairs: Pairs, wt: WatchType, accepts: QueueId -> bool, content: Incoming,
                      watchee: Option<ActorRef>, m: Incoming, reached: seq<QueueId>, told: seq<ActorRef>)
    requires FansOut(pairs, wt, accepts, reached, told)
    ensures Delivers(Enqueues(reached, content) + Batches(watchee, told, m), pairs, wt, accepts, content, watchee, m)
  {
    var log := Enqueues(reached, content) + Batches(watchee, told, m);
    forall q ensures multiset(log)[Enqueued(q, content)] == if q in reached then 1 else 0 {
      EnqueuedOnce(reached, content, q);
    }
    forall a ensures multiset(told)[a] == if a in told then 1 else 0 { OnceEach(told, a); }
    if told != [] {
      assert log[|reached|] == BatchSent(watchee, told, [m]);
      assert told[0] in told;
    }
  }

  // The event that m is to a proxy with these pairs.
  ghost predicate Fits(e: Event, pairs: Pairs, m: Incoming, accepts: QueueId -> bool) {
    match m
    case OnStart(_) => false
    case InnerWatch(wt, isWatch, from) => e == Subscription(wt, Inner(from), isWatch)
    case OuterWatch(wt, isWatch, queue) => e == Subscription(wt, Outer(queue), isWatch)
    case _ =>
      && e.Notification? && e.wt == TypeOf(m)
      && forall q :: q in e.refusing <==> (e.wt, Outer(q)) in pairs && !accepts(q)
  }

  lemma StepFits(h: Hub, e: Event, m: Incoming, accepts: QueueId -> bool)
    requires Fits(e, h.pairs, m, accepts)
    ensures forall p :: p in Step(h, e).pairs <==> PairAfter(p, h.pairs, m, accepts)
    ensures var up := Step(h, e).up;
            up == h.up || up == h.up + [Watch(TypeOf(m))] || up == h.up + [Unwatch(TypeOf(m))]
  {
    if e.Notification? {
      forall p: (WatchType, Subscriber) ensures p in Dead(e.wt, e.refusing) <==>
                                                p.0 == e.wt && p.1.Outer? && p.1.queue in e.refusing {
        assert p == (p.0, p.1);
      }
    }
  }

  function DeliveriesOf(m: Incoming, watchee: Option<ActorRef>,
                        reached: seq<QueueId>, told: seq<ActorRef>): seq<Delivery> {
    if m.WatchMsg? || m.EventMsg? then Enqueues(reached, Content(m, watchee)) + Batches(watchee, told, m) else []
  }

  // The actor subscribers get the received message itself.
  function Batches(from: Option<ActorRef>, told: seq<ActorRef>, m: Incoming): seq<Delivery> {
    if told == [] then [] else [BatchSent(from, told, [m])]
  }

  function Refusing(queues: set<QueueId>, accepts: QueueId -> bool): set<QueueId> {
    set q | q in queues && !accepts(q)
  }

  predicate NoRepeats<T(==)>(s: seq<T>) { forall i, j :: 0 <= i < j < |s| ==> s[i] != s[j] }

  lemma EnqueuesOneMore(queues: seq<QueueId>, queue: QueueId, content: Incoming)
    ensures Enqueues(queues + [queue], content) == Enqueues(queues, content) + [Enqueued(queue, content)]
  {}

  lemma RefusingOneMore(queues: set<QueueId>, queue: QueueId, accepts: QueueId -> bool)
    ensures Refusing(queues + {queue}, accepts) == Refusing(queues, accepts) + if accepts(queue) then {} else {queue}
  {}

  function Enqueues(queues: seq<QueueId>, content: Incoming): seq<Delivery> {
    seq(|queues|, i requires 0 <= i < |queues| => Enqueued(queues[i], content))
  }
}
