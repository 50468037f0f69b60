/** From the calls to the deliveries: what onMessage is given is what SendMessage was called with
    (engine/net/client/client.go, engine/net/connect/socket/conn.go). A run carries the action of each
    step, and the log of a run is read off those actions alone and the moments at which goroutines run
    their locked sections; the queue, the packets and the wire do not occur in it. */
module LinkCalls {
  import opened Basics
  import opened Queues
  import Q = QueueMachine
  import opened Packets
  import opened Links
  import opened LinkProgress

  ghost predicate Labelled(tr: seq<Link>, acts: seq<Action>) {
    && |tr| == |acts| + 1 && Init(tr[0])
    && forall i: nat :: i < |acts| ==> Does(tr, acts, i)
  }

  ghost predicate Does(tr: seq<Link>, acts: seq<Action>, i: nat)
    requires i < |acts| && |tr| == |acts| + 1
  {
    |tr[i].queue.pcs| > SENDER && Act(tr[i], acts[i], tr[i + 1])
  }

  // A goroutine's call: SendMessage or Disconnect; whether it has run its locked section, and whether
  // the queue was open when it did.
  datatype Call = NoCall | Call(action: Action, ran: bool, accepted: bool)

  predicate RunsSection(s: Link, a: Action) {
    a.QueueStep? && SENDER < a.t < |s.queue.pcs| && s.queue.pcs[a.t].Locked?
  }

  predicate Leaves(s: Link, a: Action) {
    a.QueueStep? && SENDER < a.t < |s.queue.pcs| && s.queue.pcs[a.t].Returned?
  }

  // What an action makes of t's call. A message id above one byte is refused at once.
  function NextCall(s: Link, a: Action, t: nat, c: Call): Call {
    if a.SendMessage? && a.t == t && a.msgId <= 0xFF then Call(a, false, false)
    else if a == Disconnect(t) then Call(a, false, false)
    else if RunsSection(s, a) && a.t == t && c.Call? then Call(c.action, true, !s.queue.shared.closed)
    else if Leaves(s, a) && a.t == t then NoCall
    else c
  }

  function CallAt(tr: seq<Link>, acts: seq<Action>, n: nat, t: nat): Call
    requires n <= |acts| < |tr|
  {
    if n == 0 then NoCall else NextCall(tr[n - 1], acts[n - 1], t, CallAt(tr, acts, n - 1, t))
  }

  // The messages sent so far, and whether somebody has disconnected.
  datatype Log = Log(messages: seq<Message>, closed: bool)

  function NextLog(s: Link, a: Action, c: Call, log: Log): Log {
    if !RunsSection(s, a) || c.NoCall? then log
    else
      match c.action
      case SendMessage(_, msgId, data) =>
        if log.closed || msgId > 0xFF then log else log.(messages := log.messages + [Message(msgId, data)])
      case Disconnect(_) => log.(closed := true)
      case _ => log
  }

  function LogAt(tr: seq<Link>, acts: seq<Action>, n: nat): Log
    requires n <= |acts| < |tr|
  {
    if n == 0 then Log([], false)
    else
      var a := acts[n - 1];
      NextLog(tr[n - 1], a, if a.QueueStep? then CallAt(tr, acts, n - 1, a.t) else NoCall, LogAt(tr, acts, n - 1))
  }

  // Where a caller's goroutine is in the queue, given its call.
  predicate Matches(pc: Q.PC<Packet>, t: nat, c: Call) {
    match c
    case NoCall => pc.Idle?
    case Call(SendMessage(u, msgId, data), ran, accepted) =>
      && u == t && msgId <= 0xFF && !pc.Idle? && !pc.Unlocking? && !pc.Enlisted? && !pc.Parked? && !pc.Woken?
      && pc.call == Send(Wire(Message(msgId, data)))
      && (ran <==> !pc.Want? && !pc.Locked?)
      && (pc.Signalling? || pc.Broadcasting? ==> accepted)
      && (pc.Returned? ==> (pc.ok <==> accepted))
    case Call(Disconnect(u), _, _) =>
      u == t && (pc.Unlocking? || ((pc.Want? || pc.Locked? || pc.Broadcasting? || pc.Returned?) && pc.call == Close))
    case _ => false
  }

  lemma CallStep(s: Link, a: Action, s': Link, t: nat, c: Call)
    requires Inv(s) && Act(s, a, s') && SENDER < t < |s.queue.pcs| && Matches(s.queue.pcs[t], t, c)
    ensures |s'.queue.pcs| == |s.queue.pcs| && Matches(s'.queue.pcs[t], t, NextCall(s, a, t, c))
  {
    if a.QueueStep? && a.t != t {
      OthersKeepCall(s.queue, a.t, s'.queue, t);
    } else if a.QueueStep? {
      OwnStep(s, t, s', c);
    }
  }

  // Callers are never on the wait list.
  lemma OthersKeepCall(q: Q.State<Packet>, u: nat, q': Q.State<Packet>, t: nat)
    requires Roles(q) && u < |q.pcs| && Q.Internal(q, u, q') && SENDER < t < |q.pcs| && u != t
    ensures |q'.pcs| == |q.pcs| && q'.pcs[t] == q.pcs[t]
  {
    if q.pcs[u].Signalling? && !Q.NobodyListed(q) {
      var w: nat :| Q.Wakes(q, u, w, q');
    }
  }

  lemma OwnStep(s: Link, t: nat, s': Link, c: Call)
    requires Inv(s) && Act(s, QueueStep(t), s') && SENDER < t < |s.queue.pcs| && Matches(s.queue.pcs[t], t, c)
    ensures |s'.queue.pcs| == |s.queue.pcs| && Matches(s'.queue.pcs[t], t, NextCall(s, QueueStep(t), t, c))
  {
    OwnStepGoes(s.queue, t, s'.queue);
  }

  // Where a caller's own step takes it.
  lemma OwnStepGoes(q: Q.State<Packet>, t: nat, q': Q.State<Packet>)
    requires Roles(q) && SENDER < t < |q.pcs| && Q.Internal(q, t, q')
    ensures |q'.pcs| == |q.pcs|
    ensures var pc, pc' := q.pcs[t], q'.pcs[t];
            match pc
            case Want(call) => pc' == Q.Locked(call, false)
            case Locked(call, _) =>
              if q.shared.closed then pc' == Q.Returned(call, [], call.Close?)
              else pc' == if call.Send? then Q.Signalling(call) else Q.Broadcasting(call)
            case Signalling(call) => pc' == Q.Returned(call, [], true)
            case Broadcasting(call) => pc' == if call.Close? then Q.Unlocking else Q.Returned(call, [], true)
            case Unlocking => pc' == Q.Returned(Close, [], true)
            case Returned(_, _, _) => pc' == Q.Idle
            case _ => false
  {
    if q.pcs[t].Signalling? && !Q.NobodyListed(q) {
      var w: nat :| Q.Wakes(q, t, w, q');
    }
  }

  lemma LogStep(s: Link, a: Action, s': Link, c: Call, log: Log)
    requires Inv(s) && Act(s, a, s') && log == Log(Accepted(s), s.queue.shared.closed)
    requires a.QueueStep? && SENDER < a.t < |s.queue.pcs| ==> Matches(s.queue.pcs[a.t], a.t, c)
    ensures NextLog(s, a, c, log) == Log(Accepted(s'), s'.queue.shared.closed)
  {
    if RunsSection(s, a) {
      SectionLogs(s, a.t, s', c);
    } else {
      NothingAccepted(s, a, s');
    }
  }

  lemma SectionLogs(s: Link, t: nat, s': Link, c: Call)
    requires Inv(s) && Act(s, QueueStep(t), s') && RunsSection(s, QueueStep(t))
    requires Matches(s.queue.pcs[t], t, c)
    ensures NextLog(s, QueueStep(t), c, Log(Accepted(s), s.queue.shared.closed))
         == Log(Accepted(s'), s'.queue.shared.closed)
  {
    var q := s.queue;
    if q.pcs[t].call.Send? && !q.shared.closed {
      var m := Message(c.action.msgId, c.action.data);
      PackedIsPacket(m.msgId, m.data);
      assert s'.queue.accepted == q.accepted + [Wire(m)];
      assert Messages(s'.queue.accepted) == Messages(q.accepted) + [Unpack(Wire(m))];
    }
  }

  lemma NothingAccepted(s: Link, a: Action, s': Link)
    requires Inv(s) && Act(s, a, s') && !RunsSection(s, a)
    ensures s'.queue.accepted == s.queue.accepted && s'.queue.shared.closed == s.queue.shared.closed
  {
    if a.QueueStep? && s.queue.pcs[a.t].Signalling? && !Q.NobodyListed(s.queue) {
      var w: nat :| Q.Wakes(s.queue, a.t, w, s'.queue);
    }
  }

  ghost predicate Logged(tr: seq<Link>, acts: seq<Action>, n: nat)
    requires n <= |acts| < |tr|
  {
    && Inv(tr[n]) && LogAt(tr, acts, n) == Log(Accepted(tr[n]), tr[n].queue.shared.closed)
    && forall t :: SENDER < t < |tr[n].queue.pcs| ==> Matches(tr[n].queue.pcs[t], t, CallAt(tr, acts, n, t))
  }

  lemma AlwaysLogged(tr: seq<Link>, acts: seq<Action>, n: nat)
    requires Labelled(tr, acts) && n <= |acts|
    ensures Logged(tr, acts, n)
  {
    StartsLogged(tr, acts);
    forall m: nat | m < |acts| ensures StepLogs(tr, acts, m) {
      assert Does(tr, acts, m);
      if Logged(tr, acts, m) { LoggedStep(tr, acts, m); }
    }
    StaysLogged(tr, acts, n);
  }

  ghost predicate StepLogs(tr: seq<Link>, acts: seq<Action>, m: nat)
    requires m < |acts| < |tr|
  {
    Logged(tr, acts, m) ==> Logged(tr, acts, m + 1)
  }

  lemma {:induction false} StaysLogged(tr: seq<Link>, acts: seq<Action>, n: nat)
    requires n <= |acts| < |tr| && Logged(tr, acts, 0)
    requires forall m: nat :: m < |acts| ==> StepLogs(tr, acts, m)
    ensures Logged(tr, acts, n)
  {
    if n == 0 {
    } else {
      StaysLogged(tr, acts, n - 1);
      assert StepLogs(tr, acts, n - 1);
    }
  }

  lemma StartsLogged(tr: seq<Link>, acts: seq<Action>)
    requires |tr| == |acts| + 1 && Init(tr[0])
    ensures Logged(tr, acts, 0)
  {}

  lemma LoggedStep(tr: seq<Link>, acts: seq<Action>, n: nat)
    requires |tr| == |acts| + 1 && n < |acts| && Does(tr, acts, n) && Logged(tr, acts, n)
    ensures Logged(tr, acts, n + 1)
  {
    var s, a, s' := tr[n], acts[n], tr[n + 1];
    ActKeeps(s, a, s');
    LogStep(s, a, s', if a.QueueStep? then CallAt(tr, acts, n, a.t) else NoCall, LogAt(tr, acts, n));
    forall t | SENDER < t < |s'.queue.pcs| ensures Matches(s'.queue.pcs[t], t, CallAt(tr, acts, n + 1, t)) {
      SameCallers(s, a, s');
      CallStep(s, a, s', t, CallAt(tr, acts, n, t));
    }
  }

  lemma SameCallers(s: Link, a: Action, s': Link)
    requires Inv(s) && Act(s, a, s')
    ensures |s'.queue.pcs| == |s.queue.pcs|
  {}

  /** The queue is linearizable to the log: in every run it has accepted exactly the arguments of the
      SendMessage calls whose locked section ran before that of any Disconnect, in the order of those
      sections, and is closed exactly when a Disconnect has run its section; a goroutine is in the queue
      exactly while its call is under way, and a SendMessage answers that it succeeded exactly when its
      message is in the log. */
  lemma CallsAreLogged(tr: seq<Link>, acts: seq<Action>)
    requires Labelled(tr, acts)
    ensures var n, s := |acts|, tr[|acts|];
            && LogAt(tr, acts, n) == Log(Accepted(s), s.queue.shared.closed)
            && (forall t :: SENDER < t < |s.queue.pcs| ==> (s.queue.pcs[t].Idle? <==> CallAt(tr, acts, n, t).NoCall?))
            && (forall t :: SENDER < t < |s.queue.pcs| && s.queue.pcs[t].Returned? ==>
                  var c := CallAt(tr, acts, n, t);
                  c.Call? && (c.action.SendMessage? ==> c.ran && (s.queue.pcs[t].ok <==> c.accepted)))
  {
    AlwaysLogged(tr, acts, |acts|);
    forall t | SENDER < t < |tr[|acts|].queue.pcs|
      ensures Matches(tr[|acts|].queue.pcs[t], t, CallAt(tr, acts, |acts|, t)) {}
  }

  /** In every run, whose logged payloads respect the splitter's bound, onMessage has been given a prefix
      of the logged messages, cut without any wrap-around; all of them once everything is drained; and a
      link at rest is drained, whether or not it has been closed. */
  lemma PrefixDelivery(tr: seq<Link>, acts: seq<Action>)
    requires Labelled(tr, acts) && Within(LogAt(tr, acts, |acts|).messages, MAX_PAYLOAD)
    ensures var s, sent := tr[|acts|], LogAt(tr, acts, |acts|).messages;
            && CutsExactly(sent, Flatten(s.chunks), Feed(s.chunks))
            && Delivered(s) <= sent
            && (AllDrained(s) ==> Delivered(s) == sent && Feed(s.chunks).rest == [])
            && (AtRest(s) ==> AllDrained(s))
  {
    AlwaysLogged(tr, acts, |acts|);
    InvDelivers(tr[|acts|]);
  }

  // From action k to action n the link is left alone.
  ghost predicate LeftAlone(acts: seq<Action>, k: nat, n: nat)
    requires n <= |acts|
  {
    forall i :: k <= i < n ==> Calm(acts[i])
  }

  lemma LeftAloneShrinks(tr: seq<Link>, acts: seq<Action>, k: nat, n: nat)
    requires Labelled(tr, acts) && k <= n <= |acts| && LeftAlone(acts, k, n)
    ensures Inv(tr[k]) && Inv(tr[n]) && n - k + Work(tr[n]) <= Work(tr[k])
    ensures tr[n].receiving == tr[k].receiving && tr[n].writeFailed == tr[k].writeFailed
  {
    forall m | k <= m < n ensures StepShrinks(tr, m) {
      AlwaysLogged(tr, acts, m);
      assert Does(tr, acts, m);
      CalmActShrinks(tr[m], acts[m], tr[m + 1]);
    }
    AlwaysLogged(tr, acts, k);
    StepsShrink(tr, k, n);
    AlwaysLogged(tr, acts, n);
  }

  ghost predicate StepShrinks(tr: seq<Link>, m: nat)
    requires m + 1 < |tr|
  {
    && |tr[m].queue.pcs| > SENDER && |tr[m + 1].queue.pcs| > SENDER && Work(tr[m + 1]) < Work(tr[m])
    && tr[m + 1].receiving == tr[m].receiving && tr[m + 1].writeFailed == tr[m].writeFailed
  }

  lemma {:induction false} StepsShrink(tr: seq<Link>, k: nat, n: nat)
    requires k <= n < |tr| && |tr[k].queue.pcs| > SENDER && forall m :: k <= m < n ==> StepShrinks(tr, m)
    ensures |tr[n].queue.pcs| > SENDER && n - k + Work(tr[n]) <= Work(tr[k])
    ensures tr[n].receiving == tr[k].receiving && tr[n].writeFailed == tr[k].writeFailed
    decreases n
  {
    if k < n {
      StepsShrink(tr, k, n - 1);
      assert StepShrinks(tr, n - 1);
    }
  }

  /** A link that is left alone from some moment on stops within Work steps, whatever the schedule; and
      when it has stopped, and neither reading nor writing has failed, it is at rest, no call is under
      way, and every logged message has been given to onMessage, in order, with nothing left over. */
  lemma EverythingArrives(tr: seq<Link>, acts: seq<Action>, k: nat)
    requires Labelled(tr, acts) && k <= |acts| && LeftAlone(acts, k, |acts|)
    ensures Inv(tr[k]) && Inv(tr[|acts|])
    ensures |acts| - k + Work(tr[|acts|]) <= Work(tr[k])
    ensures var s, sent := tr[|acts|], LogAt(tr, acts, |acts|).messages;
            tr[k].receiving && !tr[k].writeFailed && Finished(s) ==>
              && AtRest(s) && AllDrained(s)
              && (forall t :: SENDER < t < |s.queue.pcs| ==> CallAt(tr, acts, |acts|, t).NoCall?)
              && (Within(sent, MAX_PAYLOAD) ==> Delivered(s) == sent && Feed(s.chunks).rest == [])
  {
    var s := tr[|acts|];
    LeftAloneShrinks(tr, acts, k, |acts|);
    if s.receiving && !s.writeFailed && Finished(s) {
      FinishedIsDrained(s);
      NobodyCalls(tr, acts);
      if Within(LogAt(tr, acts, |acts|).messages, MAX_PAYLOAD) { PrefixDelivery(tr, acts); }
    }
  }

  lemma NobodyCalls(tr: seq<Link>, acts: seq<Action>)
    requires Labelled(tr, acts) && Q.Quiet(tr[|acts|].queue)
    ensures forall t :: SENDER < t < |tr[|acts|].queue.pcs| ==> CallAt(tr, acts, |acts|, t).NoCall?
  {
    var s := tr[|acts|];
    AlwaysLogged(tr, acts, |acts|);
    forall t | SENDER < t < |s.queue.pcs| ensures CallAt(tr, acts, |acts|, t).NoCall? {
      assert Matches(s.queue.pcs[t], t, CallAt(tr, acts, |acts|, t));
      assert CallerPC(s.queue.pcs[t]);
    }
  }

  // What the failures and the end of a goroutine leave behind.
  ghost predicate StepStops(tr: seq<Link>, acts: seq<Action>, m: nat)
    requires m < |acts| && |tr| == |acts| + 1
  {
    var s, s' := tr[m], tr[m + 1];
    && (acts[m].ReadFails? ==> !s'.receiving)
    && (acts[m].WriteFails? || acts[m].End? ==> s'.ended)
    && (!s.receiving ==> !s'.receiving && s'.chunks == s.chunks)
    && (s.ended ==> s'.ended && Flatten(s'.chunks) + s'.wire == Flatten(s.chunks) + s.wire)
  }

  lemma ActStops(tr: seq<Link>, acts: seq<Action>, m: nat)
    requires Labelled(tr, acts) && m < |acts|
    ensures StepStops(tr, acts, m)
  {
    assert Does(tr, acts, m);
    if acts[m].Read? { ReadMovesBytes(tr[m].chunks, tr[m].wire, acts[m].n); }
  }

  /** After a failed Read nothing more is given to onMessage, and after a failed Write, or a Dequeue that
      returned false, nothing more is written: what has been read and what is on the wire stay the same
      bytes. */
  lemma FailuresAreFinal(tr: seq<Link>, acts: seq<Action>, i: nat, j: nat)
    requires Labelled(tr, acts) && i < j <= |acts|
    ensures acts[i].ReadFails? ==> tr[j].chunks == tr[i + 1].chunks
    ensures acts[i].WriteFails? || acts[i].End? ==>
              Flatten(tr[j].chunks) + tr[j].wire == Flatten(tr[i + 1].chunks) + tr[i + 1].wire
  {
    forall m: nat | m < |acts| ensures StepStops(tr, acts, m) { ActStops(tr, acts, m); }
    assert StepStops(tr, acts, i);
    StoppedStays(tr, acts, i + 1, j);
  }

  lemma {:induction false} StoppedStays(tr: seq<Link>, acts: seq<Action>, i: nat, j: nat)
    requires |tr| == |acts| + 1 && i <= j <= |acts|
    requires forall m: nat :: m < |acts| ==> StepStops(tr, acts, m)
    ensures !tr[i].receiving ==> !tr[j].receiving && tr[j].chunks == tr[i].chunks
    ensures tr[i].ended ==>
              tr[j].ended && Flatten(tr[j].chunks) + tr[j].wire == Flatten(tr[i].chunks) + tr[i].wire
    decreases j
  {
    if i < j {
      StoppedStays(tr, acts, i, j - 1);
      assert StepStops(tr, acts, j - 1);
    }
  }
}
