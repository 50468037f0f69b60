/** What becomes of a registered session when its connection ends (cluster_server.go, conn.go). */
module ClusterSessions {
  import opened Basics
  import opened Cluster

  // k is the session of the system at p, as far as k's own handler knows.
  predicate Owner(x: Session, p: nat) {
    x.bind == Some(p) || x.pc == Inside(p, RegBind) || x.pc == Inside(p, DiscClear)
  }

  predicate Registering(pc: ServerPC) {
    (pc.Waiting? && pc.registering) || (pc.Inside? && pc.stage in {RegCheck, RegBind})
  }

  // How far a connection that registers at most once has come.
  predicate Progress(x: Session) {
    && (!x.asked ==> x.bind == None && !Registering(x.pc))
    && (Registering(x.pc) ==> x.bind == None && !x.notified)
    && (x.pc.Reading? || x.pc.Rejecting? ==> !x.notified)
    && (x.pc.Inside? && x.pc.stage in {RegCount, RegReply} ==> x.bind == Some(x.pc.p) && !x.notified)
    && (x.pc.DiscLook? ==> x.notified)
    && (x.pc.Waiting? && !x.pc.registering ==> x.bind == Some(x.pc.p) && x.notified)
    && (x.pc.Inside? && x.pc.stage in {DiscCheck, DiscUnbind} ==> x.bind == Some(x.pc.p) && x.notified)
    && (x.pc.Inside? && x.pc.stage in {DiscClear, DiscCount, DiscUnlock} ==> x.bind == None && x.notified)
    && (x.pc.Gone? && x.notified ==> x.bind == None)
  }

  ghost predicate Owners(s: Node) {
    && (forall k :: 0 <= k < |s.sessions| ==> Progress(s.sessions[k]))
    && (forall p, k :: 0 <= p < |s.peers| && 0 <= k < |s.sessions| ==>
          (s.peers[p].session == Some(k) <==> Owner(s.sessions[k], p)))
    && (forall p :: 0 <= p < |s.peers| && s.peers[p].session.Some? ==> s.peers[p].session.value < |s.sessions|)
  }

  // A connection's goroutine reads a register request for a system that may connect.
  predicate ReadsRequest(s: Node, a: Action, s': Node) {
    && a.Handle? && a.k < |s.sessions| && |s'.sessions| == |s.sessions|
    && s.sessions[a.k].pc.Reading? && s'.sessions[a.k].pc.Waiting?
  }

  ghost predicate SingleStep(s: Node, s': Node) {
    exists a :: Act(s, a, s') && (ReadsRequest(s, a, s') ==> !s.sessions[a.k].asked)
  }

  // A run in which each connection sends at most one register request.
  ghost predicate SingleRun(tr: seq<Node>) {
    tr != [] && Init(tr[0]) && forall i :: 0 <= i < |tr| - 1 ==> SingleStep(tr[i], tr[i + 1])
  }

  lemma OwnersUpdate(s: Node, k: nat, x: Session, p: nat, y: Peer, count: int)
    requires Owners(s) && k < |s.sessions| && p < |s.peers| && Progress(x)
    requires y.session == s.peers[p].session || (s.peers[p].session == None && y.session == Some(k))
             || (s.peers[p].session == Some(k) && y.session == None)
    requires y.session == Some(k) <==> Owner(x, p)
    requires forall q :: q != p ==> (Owner(x, q) <==> Owner(s.sessions[k], q))
    ensures Owners(Update(s, k, x, p, y, count))
  {}

  lemma InsideProgress(k: nat, x: Session, y: Peer, ok: bool)
    requires x.pc.Inside? && Progress(x) && SectionOk(x.pc.stage, y.session, k)
    requires y.session == Some(k) <==> Owner(x, x.pc.p)
    ensures var e := InsideStep(k, x, x.pc.p, y, x.pc.stage, ok);
            && Progress(e.session)
            && (e.peer.session == y.session || (y.session == None && e.peer.session == Some(k))
                || (y.session == Some(k) && e.peer.session == None))
            && (e.peer.session == Some(k) <==> Owner(e.session, x.pc.p))
            && (forall q :: q != x.pc.p ==> (Owner(e.session, q) <==> Owner(x, q)))
  {}

  lemma OutsideProgress(s: Node, x: Session, x': Session)
    requires Progress(x) && OutsideStep(s, x, x')
    requires x.pc.Reading? && x'.pc.Waiting? ==> !x.asked
    ensures Progress(x') && forall q :: Owner(x', q) <==> Owner(x, q)
  {}

  lemma HandleKeepsOwners(s: Node, k: nat, s': Node)
    requires Locks(s) && Owners(s) && k < |s.sessions| && Handles(s, k, s')
    requires ReadsRequest(s, Handle(k), s') ==> !s.sessions[k].asked
    ensures Owners(s')
  {
    var x := s.sessions[k];
    assert HandlerOk(s, k);
    if x.pc.Inside? {
      var p := x.pc.p;
      assert PeerOk(s, p);
      var ok :| Acts(s, k, p, InsideStep(k, x, p, s.peers[p], x.pc.stage, ok), s');
      InsideProgress(k, x, s.peers[p], ok);
      var e := InsideStep(k, x, p, s.peers[p], x.pc.stage, ok);
      OwnersUpdate(s, k, e.session, p, e.peer, s.count + e.delta);
    } else if x.pc.Waiting? {
      OwnersUpdate(s, k, s'.sessions[k], x.pc.p, s'.peers[x.pc.p], s.count);
    } else {
      OutsideKeepsOwners(s, k, s');
    }
  }

  lemma OutsideKeepsOwners(s: Node, k: nat, s': Node)
    requires Owners(s) && k < |s.sessions| && Handles(s, k, s')
    requires !s.sessions[k].pc.Waiting? && !s.sessions[k].pc.Inside?
    requires ReadsRequest(s, Handle(k), s') ==> !s.sessions[k].asked
    ensures Owners(s')
  {
    var x' :| OutsideStep(s, s.sessions[k], x') && s' == Set(s, k, x');
    OutsideProgress(s, s.sessions[k], x');
  }

  lemma {:induction false} OwnersHold(tr: seq<Node>, i: nat)
    requires SingleRun(tr) && i < |tr|
    ensures Inv(tr[i]) && Owners(tr[i])
  {
    if i == 0 {
      InvStarts(tr[0]);
    } else {
      OwnersHold(tr, i - 1);
      assert SingleStep(tr[i - 1], tr[i]);
      StepKeepsOwners(tr[i - 1], tr[i]);
    }
  }

  lemma StepKeepsOwners(s: Node, s': Node)
    requires Inv(s) && Owners(s) && SingleStep(s, s')
    ensures Inv(s') && Owners(s')
  {
    var a :| Act(s, a, s') && (ReadsRequest(s, a, s') ==> !s.sessions[a.k].asked);
    ActKeeps(s, a, s');
    if a.Handle? { HandleKeepsOwners(s, a.k, s'); }
  }

  // Connection k breaks between i and i + 1: Read failed, or onData returned an error (conn.go).
  predicate BreaksAt(tr: seq<Node>, i: nat, k: nat) {
    && i + 1 < |tr| && k < |tr[i].sessions| && k < |tr[i + 1].sessions|
    && tr[i].sessions[k].pc.Reading?
    && (tr[i + 1].sessions[k].pc.DiscLook? || tr[i + 1].sessions[k].pc.Gone?)
  }

  ghost predicate Registered(s: Node, k: nat) {
    exists p :: 0 <= p < |s.peers| && s.peers[p].session == Some(k)
  }

  // On the way from the break to the end.
  predicate Ending(pc: ServerPC) {
    pc.Gone? || pc.DiscLook? || (pc.Waiting? && !pc.registering)
    || (pc.Inside? && pc.stage in {DiscCheck, DiscUnbind, DiscClear, DiscCount, DiscUnlock})
  }

  /** With one register request per connection, an ended connection is still the registered session of
      some system exactly when it was registered when it broke and its queue was already closed by then,
      which is the test that keeps conn.go from calling OnDisconnect. */
  lemma EndedSessions(tr: seq<Node>, i: nat, k: nat, j: nat)
    requires SingleRun(tr) && BreaksAt(tr, i, k)
    requires i < j < |tr| && k < |tr[j].sessions| && tr[j].sessions[k].pc.Gone?
    ensures Registered(tr[j], k) <==> tr[i].sessions[k].closed && Registered(tr[i], k)
  {
    RegisteredMeansBound(tr, i, k);
    RegisteredMeansBound(tr, j, k);
    OwnersHold(tr, j);
    forall m: nat | m < |tr| - 1 ensures Follows(tr, m, k) { SessionStep(tr, m, k); }
    assert Follows(tr, i, k);
    SessionLater(tr, i + 1, k, j);
  }

  /** Every ended connection has broken, so EndedSessions speaks of all of them. */
  lemma EndedHasBroken(tr: seq<Node>, j: nat, k: nat) returns (i: nat)
    requires SingleRun(tr) && j < |tr| && k < |tr[j].sessions| && tr[j].sessions[k].pc.Gone?
    ensures i < j && BreaksAt(tr, i, k)
  {
    forall m: nat | m < |tr| - 1 ensures Follows(tr, m, k) { SessionStep(tr, m, k); }
    i := BreakBefore(tr, j, k);
  }

  lemma {:induction false} BreakBefore(tr: seq<Node>, j: nat, k: nat) returns (i: nat)
    requires j < |tr| && tr[0].sessions == [] && k < |tr[j].sessions| && Ending(tr[j].sessions[k].pc)
    requires forall m: nat :: m < |tr| - 1 ==> Follows(tr, m, k)
    ensures i < j && BreaksAt(tr, i, k)
  {
    assert Follows(tr, j - 1, k);
    if Ending(tr[j - 1].sessions[k].pc) {
      i := BreakBefore(tr, j - 1, k);
    } else {
      i := j - 1;
    }
  }

  // What no step undoes.
  predicate Later(x: Session, x': Session) {
    (x.notified ==> x'.notified) && (x.pc.Gone? ==> x'.pc.Gone? && x'.bind == x.bind)
  }

  // OnDisconnect is called at the break exactly when the queue is still open.
  predicate BreakCalls(x: Session, x': Session) {
    x.pc.Reading? && Ending(x'.pc) ==> if x.closed then x'.pc.Gone? && x'.bind == x.bind else x'.notified
  }

  predicate EndsByBreak(x: Session, x': Session) {
    Ending(x'.pc) ==> Ending(x.pc) || (x.pc.Reading? && (x'.pc.Gone? || x'.pc.DiscLook?))
  }

  predicate Follows(tr: seq<Node>, i: nat, k: nat)
    requires i + 1 < |tr|
  {
    && |tr[i].sessions| <= |tr[i + 1].sessions|
    && (|tr[i].sessions| <= k < |tr[i + 1].sessions| ==> !Ending(tr[i + 1].sessions[k].pc))
    && (k < |tr[i].sessions| ==>
          var x, x' := tr[i].sessions[k], tr[i + 1].sessions[k];
          Later(x, x') && BreakCalls(x, x') && EndsByBreak(x, x'))
  }

  // One step of the run, as seen by connection k.
  lemma SessionStep(tr: seq<Node>, i: nat, k: nat)
    requires SingleRun(tr) && i + 1 < |tr|
    ensures Follows(tr, i, k)
  {
    var s, s' := tr[i], tr[i + 1];
    assert SingleStep(s, s');
    var a :| Act(s, a, s') && (ReadsRequest(s, a, s') ==> !s.sessions[a.k].asked);
    if a.Handle? { HandledSession(s, a.k, s'); }
  }

  lemma HandledSession(s: Node, k: nat, s': Node)
    requires k < |s.sessions| && Handles(s, k, s')
    ensures |s'.sessions| == |s.sessions| && s'.sessions == s.sessions[k := s'.sessions[k]]
    ensures var x, x' := s.sessions[k], s'.sessions[k];
            Later(x, x') && BreakCalls(x, x') && EndsByBreak(x, x')
  {}

  lemma {:induction false} SessionLater(tr: seq<Node>, i: nat, k: nat, j: nat)
    requires i <= j < |tr| && k < |tr[i].sessions|
    requires forall m: nat :: m < |tr| - 1 ==> Follows(tr, m, k)
    ensures k < |tr[j].sessions| && Later(tr[i].sessions[k], tr[j].sessions[k])
    decreases j
  {
    if i == j {
    } else {
      SessionLater(tr, i, k, j - 1);
      assert Follows(tr, j - 1, k);
    }
  }

  // Outside the handlers' locked sections info.session mirrors the connection's bind object.
  lemma RegisteredMeansBound(tr: seq<Node>, i: nat, k: nat)
    requires SingleRun(tr) && i < |tr| && k < |tr[i].sessions|
    requires tr[i].sessions[k].pc.Gone? || tr[i].sessions[k].pc.Reading?
    ensures Registered(tr[i], k) <==> tr[i].sessions[k].bind.Some?
  {
    OwnersHold(tr, i);
    var s := tr[i];
    assert HandlerOk(s, k);
    if s.sessions[k].bind.Some? {
      var p := s.sessions[k].bind.value;
      assert Owner(s.sessions[k], p);
      assert s.peers[p].session == Some(k);
    }
  }

  // The node with two systems and one connection in a given state.
  function One(count: int, pc: ServerPC, bind: Option<nat>, closed: bool,
               session: Option<nat>, lock: Option<nat>): Node {
    Node(true, count, 0, [], [Peer(None, None), Peer(session, lock)], [Session(pc, bind, closed, true, false)])
  }

  function StaleHistory(i: nat): Node {
    if i == 0 then Node(false, 0, 0, [], [Peer(None, None), Peer(None, None)], [])
    else if i == 1 then StaleHistory(0).(started := true, count := 1)
    else if i == 2 then StaleHistory(1).(sessions := [Session(Reading, None, false, false, false)])
    else if i == 3 then One(1, Waiting(1, true), None, false, None, None)
    else if i == 4 then One(1, Inside(1, RegCheck), None, false, None, Some(0))
    else if i == 5 then One(1, Inside(1, RegBind), None, false, Some(0), Some(0))
    else if i == 6 then One(1, Inside(1, RegCount), Some(1), false, Some(0), Some(0))
    else if i == 7 then One(2, Inside(1, RegReply), Some(1), false, Some(0), Some(0))
    else if i == 8 then One(2, Reading, Some(1), false, Some(0), None)
    else if i == 9 then One(2, Rejecting, Some(1), false, Some(0), None)
    else if i == 10 then One(2, Reading, Some(1), true, Some(0), None)
    else One(2, Gone, Some(1), true, Some(0), None)
  }

  lemma Registers(i: nat)
    requires 2 <= i < 8
    ensures Act(StaleHistory(i), Handle(0), StaleHistory(i + 1))
  {
    var s, s' := StaleHistory(i), StaleHistory(i + 1);
    if i == 2 {
      assert s'.sessions[0] == s.sessions[0].(asked := true, pc := Waiting(1, true));
      OutsideActs(s, s');
    } else if i > 3 {
      InsideActs(s, s');
    }
  }

  lemma Breaks(i: nat)
    requires 8 <= i < 11
    ensures Act(StaleHistory(i), Handle(0), StaleHistory(i + 1))
  {
    OutsideActs(StaleHistory(i), StaleHistory(i + 1));
  }

  lemma StaleStep(i: nat)
    requires i < 11
    ensures SingleStep(StaleHistory(i), StaleHistory(i + 1))
  {
    var s, s' := StaleHistory(i), StaleHistory(i + 1);
    var a := if i == 0 then Start else if i == 1 then Accept else Handle(0);
    if 2 <= i < 8 { Registers(i); } else if 8 <= i { Breaks(i); }
    assert Act(s, a, s') && (ReadsRequest(s, a, s') ==> !s.sessions[a.k].asked);
  }

  /** It happens: a system registers, then sends a message that OnMessage rejects, so that s.Close() closes
      the queue, and its connection breaks: the ended session is still registered and still counted. */
  lemma StaleHappens() returns (tr: seq<Node>)
    ensures SingleRun(tr) && Stale(tr[|tr| - 1], 0, 1) && tr[|tr| - 1].count == 2
  {
    tr := seq(12, i requires 0 <= i => StaleHistory(i));
    forall i | 0 <= i < 11 ensures SingleStep(tr[i], tr[i + 1]) { StaleStep(i); }
  }

  // Connection k has ended and is still the session of the system at p.
  ghost predicate Stale(s: Node, k: nat, p: nat) {
    k < |s.sessions| && p < |s.peers| && s.sessions[k].pc.Gone? && s.peers[p].session == Some(k)
  }

  /** An ended connection that is still registered stays registered for good, so its system can never
      register again; this needs no assumption about requests. */
  lemma {:induction false} StaleForever(tr: seq<Node>, i: nat, j: nat, k: nat, p: nat)
    requires Run(tr) && i <= j < |tr| && Stale(tr[i], k, p)
    ensures Stale(tr[j], k, p)
  {
    if i == j {
    } else {
      StaleForever(tr, i, j - 1, k, p);
      InvHolds(tr, j - 1);
      StaleStays(tr, j, k, p);
    }
  }

  lemma StaleStays(tr: seq<Node>, j: nat, k: nat, p: nat)
    requires Run(tr) && 0 < j < |tr| && Inv(tr[j - 1]) && Stale(tr[j - 1], k, p)
    ensures Stale(tr[j], k, p)
  {
    var s, s' := tr[j - 1], tr[j];
    assert Step(s, s');
    var a :| Act(s, a, s');
    if a.Handle? {
      var x := s.sessions[a.k];
      assert HandlerOk(s, a.k);
      if x.pc.Inside? {
        assert PeerOk(s, x.pc.p);
        var ok :| Acts(s, a.k, x.pc.p, InsideStep(a.k, x, x.pc.p, s.peers[x.pc.p], x.pc.stage, ok), s');
      }
    }
  }

  /** Nobody takes a registration over: while a connection is the session of a system, that system's
      session is that connection or, after it, nil. */
  lemma NoTakeover(tr: seq<Node>, i: nat, p: nat)
    requires Run(tr) && i + 1 < |tr| && p < |tr[i].peers| && tr[i].peers[p].session.Some?
    ensures p < |tr[i + 1].peers| && tr[i + 1].peers[p].session in {None, tr[i].peers[p].session}
  {
    InvHolds(tr, i);
    assert Step(tr[i], tr[i + 1]);
    var a :| Act(tr[i], a, tr[i + 1]);
    if a.Handle? { HandlerTakesNothing(tr[i], a.k, tr[i + 1], p); }
  }

  lemma HandlerTakesNothing(s: Node, k: nat, s': Node, p: nat)
    requires Locks(s) && k < |s.sessions| && Handles(s, k, s') && p < |s.peers| && s.peers[p].session.Some?
    ensures |s'.peers| == |s.peers| && s'.peers[p].session in {None, s.peers[p].session}
  {
    var x := s.sessions[k];
    if x.pc.Inside? {
      assert HandlerOk(s, k) && PeerOk(s, x.pc.p);
      var ok :| Acts(s, k, x.pc.p, InsideStep(k, x, x.pc.p, s.peers[x.pc.p], x.pc.stage, ok), s');
    }
  }

  // A registered connection of StaleHistory that breaks with its queue still open.
  function LeaveHistory(i: nat): Node {
    if i <= 8 then StaleHistory(i)
    else if i == 9 then Left(2, DiscLook, Some(1), Some(0), None)
    else if i == 10 then Left(2, Waiting(1, false), Some(1), Some(0), None)
    else if i == 11 then Left(2, Inside(1, DiscCheck), Some(1), Some(0), Some(0))
    else if i == 12 then Left(2, Inside(1, DiscUnbind), Some(1), Some(0), Some(0))
    else if i == 13 then Left(2, Inside(1, DiscClear), None, Some(0), Some(0))
    else if i == 14 then Left(2, Inside(1, DiscCount), None, None, Some(0))
    else if i == 15 then Left(1, Inside(1, DiscUnlock), None, None, Some(0))
    else Left(1, Gone, None, None, None)
  }

  function Left(count: int, pc: ServerPC, bind: Option<nat>, session: Option<nat>, lock: Option<nat>): Node {
    One(count, pc, bind, true, session, lock).(sessions := [Session(pc, bind, true, true, true)])
  }

  lemma LeaveStep(i: nat)
    requires i < 16
    ensures SingleStep(LeaveHistory(i), LeaveHistory(i + 1))
  {
    var s, s' := LeaveHistory(i), LeaveHistory(i + 1);
    if i < 8 {
      StaleStep(i);
    } else {
      if i < 10 { OutsideActs(s, s'); } else if i > 10 { InsideActs(s, s'); }
      assert Act(s, Handle(0), s') && !ReadsRequest(s, Handle(0), s');
    }
  }

  /** The ordinary end: a system registers, its connection breaks, OnDisconnect takes the registration
      away, and the counter is back at 1. */
  lemma RegistersAndLeaves() returns (tr: seq<Node>)
    ensures SingleRun(tr) && |tr| == 17 && |tr[8].sessions| == |tr[16].sessions| == 1
    ensures Registered(tr[8], 0) && tr[8].sessions[0].pc == Reading && tr[8].count == 2
    ensures tr[16].sessions[0].pc == Gone && !Registered(tr[16], 0) && tr[16].count == 1
  {
    tr := seq(17, i requires 0 <= i => LeaveHistory(i));
    forall i | 0 <= i < 16 ensures SingleStep(tr[i], tr[i + 1]) { LeaveStep(i); }
    assert tr[8].peers[1].session == Some(0);
  }

  // Between i and i + 1 connection k's register request finds its system registered.
  predicate FindsRegistered(tr: seq<Node>, i: nat, k: nat) {
    && i + 1 < |tr| && k < |tr[i].sessions| && k < |tr[i + 1].sessions|
    && var pc := tr[i].sessions[k].pc;
       && pc.Inside? && pc.stage == RegCheck && pc.p < |tr[i].peers| && tr[i].peers[pc.p].session.Some?
       && tr[i + 1].sessions[k].pc != pc
  }

  // OnMessage has returned an error that still has to close the session, or has closed it.
  predicate RefusedAt(tr: seq<Node>, j: nat, k: nat) {
    j < |tr| && k < |tr[j].sessions| && (tr[j].sessions[k].pc.Rejecting? || tr[j].sessions[k].closed)
  }

  /** A second registration is refused and ends its connection: from then on the connection is about to
      be closed or closed, at the latest before it reads again. */
  lemma RefusedIsClosed(tr: seq<Node>, i: nat, j: nat, k: nat)
    requires Run(tr) && FindsRegistered(tr, i, k) && i < j < |tr|
    ensures RefusedAt(tr, j, k)
    ensures tr[j].sessions[k].pc.Reading? ==> tr[j].sessions[k].closed
  {
    forall m: nat | m + 1 < |tr| ensures RefusalFollows(tr, m, k) { RefusalStep(tr, m, k); }
    assert RefusalFollows(tr, i, k);
    RefusedLater(tr, i + 1, j, k);
  }

  predicate RefusalFollows(tr: seq<Node>, m: nat, k: nat)
    requires m + 1 < |tr|
  {
    RefusedAt(tr, m, k) || FindsRegistered(tr, m, k) ==> RefusedAt(tr, m + 1, k)
  }

  lemma RefusalStep(tr: seq<Node>, m: nat, k: nat)
    requires Run(tr) && m + 1 < |tr|
    ensures RefusalFollows(tr, m, k)
  {
    assert Step(tr[m], tr[m + 1]);
    var a :| Act(tr[m], a, tr[m + 1]);
    if a.Handle? { RefusedHandler(tr[m], a.k, tr[m + 1]); }
  }

  lemma RefusedHandler(s: Node, k: nat, s': Node)
    requires k < |s.sessions| && Handles(s, k, s')
    ensures |s'.sessions| == |s.sessions| && s'.sessions == s.sessions[k := s'.sessions[k]]
    ensures var x, x' := s.sessions[k], s'.sessions[k];
            && (x.pc.Rejecting? || x.closed ==> x'.pc.Rejecting? || x'.closed)
            && (x.pc.Inside? && x.pc.stage == RegCheck && x.pc.p < |s.peers| && s.peers[x.pc.p].session.Some? ==>
                  x'.pc.Rejecting?)
  {
    var x := s.sessions[k];
    if x.pc.Inside? {
      var ok :| Acts(s, k, x.pc.p, InsideStep(k, x, x.pc.p, s.peers[x.pc.p], x.pc.stage, ok), s');
    }
  }

  lemma {:induction false} RefusedLater(tr: seq<Node>, i: nat, j: nat, k: nat)
    requires i <= j < |tr| && RefusedAt(tr, i, k)
    requires forall m: nat :: m + 1 < |tr| ==> RefusalFollows(tr, m, k)
    ensures RefusedAt(tr, j, k)
    decreases j
  {
    if i < j {
      RefusedLater(tr, i, j - 1, k);
      assert RefusalFollows(tr, j - 1, k);
    }
  }

  // Connection k is closed locally, and OnDisconnect has not been called for it.
  predicate SilentAt(tr: seq<Node>, j: nat, k: nat) {
    j < |tr| && k < |tr[j].sessions| && tr[j].sessions[k].closed && !tr[j].sessions[k].notified
  }

  /** A local Close suppresses OnDisconnect for good: a connection closed before it breaks is never
      announced, so its handler never gives the registration back. */
  lemma LocalCloseSilences(tr: seq<Node>, i: nat, j: nat, k: nat)
    requires Run(tr) && i < j < |tr| && Act(tr[i], LocalClose(k), tr[i + 1]) && !tr[i].sessions[k].notified
    ensures SilentAt(tr, j, k)
  {
    forall m: nat | m + 1 < |tr| ensures SilenceFollows(tr, m, k) { SilenceStep(tr, m, k); }
    SilentLater(tr, i + 1, j, k);
  }

  predicate SilenceFollows(tr: seq<Node>, m: nat, k: nat)
    requires m + 1 < |tr|
  {
    SilentAt(tr, m, k) ==> SilentAt(tr, m + 1, k)
  }

  lemma SilenceStep(tr: seq<Node>, m: nat, k: nat)
    requires Run(tr) && m + 1 < |tr|
    ensures SilenceFollows(tr, m, k)
  {
    assert Step(tr[m], tr[m + 1]);
    var a :| Act(tr[m], a, tr[m + 1]);
    if a.Handle? { SilentHandler(tr[m], a.k, tr[m + 1]); }
  }

  lemma SilentHandler(s: Node, k: nat, s': Node)
    requires k < |s.sessions| && Handles(s, k, s')
    ensures |s'.sessions| == |s.sessions| && s'.sessions == s.sessions[k := s'.sessions[k]]
    ensures var x, x' := s.sessions[k], s'.sessions[k];
            x.closed && !x.notified ==> x'.closed && !x'.notified
  {}

  lemma {:induction false} SilentLater(tr: seq<Node>, i: nat, j: nat, k: nat)
    requires i <= j < |tr| && SilentAt(tr, i, k)
    requires forall m: nat :: m + 1 < |tr| ==> SilenceFollows(tr, m, k)
    ensures SilentAt(tr, j, k)
    decreases j
  {
    if i < j {
      SilentLater(tr, i, j - 1, k);
      assert SilenceFollows(tr, j - 1, k);
    }
  }
}
