/** Connections of one cluster node, one atomic action at a time: the register and disconnect handlers
    of cluster_server.go (one goroutine per accepted connection, sharing the locks of the peers), the
    reconnect loops of cluster_client.go (one goroutine per earlier system) and the shared
    connectedSystemCount that start of cluster_net.go polls. */
module Cluster {
  import opened Basics
  import opened Counting

  // Where a handler is while it holds the lock of a peer.
  datatype Stage =
    | RegCheck | RegBind | RegCount | RegReply
    | DiscCheck | DiscUnbind | DiscClear | DiscCount | DiscUnlock

  // A connection's goroutine: reading, wanting or holding the lock of the peer at position p, about to
  // close the session after OnMessage returned an error, at the start of OnDisconnect, or ended.
  datatype ServerPC =
    | Reading
    | Waiting(p: nat, registering: bool)
    | Inside(p: nat, stage: Stage)
    | Rejecting
    | DiscLook
    | Gone

  // bind is the session's bind object; closed is the connection's closed queue; asked and notified are
  // history: a register request has been read, OnDisconnect has been called.
  datatype Session = Session(pc: ServerPC, bind: Option<nat>, closed: bool, asked: bool, notified: bool)

  // info.session and info.lock of a system.
  datatype Peer = Peer(session: Option<nat>, lock: Option<nat>)

  datatype ClientPC = Top | Connecting | Requesting | Awaiting | SetCli | CountUp | Ready | ClearCli | CountDown

  // cli is info.cli != nil; the channels have capacity 1.
  datatype Client = Client(pc: ClientPC, cli: bool, disconnect: bool, response: Option<bool>)

  datatype Node = Node(
    started: bool,
    count: int,                    // connectedSystemCount
    local: nat,                    // localSystemIndex
    clients: seq<Client>,          // the systems before this one
    peers: seq<Peer>,              // by position; used from this one on
    sessions: seq<Session>)

  ghost predicate Init(s: Node) {
    && !s.started && s.count == 0 && s.local < |s.peers| && |s.clients| == s.local && s.sessions == []
    && (forall i :: 0 <= i < s.local ==> s.clients[i] == Client(Top, false, false, None))
    && (forall p :: 0 <= p < |s.peers| ==> s.peers[p] == Peer(None, None))
  }

  // The handler of connection k becomes x and the peer at position p becomes y.
  function Update(s: Node, k: nat, x: Session, p: nat, y: Peer, count: int): Node
    requires k < |s.sessions| && p < |s.peers|
  {
    s.(sessions := s.sessions[k := x], peers := s.peers[p := y], count := count)
  }

  function Set(s: Node, k: nat, x: Session): Node
    requires k < |s.sessions|
  {
    s.(sessions := s.sessions[k := x])
  }

  // The state of the handler and of the peer, and the change of the counter, after one action inside
  // the lock. The last action of a register handler may still fail and reject.
  datatype Effect = Effect(session: Session, peer: Peer, delta: int)

  function InsideStep(k: nat, x: Session, p: nat, y: Peer, stage: Stage, ok: bool): Effect {
    match stage
    case RegCheck =>
      if y.session.Some? then Effect(x.(pc := Rejecting), y.(lock := None), 0)
      else Effect(x.(pc := Inside(p, RegBind)), y.(session := Some(k)), 0)
    case RegBind => Effect(x.(pc := Inside(p, RegCount), bind := Some(p)), y, 0)
    case RegCount => Effect(x.(pc := Inside(p, RegReply)), y, 1)
    case RegReply => Effect(x.(pc := if ok then Reading else Rejecting), y.(lock := None), 0)
    case DiscCheck =>
      if y.session != Some(k) then Effect(x.(pc := Gone), y.(lock := None), 0)
      else Effect(x.(pc := Inside(p, DiscUnbind)), y, 0)
    case DiscUnbind => Effect(x.(pc := Inside(p, DiscClear), bind := None), y, 0)
    case DiscClear => Effect(x.(pc := Inside(p, DiscCount)), y.(session := None), 0)
    case DiscCount => Effect(x.(pc := Inside(p, DiscUnlock)), y, -1)
    case DiscUnlock => Effect(x.(pc := Gone), y.(lock := None), 0)
  }

  // The next state of a handler outside any lock. A register request names a position, or no system of
  // the cluster; the config lookup and the passive test come before the lock, and the local system
  // passes both. When the connection
  // breaks, conn.go calls OnDisconnect unless the queue is already closed.
  ghost predicate OutsideStep(s: Node, x: Session, x': Session) {
    match x.pc
    case Reading =>
      || (exists p: nat ::
            x' == x.(asked := true, pc := if s.local <= p < |s.peers| then Waiting(p, true) else Rejecting))
      || x' == x.(pc := Rejecting)   // any other message that OnMessage rejects
      || x' == if x.closed then x.(pc := Gone) else x.(pc := DiscLook, closed := true, notified := true)
    case Rejecting => x' == x.(pc := Reading, closed := true)
    case DiscLook => x' == x.(pc := if x.bind.None? then Gone else Waiting(x.bind.value, false))
    case _ => false
  }

  ghost predicate Handles(s: Node, k: nat, s': Node)
    requires k < |s.sessions|
  {
    var x := s.sessions[k];
    match x.pc
    case Waiting(p, registering) =>
      && p < |s.peers| && s.peers[p].lock == None
      && s' == Update(s, k, x.(pc := Inside(p, if registering then RegCheck else DiscCheck)),
                      p, s.peers[p].(lock := Some(k)), s.count)
    case Inside(p, stage) =>
      p < |s.peers| && exists ok :: Acts(s, k, p, InsideStep(k, x, p, s.peers[p], stage, ok), s')
    case _ => exists x' :: OutsideStep(s, x, x') && s' == Set(s, k, x')
  }

  predicate Acts(s: Node, k: nat, p: nat, e: Effect, s': Node)
    requires k < |s.sessions| && p < |s.peers|
  {
    s' == Update(s, k, e.session, p, e.peer, s.count + e.delta)
  }

  function Turn(s: Node, i: nat, c: Client): Node
    requires i < |s.clients|
  {
    s.(clients := s.clients[i := c])
  }

  // One action of a client's goroutine and its effect on the counter.
  predicate ClientStep(c: Client, c': Client, delta: int) {
    match c.pc
    case Top => c' == c.(pc := Connecting, disconnect := false) && delta == 0
    case Connecting => (c' == c.(pc := Requesting) || c' == c.(pc := Top)) && delta == 0
    case Requesting => (c' == c.(pc := Awaiting) || c' == c.(pc := Top)) && delta == 0
    case Awaiting =>
      && (|| (c.disconnect && c' == c.(pc := Top, disconnect := false))
          || (c.response.Some? && c' == c.(pc := if c.response.value then SetCli else Top, response := None)))
      && delta == 0
    case SetCli => c' == c.(pc := CountUp, cli := true) && delta == 0
    case CountUp => c' == c.(pc := Ready) && delta == 1
    case Ready => c.disconnect && c' == c.(pc := ClearCli, disconnect := false) && delta == 0
    case ClearCli => c' == c.(pc := CountDown, cli := false) && delta == 0
    case CountDown => c' == c.(pc := Top) && delta == -1
  }

  // A callback of one of the client's connections, current or earlier, fills a channel that has room.
  predicate Callbacks(c: Client, c': Client) {
    || (!c.disconnect && c' == c.(disconnect := true))
    || (c.response.None? && (c' == c.(response := Some(true)) || c' == c.(response := Some(false))))
  }

  predicate Runs(s: Node, i: nat, s': Node)
    requires i < |s.clients|
  {
    && |s'.clients| == |s.clients|
    && (|| ClientStep(s.clients[i], s'.clients[i], s'.count - s.count)
        || (Callbacks(s.clients[i], s'.clients[i]) && s'.count == s.count))
    && s' == Turn(s, i, s'.clients[i]).(count := s'.count)
  }

  datatype Action = Start | Accept | Handle(k: nat) | LocalClose(k: nat) | ClientRuns(i: nat)

  ghost predicate Act(s: Node, a: Action, s': Node) {
    match a
    case Start => !s.started && s' == s.(started := true, count := s.count + 1)
    case Accept =>
      && s.started && s.local < |s.peers| - 1   // the last system runs no server
      && s' == s.(sessions := s.sessions + [Session(Reading, None, false, false, false)])
    case Handle(k) => s.started && k < |s.sessions| && Handles(s, k, s')
    case LocalClose(k) =>
      s.started && k < |s.sessions| && s' == Set(s, k, s.sessions[k].(closed := true))
    case ClientRuns(i) => s.started && i < |s.clients| && Runs(s, i, s')
  }

  ghost predicate Step(s: Node, s': Node) { exists a :: Act(s, a, s') }

  ghost predicate Run(tr: seq<Node>) {
    tr != [] && Init(tr[0]) && forall i :: 0 <= i < |tr| - 1 ==> Step(tr[i], tr[i + 1])
  }

  // The system at position p is counted: this node once started, a client between its +1 and -1, a peer
  // from the +1 of its register handler to the -1 of its disconnect handler.
  predicate Counted(s: Node, p: nat)
    requires Shape(s) && p < |s.peers|
  {
    if p == s.local then s.started else if p < s.local then ClientCounted(s.clients[p]) else PeerCounted(s, p)
  }

  predicate PeerCounted(s: Node, p: nat)
    requires Shape(s) && p < |s.peers|
  {
    match s.peers[p].lock
    case None => s.peers[p].session.Some?
    case Some(k) => CountedInside(s.sessions[k].pc, s.peers[p].session)
  }

  // Some connection has registered under the local system's own id, and is counted beside this node.
  predicate SelfRegistered(s: Node)
    requires Shape(s)
  {
    PeerCounted(s, s.local)
  }

  // The flag of a peer, pc being where the holder of its lock is, if it has one.
  predicate PeerFlag(pc: ServerPC, y: Peer) {
    if y.lock.None? then y.session.Some? else CountedInside(pc, y.session)
  }

  predicate CountedInside(pc: ServerPC, session: Option<nat>) {
    if pc.Inside? && pc.stage in {RegBind, RegCount} then false
    else if pc.Inside? && pc.stage == DiscCount then true
    else session.Some?
  }

  predicate Shape(s: Node) {
    && s.local < |s.peers| && |s.clients| == s.local
    && forall p :: 0 <= p < |s.peers| ==> s.peers[p].lock.Some? ==> s.peers[p].lock.value < |s.sessions|
  }

  function Systems(s: Node): seq<bool>
    requires Shape(s)
  {
    seq(|s.peers|, p requires 0 <= p < |s.peers| => Counted(s, p))
  }

  // Everything that the counter counts: the systems, and a registration under the local id.
  function Flags(s: Node): seq<bool>
    requires Shape(s)
  {
    Systems(s) + [SelfRegistered(s)]
  }

  // Where a registration of position p is in Flags.
  function FlagOf(s: Node, p: nat): nat { if p == s.local then |s.peers| else p }

  // A handler inside a lock is its only holder; a register handler has assigned the session, and a
  // disconnect handler still has it until it clears it.
  ghost predicate Locks(s: Node) {
    && Shape(s)
    && (forall k :: 0 <= k < |s.sessions| ==> HandlerOk(s, k))
    && (forall p :: 0 <= p < |s.peers| ==> PeerOk(s, p))
  }

  ghost predicate HandlerOk(s: Node, k: nat)
    requires k < |s.sessions|
  {
    var x := s.sessions[k];
    && (x.pc.Inside? ==> s.local <= x.pc.p < |s.peers| && s.peers[x.pc.p].lock == Some(k))
    && (x.pc.Waiting? ==> s.local <= x.pc.p < |s.peers|)
    && (x.bind.Some? ==> s.local <= x.bind.value < |s.peers|)
  }

  ghost predicate PeerOk(s: Node, p: nat)
    requires Shape(s) && p < |s.peers|
  {
    var y := s.peers[p];
    y.lock.Some? ==> s.sessions[y.lock.value].pc.Inside? && s.sessions[y.lock.value].pc.p == p
                     && SectionOk(s.sessions[y.lock.value].pc.stage, y.session, y.lock.value)
  }

  ghost predicate SectionOk(stage: Stage, session: Option<nat>, k: nat) {
    && (stage in {RegBind, RegCount, DiscUnbind, DiscClear} ==> session == Some(k))
    && (stage == DiscCount ==> session == None)
  }

  ghost predicate Clients(s: Node) {
    forall i :: 0 <= i < |s.clients| ==> ClientOk(s.clients[i])
  }

  predicate ClientOk(c: Client) { c.cli <==> c.pc in {CountUp, Ready, ClearCli} }

  predicate ClientCounted(c: Client) { c.pc in {Ready, ClearCli, CountDown} }

  ghost predicate Inv(s: Node) {
    Locks(s) && Clients(s) && s.count == Trues(Flags(s))
  }

  // A handler and a peer that nobody else has locked change together.
  lemma LocalUpdate(s: Node, k: nat, x: Session, p: nat, y: Peer, count: int)
    requires Locks(s) && k < |s.sessions| && s.local <= p < |s.peers|
    requires s.peers[p].lock == None || s.peers[p].lock == Some(k)
    requires s.sessions[k].pc.Inside? ==> s.sessions[k].pc.p == p
    requires y.lock == if x.pc.Inside? then Some(k) else None
    requires x.pc.Inside? ==> x.pc.p == p && SectionOk(x.pc.stage, y.session, k)
    requires HandlerOk(Update(s, k, x, p, y, count), k)
    ensures var s' := Update(s, k, x, p, y, count);
            Locks(s') && Flags(s') == Flags(s)[FlagOf(s, p) := PeerFlag(x.pc, y)]
  {
    var s' := Update(s, k, x, p, y, count);
    LocksUpdate(s, k, x, p, y, count);
    forall q | 0 <= q < |s.peers| && q != p ensures PeerCounted(s', q) == PeerCounted(s, q) { assert PeerOk(s, q); }
    assert PeerCounted(s', p) == PeerFlag(x.pc, y);
    assert Systems(s') == if p == s.local then Systems(s) else Systems(s)[p := PeerFlag(x.pc, y)];
  }

  lemma LocksUpdate(s: Node, k: nat, x: Session, p: nat, y: Peer, count: int)
    requires Locks(s) && k < |s.sessions| && s.local <= p < |s.peers|
    requires s.peers[p].lock == None || s.peers[p].lock == Some(k)
    requires s.sessions[k].pc.Inside? ==> s.sessions[k].pc.p == p
    requires y.lock == if x.pc.Inside? then Some(k) else None
    requires x.pc.Inside? ==> x.pc.p == p && SectionOk(x.pc.stage, y.session, k)
    requires HandlerOk(Update(s, k, x, p, y, count), k)
    ensures Locks(Update(s, k, x, p, y, count))
  {
    var s' := Update(s, k, x, p, y, count);
    forall j | 0 <= j < |s.sessions| ensures HandlerOk(s', j) { assert HandlerOk(s, j); }
    forall q | 0 <= q < |s.peers| ensures PeerOk(s', q) { assert PeerOk(s, q); }
  }

  // A handler outside any lock changes alone.
  lemma OutsideUpdate(s: Node, k: nat, x: Session)
    requires Locks(s) && k < |s.sessions| && x.pc.Inside? == s.sessions[k].pc.Inside?
    requires x.pc.Inside? ==> x.pc == s.sessions[k].pc
    requires HandlerOk(Set(s, k, x), k)
    ensures Locks(Set(s, k, x)) && Flags(Set(s, k, x)) == Flags(s)
  {
    var s' := Set(s, k, x);
    forall j | 0 <= j < |s.sessions| ensures HandlerOk(s', j) { assert HandlerOk(s, j); }
    forall q | 0 <= q < |s.peers| ensures PeerOk(s', q) { assert PeerOk(s, q); }
    assert Shape(s');
  }

  lemma FlagFlips(flags: seq<bool>, p: nat, b: bool)
    requires p < |flags|
    ensures Trues(flags[p := b]) == Trues(flags) - Bit(flags[p]) + Bit(b)
  {
    SumUpdate(flags, p, b, Bit);
  }

  lemma HandleKeeps(s: Node, k: nat, s': Node)
    requires Inv(s) && k < |s.sessions| && Handles(s, k, s')
    ensures Inv(s')
  {
    var x := s.sessions[k];
    if x.pc.Waiting? {
      TakingKeeps(s, k, s');
    } else if x.pc.Inside? {
      var ok :| Acts(s, k, x.pc.p, InsideStep(k, x, x.pc.p, s.peers[x.pc.p], x.pc.stage, ok), s');
      InsideKeeps(s, k, ok, s');
    } else {
      OutsideKeeps(s, k, s');
    }
  }

  lemma OutsideKeeps(s: Node, k: nat, s': Node)
    requires Inv(s) && k < |s.sessions| && Handles(s, k, s') && !s.sessions[k].pc.Waiting? && !s.sessions[k].pc.Inside?
    ensures Inv(s')
  {
    var x' :| OutsideStep(s, s.sessions[k], x') && s' == Set(s, k, x');
    OutsideOk(s, k, x');
    OutsideUpdate(s, k, x');
  }

  lemma OutsideOk(s: Node, k: nat, x: Session)
    requires k < |s.sessions| && HandlerOk(s, k) && OutsideStep(s, s.sessions[k], x)
    ensures HandlerOk(Set(s, k, x), k) && !x.pc.Inside?
  {}

  lemma TakingKeeps(s: Node, k: nat, s': Node)
    requires Inv(s) && k < |s.sessions| && Handles(s, k, s') && s.sessions[k].pc.Waiting?
    ensures Inv(s')
  {
    assert HandlerOk(s, k);
    var p := s.sessions[k].pc.p;
    LocalUpdate(s, k, s'.sessions[k], p, s'.peers[p], s.count);
    FlagFlips(Flags(s), FlagOf(s, p), PeerFlag(s'.sessions[k].pc, s'.peers[p]));
  }

  // The counter moves exactly with the flag of the locked peer.
  lemma DeltaIsFlag(k: nat, x: Session, p: nat, y: Peer, ok: bool)
    requires x.pc.Inside? && x.pc.p == p && y.lock == Some(k) && SectionOk(x.pc.stage, y.session, k)
    ensures var e := InsideStep(k, x, p, y, x.pc.stage, ok);
            && e.peer.lock == (if e.session.pc.Inside? then Some(k) else None)
            && (e.session.pc.Inside? ==> e.session.pc.p == p && SectionOk(e.session.pc.stage, e.peer.session, k))
            && !e.session.pc.Waiting?
            && (e.session.bind.Some? ==> e.session.bind == x.bind || e.session.bind == Some(p))
            && Bit(PeerFlag(e.session.pc, e.peer)) == Bit(PeerFlag(x.pc, y)) + e.delta
  {}

  lemma InsideKeeps(s: Node, k: nat, ok: bool, s': Node)
    requires Inv(s) && k < |s.sessions| && s.sessions[k].pc.Inside? && s.sessions[k].pc.p < |s.peers|
    requires var x, p := s.sessions[k], s.sessions[k].pc.p;
             Acts(s, k, p, InsideStep(k, x, p, s.peers[p], x.pc.stage, ok), s')
    ensures Inv(s')
  {
    var x, p := s.sessions[k], s.sessions[k].pc.p;
    assert HandlerOk(s, k) && PeerOk(s, p);
    DeltaIsFlag(k, x, p, s.peers[p], ok);
    var e := InsideStep(k, x, p, s.peers[p], x.pc.stage, ok);
    LocalUpdate(s, k, e.session, p, e.peer, s.count + e.delta);
    FlagFlips(Flags(s), FlagOf(s, p), PeerFlag(s'.sessions[k].pc, s'.peers[p]));
  }

  lemma ClientKeeps(s: Node, i: nat, s': Node)
    requires Inv(s) && i < |s.clients| && Runs(s, i, s')
    ensures Inv(s')
  {
    ClientDelta(s.clients[i], s'.clients[i], s'.count - s.count);
    ClientUpdate(s, i, s'.clients[i], s'.count);
    FlagFlips(Flags(s), i, Flags(s')[i]);
  }

  lemma ClientDelta(c: Client, c': Client, delta: int)
    requires ClientOk(c) && (ClientStep(c, c', delta) || (Callbacks(c, c') && delta == 0))
    ensures ClientOk(c') && Bit(ClientCounted(c')) == Bit(ClientCounted(c)) + delta
  {}

  lemma ClientUpdate(s: Node, i: nat, c: Client, count: int)
    requires Locks(s) && i < |s.clients|
    ensures var s' := Turn(s, i, c).(count := count);
            Locks(s') && Flags(s') == Flags(s)[i := ClientCounted(c)]
  {
    var s' := Turn(s, i, c).(count := count);
    forall j | 0 <= j < |s.sessions| ensures HandlerOk(s', j) { assert HandlerOk(s, j); }
    forall q | 0 <= q < |s.peers| ensures PeerOk(s', q) { assert PeerOk(s, q); }
  }

  lemma ActKeeps(s: Node, a: Action, s': Node)
    requires Inv(s) && Act(s, a, s')
    ensures Inv(s')
  {
    match a
    case Start =>
      assert forall j :: 0 <= j < |s.sessions| ==> HandlerOk(s, j) == HandlerOk(s', j);
      assert forall q :: 0 <= q < |s.peers| ==> PeerOk(s, q) == PeerOk(s', q);
      assert Flags(s') == Flags(s)[s.local := true];
      FlagFlips(Flags(s), s.local, true);
    case Accept =>
      forall j | 0 <= j < |s'.sessions| ensures HandlerOk(s', j) { if j < |s.sessions| { assert HandlerOk(s, j); } }
      forall q | 0 <= q < |s.peers| ensures PeerOk(s', q) { assert PeerOk(s, q); }
      assert Flags(s') == Flags(s);
    case Handle(k) => HandleKeeps(s, k, s');
    case LocalClose(k) =>
      assert HandlerOk(s, k);
      OutsideUpdate(s, k, s'.sessions[k]);
    case ClientRuns(i) => ClientKeeps(s, i, s');
  }

  lemma InvStarts(s: Node)
    requires Init(s)
    ensures Inv(s)
  {
    NoneCounted(Flags(s));
  }

  lemma {:induction false} NoneCounted(flags: seq<bool>)
    requires forall i :: 0 <= i < |flags| ==> !flags[i]
    ensures Trues(flags) == 0
  {
    if flags == [] {
    } else {
      NoneCounted(flags[..|flags| - 1]);
    }
  }

  lemma {:induction false} InvHolds(tr: seq<Node>, i: nat)
    requires Run(tr) && i < |tr|
    ensures Inv(tr[i])
  {
    if i == 0 {
      InvStarts(tr[0]);
    } else {
      InvHolds(tr, i - 1);
      assert Step(tr[i - 1], tr[i]);
      var a :| Act(tr[i - 1], a, tr[i]);
      ActKeeps(tr[i - 1], a, tr[i]);
    }
  }

  // info.cli of an earlier system, info.session of any other: what doSend needs to be non-nil.
  predicate Linked(s: Node, p: nat)
    requires Shape(s) && p < |s.peers|
  {
    if p < s.local then s.clients[p].cli else s.peers[p].session.Some?
  }

  predicate Connected(s: Node, p: nat)
    requires Shape(s) && p < |s.peers|
  {
    p == s.local || Linked(s, p)
  }

  // p's handler or client is between taking its connection away and the decrement that follows.
  predicate Dropping(s: Node, p: nat)
    requires Shape(s) && p < |s.peers|
  {
    if p < s.local then s.clients[p].pc == CountDown
    else s.peers[p].lock.Some? && var pc := s.sessions[s.peers[p].lock.value].pc; pc.Inside? && pc.stage == DiscCount
  }

  ghost predicate AllCounted(s: Node)
    requires Shape(s)
  {
    forall p :: 0 <= p < |s.peers| ==> Counted(s, p)
  }

  /** At every step of every run the counter is the number of counted systems, at least 1 once started,
      and one more while a connection is registered under the local system's own id, which the register
      handler does not refuse. Without such a registration the exit test of start passes exactly when
      every system is counted; with one it also passes when a single system is missing. A counted system
      is connected unless its decrement is already due. */
  lemma CounterLaw(tr: seq<Node>, i: nat)
    requires Run(tr) && i < |tr|
    ensures var s := tr[i];
            && Shape(s) && s.count == Trues(Systems(s)) + Bit(SelfRegistered(s))
            && 0 <= s.count <= |s.peers| + 1 && (s.started ==> 1 <= s.count)
            && (s.count > |s.peers| <==> SelfRegistered(s) && AllCounted(s))
            && (!SelfRegistered(s) ==> (s.count >= |s.peers| <==> AllCounted(s)))
            && (s.count >= |s.peers| && !AllCounted(s) <==>
                  SelfRegistered(s) && Trues(Systems(s)) == |s.peers| - 1)
            && (forall p :: 0 <= p < |s.peers| && Counted(s, p) ==> Connected(s, p) || Dropping(s, p))
  {
    var s := tr[i];
    InvHolds(tr, i);
    assert Flags(s)[..|s.peers|] == Systems(s);
    TruesBound(Systems(s));
    if s.started {
      assert Systems(s)[s.local];
      SumHasTerm(Systems(s), s.local, Bit);
    }
    forall p | 0 <= p < |s.peers| && Counted(s, p) ensures Connected(s, p) || Dropping(s, p) {
      assert PeerOk(s, p);
    }
    assert forall p :: 0 <= p < |s.peers| ==> Systems(s)[p] == Counted(s, p);
  }

  // Building runs of a node with one connection.
  lemma OutsideActs(s: Node, s': Node)
    requires s.started && |s.sessions| == 1 && |s'.sessions| == 1
    requires OutsideStep(s, s.sessions[0], s'.sessions[0]) && s' == Set(s, 0, s'.sessions[0])
    ensures Act(s, Handle(0), s')
  {}

  lemma InsideActs(s: Node, s': Node)
    requires s.started && |s.sessions| == 1 && s.sessions[0].pc.Inside? && s.sessions[0].pc.p < |s.peers|
    requires var x := s.sessions[0];
             Acts(s, 0, x.pc.p, InsideStep(0, x, x.pc.p, s.peers[x.pc.p], x.pc.stage, true), s')
    ensures Act(s, Handle(0), s')
  {}
}
