/** When connectedSystemCount is the number of connected systems: the register handler of
    cluster_server.go refuses unknown and passive systems, and the local system is neither. */
module ClusterCounter {
  import opened Basics
  import opened Counting
  import opened Cluster

  // Connection k reads a register request with the local system's own id.
  predicate AsksSelf(s: Node, s': Node, k: nat) {
    && k < |s.sessions| && k < |s'.sessions|
    && s.sessions[k].pc.Reading? && s'.sessions[k].pc == Waiting(s.local, true)
  }

  // Between i and i + 1 nobody does.
  ghost predicate OthersAsk(tr: seq<Node>, i: nat)
    requires i + 1 < |tr|
  {
    NobodyAsksSelf(tr[i], tr[i + 1])
  }

  ghost predicate NobodyAsksSelf(s: Node, s': Node) { forall k :: !AsksSelf(s, s', k) }

  ghost predicate LocalUntouched(s: Node) {
    && s.local < |s.peers| && s.peers[s.local] == Peer(None, None)
    && forall k :: 0 <= k < |s.sessions| ==> SessionElsewhere(s, s.sessions[k])
  }

  predicate SessionElsewhere(s: Node, x: Session) {
    x.bind != Some(s.local) && (x.pc.Waiting? || x.pc.Inside? ==> x.pc.p != s.local)
  }

  lemma LocalStaysUntouched(s: Node, s': Node)
    requires LocalUntouched(s) && Step(s, s') && NobodyAsksSelf(s, s')
    ensures LocalUntouched(s')
  {
    var a :| Act(s, a, s');
    if a.Handle? { HandlerStaysElsewhere(s, a.k, s'); }
  }

  lemma HandlerStaysElsewhere(s: Node, k: nat, s': Node)
    requires LocalUntouched(s) && k < |s.sessions| && Handles(s, k, s') && !AsksSelf(s, s', k)
    ensures s'.local == s.local && |s'.peers| == |s.peers| && s'.peers[s.local] == s.peers[s.local]
    ensures s'.sessions == s.sessions[k := s'.sessions[k]] && SessionElsewhere(s, s'.sessions[k])
  {
    var x := s.sessions[k];
    assert SessionElsewhere(s, x);
    if x.pc.Inside? {
      var ok :| Acts(s, k, x.pc.p, InsideStep(k, x, x.pc.p, s.peers[x.pc.p], x.pc.stage, ok), s');
      InsideStaysElsewhere(s, k, x, s.peers[x.pc.p], ok);
    }
  }

  lemma InsideStaysElsewhere(s: Node, k: nat, x: Session, y: Peer, ok: bool)
    requires x.pc.Inside? && SessionElsewhere(s, x)
    ensures SessionElsewhere(s, InsideStep(k, x, x.pc.p, y, x.pc.stage, ok).session)
  {}

  lemma {:induction false} LocalAlwaysUntouched(tr: seq<Node>, i: nat)
    requires Run(tr) && i < |tr|
    requires forall j: nat :: j + 1 < |tr| ==> OthersAsk(tr, j)
    ensures LocalUntouched(tr[i])
  {
    if i == 0 {
    } else {
      LocalAlwaysUntouched(tr, i - 1);
      assert OthersAsk(tr, i - 1) && Step(tr[i - 1], tr[i]);
      LocalStaysUntouched(tr[i - 1], tr[i]);
    }
  }

  /** While every register request names another system, as the requests of cluster_client.go do, the
      counter is exactly the number of counted systems, and the exit test of start exact. */
  lemma OthersAskCounterLaw(tr: seq<Node>, i: nat)
    requires Run(tr) && i < |tr|
    requires forall j: nat :: j + 1 < |tr| ==> OthersAsk(tr, j)
    ensures Shape(tr[i]) && !SelfRegistered(tr[i])
    ensures tr[i].count == Trues(Systems(tr[i])) <= |tr[i].peers|
    ensures tr[i].count >= |tr[i].peers| <==> AllCounted(tr[i])
  {
    CounterLaw(tr, i);
    LocalAlwaysUntouched(tr, i);
    TruesBound(Systems(tr[i]));
  }

  // In every run of the node at position local of n systems, whatever is requested.
  ghost predicate CountsSystems(n: nat, local: nat) {
    forall tr: seq<Node>, i: nat :: Run(tr) && i < |tr| && |tr[i].peers| == n && tr[i].local == local ==>
      Shape(tr[i]) && tr[i].count == Trues(Systems(tr[i]))
  }

  /** Whatever is requested, the counter is the number of counted systems exactly on the last node of
      the list, the one without a server. */
  lemma CountsOnlyWithoutServer(n: nat, local: nat)
    requires local < n
    ensures CountsSystems(n, local) <==> local == n - 1
  {
    if local == n - 1 {
      forall tr: seq<Node>, i: nat | Run(tr) && i < |tr| && |tr[i].peers| == n && tr[i].local == local
        ensures Shape(tr[i]) && tr[i].count == Trues(Systems(tr[i]))
      {
        CounterLaw(tr, i);
        NoServerNoSession(tr, i);
      }
    } else {
      var tr := SelfRegisters(n, local);
      CounterLaw(tr, 8);
      assert tr[8].count != Trues(Systems(tr[8]));
    }
  }

  lemma {:induction false} NoServerNoSession(tr: seq<Node>, i: nat)
    requires Run(tr) && i < |tr| && tr[i].local == |tr[i].peers| - 1
    ensures tr[i].sessions == [] && forall p :: 0 <= p < |tr[i].peers| ==> tr[i].peers[p] == Peer(None, None)
  {
    if i == 0 {
    } else {
      assert Step(tr[i - 1], tr[i]);
      NoServerNoSession(tr, i - 1);
    }
  }

  // The node before it starts.
  function Fresh(n: nat, local: nat): Node {
    Node(false, 0, local, seq(local, _ => Client(Top, false, false, None)), seq(n, _ => Peer(None, None)), [])
  }

  // One connection, and what the local system's entry and the counter have become.
  function Self(n: nat, local: nat, count: int, pc: ServerPC, bind: Option<nat>, peer: Peer): Node
    requires local < n
  {
    var s := Fresh(n, local);
    s.(started := true, count := count, peers := s.peers[local := peer],
       sessions := [Session(pc, bind, false, !pc.Reading? || bind.Some?, false)])
  }

  function SelfHistory(n: nat, local: nat, i: nat): Node
    requires local < n
  {
    if i == 0 then Fresh(n, local)
    else if i == 1 then Fresh(n, local).(started := true, count := 1)
    else if i == 2 then Self(n, local, 1, Reading, None, Peer(None, None))
    else if i == 3 then Self(n, local, 1, Waiting(local, true), None, Peer(None, None))
    else if i == 4 then Self(n, local, 1, Inside(local, RegCheck), None, Peer(None, Some(0)))
    else if i == 5 then Self(n, local, 1, Inside(local, RegBind), None, Peer(Some(0), Some(0)))
    else if i == 6 then Self(n, local, 1, Inside(local, RegCount), Some(local), Peer(Some(0), Some(0)))
    else if i == 7 then Self(n, local, 2, Inside(local, RegReply), Some(local), Peer(Some(0), Some(0)))
    else Self(n, local, 2, Reading, Some(local), Peer(Some(0), None))
  }

  lemma SelfAsks(n: nat, local: nat, i: nat)
    requires local < n - 1 && 2 <= i < 8
    ensures Act(SelfHistory(n, local, i), Handle(0), SelfHistory(n, local, i + 1))
  {
    var s, s' := SelfHistory(n, local, i), SelfHistory(n, local, i + 1);
    if i == 2 {
      assert s'.sessions[0] == s.sessions[0].(asked := true, pc := Waiting(local, true));
      OutsideActs(s, s');
    } else if i > 3 {
      InsideActs(s, s');
    }
  }

  lemma SelfStep(n: nat, local: nat, i: nat)
    requires local < n - 1 && i < 8
    ensures Step(SelfHistory(n, local, i), SelfHistory(n, local, i + 1))
  {
    var s, s' := SelfHistory(n, local, i), SelfHistory(n, local, i + 1);
    if i >= 2 { SelfAsks(n, local, i); }
    if i == 1 { assert s'.peers == s.peers; }
    assert Act(s, if i == 0 then Start else if i == 1 then Accept else Handle(0), s');
  }

  /** It happens on every node with a server: a connection registers under the local id, and the counter
      is 2 with no other system counted or connected. With two systems start would return. */
  lemma SelfRegisters(n: nat, local: nat) returns (tr: seq<Node>)
    requires local < n - 1
    ensures Run(tr) && |tr| == 9 && |tr[8].peers| == n && tr[8].local == local
    ensures Shape(tr[8]) && SelfRegistered(tr[8]) && tr[8].count == 2
    ensures forall p :: 0 <= p < n && p != local ==> !Counted(tr[8], p) && !Connected(tr[8], p)
  {
    tr := seq(9, i requires 0 <= i => SelfHistory(n, local, i));
    forall i | 0 <= i < 8 ensures Step(tr[i], tr[i + 1]) { SelfStep(n, local, i); }
  }
}
