/** The reconnect loop of cluster_client.go over whole runs: what it takes to set info.cli, and a run
    through the whole loop. */
module ClusterClients {
  import opened Basics
  import opened Cluster
  import ClusterCounter

  // Between i and i + 1 client k, waiting for its register response, takes the answer `true`.
  predicate TakesSuccess(tr: seq<Node>, i: nat, k: nat) {
    && i + 1 < |tr| && k < |tr[i].clients| && k < |tr[i + 1].clients|
    && tr[i].clients[k].pc == Awaiting && tr[i].clients[k].response == Some(true)
    && tr[i + 1].clients[k].pc == SetCli && tr[i + 1].clients[k].response == None
  }

  // From the success to the moment that info.cli is cleared again.
  predicate Succeeded(tr: seq<Node>, i: nat, k: nat) {
    i < |tr| && k < |tr[i].clients| && tr[i].clients[k].pc in {SetCli, CountUp, Ready, ClearCli}
  }

  /** A client sets info.cli, and keeps it set, only after it has taken a `true` from its register
      response channel in the same round of its loop. */
  lemma CliNeedsSuccess(tr: seq<Node>, j: nat, k: nat) returns (i: nat)
    requires Run(tr) && j < |tr| && k < |tr[j].clients| && tr[j].clients[k].cli
    ensures i < j && TakesSuccess(tr, i, k)
    ensures forall m :: i < m <= j ==> Succeeded(tr, m, k)
  {
    InvHolds(tr, j);
    assert ClientOk(tr[j].clients[k]);
    forall m: nat | m + 1 < |tr| ensures ClientFollows(tr, m, k) { ClientStepSeen(tr, m, k); }
    i := SuccessBefore(tr, j, k);
  }

  lemma {:induction false} SuccessBefore(tr: seq<Node>, j: nat, k: nat) returns (i: nat)
    requires Succeeded(tr, j, k) && !Succeeded(tr, 0, k)
    requires forall m: nat :: m + 1 < |tr| ==> ClientFollows(tr, m, k)
    ensures i < j && TakesSuccess(tr, i, k)
    ensures forall m :: i < m <= j ==> Succeeded(tr, m, k)
  {
    assert ClientFollows(tr, j - 1, k);
    if Succeeded(tr, j - 1, k) {
      i := SuccessBefore(tr, j - 1, k);
    } else {
      i := j - 1;
    }
  }

  predicate ClientFollows(tr: seq<Node>, m: nat, k: nat)
    requires m + 1 < |tr|
  {
    && |tr[m].clients| == |tr[m + 1].clients|
    && (Succeeded(tr, m + 1, k) ==> Succeeded(tr, m, k) || TakesSuccess(tr, m, k))
  }

  lemma ClientStepSeen(tr: seq<Node>, m: nat, k: nat)
    requires Run(tr) && m + 1 < |tr|
    ensures ClientFollows(tr, m, k)
  {
    assert Step(tr[m], tr[m + 1]);
    var a :| Act(tr[m], a, tr[m + 1]);
  }

  /** A client whose register request is refused starts over without touching info.cli or the counter. */
  lemma RefusalStartsOver(s: Node, k: nat, s': Node)
    requires k < |s.clients| && Runs(s, k, s') && s.clients[k].pc == Awaiting && s'.clients[k].pc != Awaiting
    requires s.clients[k].response != Some(true)
    ensures s'.clients[k].pc == Top && s'.clients[k].cli == s.clients[k].cli && s'.count == s.count
  {}

  // The last of two nodes, with its client and the counter in a given state.
  function One(count: int, c: Client): Node {
    ClusterCounter.Fresh(2, 1).(started := true, count := count, clients := [c])
  }

  function LoopHistory(i: nat): Node {
    if i == 0 then ClusterCounter.Fresh(2, 1)
    else if i == 1 then One(1, Client(Top, false, false, None))
    else if i == 2 then One(1, Client(Connecting, false, false, None))
    else if i == 3 then One(1, Client(Requesting, false, false, None))
    else if i == 4 then One(1, Client(Awaiting, false, false, None))
    else if i == 5 then One(1, Client(Awaiting, false, false, Some(true)))
    else if i == 6 then One(1, Client(SetCli, false, false, None))
    else if i == 7 then One(1, Client(CountUp, true, false, None))
    else if i == 8 then One(2, Client(Ready, true, false, None))
    else if i == 9 then One(2, Client(Ready, true, true, None))
    else if i == 10 then One(2, Client(ClearCli, true, false, None))
    else if i == 11 then One(2, Client(CountDown, false, false, None))
    else One(1, Client(Top, false, false, None))
  }

  lemma LoopStep(i: nat)
    requires i < 12
    ensures Step(LoopHistory(i), LoopHistory(i + 1))
  {
    var s, s' := LoopHistory(i), LoopHistory(i + 1);
    if i == 0 {
      assert s'.clients == s.clients;
      assert Act(s, Start, s');
    } else {
      assert s'.clients[0] == LoopHistory(i + 1).clients[0] && s.clients[0 := s'.clients[0]] == s'.clients;
      assert Act(s, ClientRuns(0), s');
    }
  }

  /** The loop can be gone through: a client dials, is accepted, becomes ready with info.cli set and the
      counter at 2, loses its connection, and is back at the start with info.cli nil and the counter at 1. */
  lemma GoesThroughLoop() returns (tr: seq<Node>)
    ensures Run(tr) && |tr| == 13
    ensures tr[8].clients == [Client(Ready, true, false, None)] && tr[8].count == 2
    ensures tr[12].clients == [Client(Top, false, false, None)] && tr[12].count == 1
  {
    tr := seq(13, i requires 0 <= i => LoopHistory(i));
    forall i | 0 <= i < 12 ensures Step(tr[i], tr[i + 1]) { LoopStep(i); }
  }
}
