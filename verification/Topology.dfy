/** Which node of the cluster dials which, from the order of SystemConfigs (cluster_net.go). */
module Topology {
  import opened Basics
  import Cluster

  // info.cli and info.session, reduced to what SendMessage on them returns.
  datatype SystemInfo = SystemInfo(passive: bool, cli: Option<bool>, session: Option<bool>)

  // The error code of doSend, None for nil.
  const SEND_FAILED := 106

  function DoSend(info: SystemInfo): Option<int> {
    var link := if info.passive then info.cli else info.session;
    if link.Some? && link.value then None else Some(SEND_FAILED)
  }

  predicate Distinct(ids: seq<uint32>) { forall i, j :: 0 <= i < j < |ids| ==> ids[i] != ids[j] }

  function Members(ids: seq<uint32>): set<uint32> { set id | id in ids }

  lemma OneMore(ids: seq<uint32>, i: nat)
    requires Distinct(ids) && i < |ids|
    ensures Members(ids[..i + 1]) == Members(ids[..i]) + {ids[i]} && ids[i] !in Members(ids[..i])
    ensures forall id :: id in ids[..i + 1] <==> id in ids[..i] || id == ids[i]
  {
    assert ids[..i + 1] == ids[..i] + [ids[i]];
  }

  lemma {:induction false} MembersCount(ids: seq<uint32>)
    requires Distinct(ids)
    ensures |Members(ids)| == |ids|
  {
    if ids == [] {
    } else {
      var n := |ids| - 1;
      MembersCount(ids[..n]);
      OneMore(ids, n);
      assert ids[..n + 1] == ids;
    }
  }

  class ClusterNet {
    const local: uint32
    const ids: seq<uint32>                     // the SystemIds of SystemConfigs
    var localSystemIndex: int
    var passive: map<uint32, bool>             // systemInfos
    var server: bool
    var clients: seq<uint32>

    // The local system is at position me, and exactly the systems before it are passive.
    ghost predicate Oriented(me: nat)
      reads this
    {
      && me < |ids| && ids[me] == local && localSystemIndex == me
      && passive.Keys == Members(ids) && |passive| == |ids|
      && forall i :: 0 <= i < |ids| ==> ids[i] in passive && (passive[ids[i]] <==> i < me)
    }

    /** NewClusterNet */
    constructor (local: uint32, ids: seq<uint32>)
      requires Distinct(ids)
      ensures this.local == local && this.ids == ids && !server && clients == []
      ensures forall me :: 0 <= me < |ids| && ids[me] == local ==> Oriented(me)
      ensures local !in ids ==> localSystemIndex == -1 && forall id :: id in passive ==> passive[id]
    {
      this.local, this.ids, server, clients := local, ids, false, [];
      new;
      localSystemIndex, passive := Orient(local, ids);
      MembersCount(ids);
      assert |passive| == |passive.Keys|;
    }

    // The loop over SystemConfigs.
    static method Orient(local: uint32, ids: seq<uint32>) returns (localIndex: int, passive: map<uint32, bool>)
      requires Distinct(ids)
      ensures passive.Keys == Members(ids)
      ensures if local in ids then 0 <= localIndex < |ids| && ids[localIndex] == local else localIndex == -1
      ensures forall j :: 0 <= j < |ids| ==>
                ids[j] in passive && (passive[ids[j]] <==> localIndex == -1 || j < localIndex)
    {
      var findSelf := false;
      localIndex, passive := -1, map[];
      for i := 0 to |ids|
        invariant passive.Keys == Members(ids[..i])
        invariant findSelf == (localIndex != -1)
        invariant if findSelf then 0 <= localIndex < i && ids[localIndex] == local else local !in ids[..i]
        invariant forall j :: 0 <= j < i ==> ids[j] in passive.Keys && passive[ids[j]] == (!findSelf || j < localIndex)
      {
        if !findSelf && local == ids[i] {
          findSelf, localIndex := true, i;
        }
        OneMore(ids, i);
        passive := passive[ids[i] := !findSelf];
      }
      assert ids[..|ids|] == ids;
    }

    /** start, up to the polling: a server unless this is the last system, a client for each system before it. */
    method Start(ghost me: nat)
      requires Oriented(me)
      modifies this`server, this`clients
      ensures Oriented(me) && (server <==> me < |ids| - 1) && clients == ids[..me]
    {
      server := localSystemIndex < |passive| - 1;
      clients := [];
      if localSystemIndex != 0 {
        for index := 0 to |ids|
          invariant index <= me && clients == ids[..index] && server == (me < |ids| - 1)
        {
          if index >= localSystemIndex { break; }
          clients := clients + [ids[index]];
        }
      }
    }
  }

  // What a started node does: the systems it dials, whether it listens, and the systems it takes a
  // registration from (those that are not passive).
  datatype Role = Role(dials: seq<uint32>, listens: bool, passive: map<uint32, bool>)
  {
    predicate Accepts(id: uint32) { listens && id in passive && !passive[id] }
  }

  ghost predicate RoleOf(ids: seq<uint32>, me: nat, r: Role) {
    && me < |ids| && r.dials == ids[..me] && (r.listens <==> me < |ids| - 1) && r.passive.Keys == Members(ids)
    && forall i :: 0 <= i < |ids| ==> ids[i] in r.passive && (r.passive[ids[i]] <==> i < me)
  }

  method StartNode(local: uint32, ids: seq<uint32>, ghost me: nat) returns (r: Role)
    requires Distinct(ids) && me < |ids| && ids[me] == local
    ensures RoleOf(ids, me, r)
  {
    var cn := new ClusterNet(local, ids);
    cn.Start(me);
    r := Role(cn.clients, cn.server, cn.passive);
  }

  /** Over all nodes started from the same list: of two different systems exactly one dials the other,
      the one later in the list; the other listens and takes its registration, which the dialler would
      not; the last of the list does not listen; and doSend looks only at info.cli on the dialler's side,
      only at info.session on the other. */
  lemma FullMesh(ids: seq<uint32>, i: nat, j: nat, earlier: Role, later: Role, cli: Option<bool>, session: Option<bool>)
    requires Distinct(ids) && i < |ids| && j < |ids| && i != j && RoleOf(ids, i, earlier) && RoleOf(ids, j, later)
    ensures ids[i] in later.dials <==> i < j
    ensures ids[i] in later.dials <==> ids[j] !in earlier.dials
    ensures ids[i] in later.dials <==> earlier.Accepts(ids[j])
    ensures i == |ids| - 1 ==> !earlier.listens
    ensures i < j ==> DoSend(SystemInfo(later.passive[ids[i]], cli, session)) == DoSend(SystemInfo(true, cli, None))
    ensures i < j ==>
              DoSend(SystemInfo(earlier.passive[ids[j]], cli, session)) == DoSend(SystemInfo(false, None, session))
  {
    assert ids[i] in ids[..j] <==> i < j by {
      if i < j { assert ids[..j][i] == ids[i]; }
    }
    assert ids[j] in ids[..i] <==> j < i by {
      if j < i { assert ids[..i][j] == ids[j]; }
    }
  }

  // The client that Start made for this id has info.cli set.
  predicate ClientFilled(s: Cluster.Node, r: Role, id: uint32) {
    exists i :: 0 <= i < |r.dials| && i < |s.clients| && r.dials[i] == id && s.clients[i].cli
  }

  // The info of the system at position p of a node in state s; sent is what SendMessage returns on
  // whichever connection there is.
  function InfoAt(s: Cluster.Node, ids: seq<uint32>, r: Role, p: nat, sent: bool): SystemInfo
    requires p < |s.peers| == |ids| && ids[p] in r.passive
  {
    SystemInfo(r.passive[ids[p]],
               if ClientFilled(s, r, ids[p]) then Some(sent) else None,
               if s.peers[p].session.Some? then Some(sent) else None)
  }

  ghost predicate InfosOf(infos: map<uint32, SystemInfo>, s: Cluster.Node, ids: seq<uint32>, r: Role, sent: bool) {
    && infos.Keys == r.passive.Keys && |s.peers| == |ids|
    && forall p :: 0 <= p < |ids| ==> ids[p] in r.passive && infos[ids[p]] == InfoAt(s, ids, r, p, sent)
  }

  // doSend looks its target up first; a nil info is dereferenced.
  datatype Sent = NilDereference | Returns(code: Option<int>)

  function DoSendTo(infos: map<uint32, SystemInfo>, id: uint32): Sent {
    if id in infos then Returns(DoSend(infos[id])) else NilDereference
  }

  lemma FilledMeansCli(ids: seq<uint32>, s: Cluster.Node, r: Role, p: nat)
    requires Distinct(ids) && Cluster.Shape(s) && |s.peers| == |ids| && RoleOf(ids, s.local, r) && p < |ids|
    ensures ClientFilled(s, r, ids[p]) <==> p < s.local && s.clients[p].cli
  {
    if p < s.local { assert r.dials[p] == ids[p]; }
  }

  // No register handler has touched the systems before the local one.
  ghost predicate EarlierUntouched(s: Cluster.Node) {
    forall p :: 0 <= p < s.local && p < |s.peers| ==> s.peers[p] == Cluster.Peer(None, None)
  }

  lemma EarlierStayUntouched(s: Cluster.Node, a: Cluster.Action, s': Cluster.Node)
    requires Cluster.Inv(s) && EarlierUntouched(s) && Cluster.Act(s, a, s')
    ensures EarlierUntouched(s')
  {
    if a.Handle? { assert Cluster.HandlerOk(s, a.k); }
  }

  lemma {:induction false} EarlierAlwaysUntouched(tr: seq<Cluster.Node>, i: nat)
    requires Cluster.Run(tr) && i < |tr|
    ensures EarlierUntouched(tr[i])
  {
    if i == 0 {
    } else {
      EarlierAlwaysUntouched(tr, i - 1);
      Cluster.InvHolds(tr, i - 1);
      assert Cluster.Step(tr[i - 1], tr[i]);
      var a :| Cluster.Act(tr[i - 1], a, tr[i]);
      EarlierStayUntouched(tr[i - 1], a, tr[i]);
    }
  }

  /** In every state of every run of the handlers and clients of a node started from the list: the
      clients that Start made fill info.cli only of passive systems, the register handlers info.session
      only of the others, so doSend reads the field that is filled; it returns nil exactly when that
      system is linked and the link takes the message. */
  lemma DoSendFollowsHandshake(ids: seq<uint32>, tr: seq<Cluster.Node>, i: nat, r: Role,
                               infos: map<uint32, SystemInfo>, sent: bool, p: nat)
    requires Distinct(ids) && Cluster.Run(tr) && i < |tr| && p < |ids|
    requires RoleOf(ids, tr[i].local, r) && InfosOf(infos, tr[i], ids, r, sent)
    ensures Cluster.Shape(tr[i]) && ids[p] in infos
    ensures var info := infos[ids[p]];
            && (info.cli.Some? ==> info.passive) && (info.session.Some? ==> !info.passive)
            && (info.cli.Some? || info.session.Some? <==> Cluster.Linked(tr[i], p))
            && (DoSendTo(infos, ids[p]) == Returns(None) <==> Cluster.Linked(tr[i], p) && sent)
            && DoSendTo(infos, ids[p]) in {Returns(None), Returns(Some(SEND_FAILED))}
  {
    Cluster.InvHolds(tr, i);
    EarlierAlwaysUntouched(tr, i);
    FilledMeansCli(ids, tr[i], r, p);
  }

  /** doSend returns at all exactly for the systems of the list. A reference to any other system, which
      CreateActorRefEx does not refuse, makes it dereference nil. */
  lemma DoSendNeedsKnownSystem(ids: seq<uint32>, s: Cluster.Node, r: Role, infos: map<uint32, SystemInfo>,
                               sent: bool, id: uint32)
    requires RoleOf(ids, s.local, r) && InfosOf(infos, s, ids, r, sent)
    ensures DoSendTo(infos, id).Returns? <==> id in ids
  {
    assert id in Members(ids) <==> id in ids;
  }
}
