/** Router.Router of router.go for envelopes with many targets (EnvelopeBatchSend and EnvelopeNotify):
    one envelope per target system, in the arbitrary order of ranging over a map. */
module Routing {
  import opened Actors
  import opened Basics

  type ErrorCode = int

  // message stands for everything both envelopes carry unchanged into each part.
  datatype Envelope<M> = Envelope(from: Option<ActorRef>, to: seq<ActorRef>, message: M)

  datatype Part<M> = Part(systemId: uint32, envelope: Envelope<M>)

  // The targets on one system, in their order.
  function On(refs: seq<ActorRef>, systemId: uint32): seq<ActorRef> {
    if refs == [] then []
    else On(refs[..|refs| - 1], systemId) + if refs[|refs| - 1].systemId == systemId then [refs[|refs| - 1]] else []
  }

  function Systems(refs: seq<ActorRef>): set<uint32> { set r | r in refs :: r.systemId }

  ghost predicate Covers<M>(parts: seq<Part<M>>, id: uint32) { exists i :: 0 <= i < |parts| && parts[i].systemId == id }

  lemma CoversMore<M>(parts: seq<Part<M>>, p: Part<M>, id: uint32)
    ensures Covers(parts + [p], id) <==> Covers(parts, id) || p.systemId == id
  {
    if i :| 0 <= i < |parts| && parts[i].systemId == id { assert (parts + [p])[i].systemId == id; }
    if p.systemId == id { assert (parts + [p])[|parts|].systemId == id; }
  }

  // A way the router may send e to the given systems: each once, in any order, with its targets.
  ghost predicate RoutesTo<M>(e: Envelope<M>, parts: seq<Part<M>>, systems: set<uint32>) {
    && (forall i :: 0 <= i < |parts| ==>
          parts[i].systemId in systems && parts[i].envelope == e.(to := On(e.to, parts[i].systemId)))
    && (forall id :: id in systems ==> Covers(parts, id))
    && (forall i, j :: 0 <= i < j < |parts| ==> parts[i].systemId != parts[j].systemId)
  }

  ghost predicate Routes<M>(e: Envelope<M>, parts: seq<Part<M>>) { RoutesTo(e, parts, Systems(e.to)) }

  lemma RouteOneMore<M>(e: Envelope<M>, parts: seq<Part<M>>, systems: set<uint32>, id: uint32)
    requires RoutesTo(e, parts, systems) && id !in systems
    ensures RoutesTo(e, parts + [Part(id, e.(to := On(e.to, id)))], systems + {id})
  {
    var p := Part(id, e.(to := On(e.to, id)));
    forall s | s in systems + {id} ensures Covers(parts + [p], s) { CoversMore(parts, p, s); }
  }

  // What Router returns: err is overwritten by each clusterNet.Send, failed or not.
  function LastError<M>(parts: seq<Part<M>>, localId: uint32, send: uint32 -> Option<ErrorCode>): Option<ErrorCode> {
    if parts == [] then None
    else
      var last := parts[|parts| - 1];
      if last.systemId == localId then LastError(parts[..|parts| - 1], localId, send) else send(last.systemId)
  }

  /** local and remote are the envelopes given to LocalRouter and to clusterNet.Send: one for each system
      of the targets, with that system's targets and everything else unchanged; together they hold every
      target, and the result is that of the last remote send. */
  method Route<M>(e: Envelope<M>, localId: uint32, send: uint32 -> Option<ErrorCode>)
    returns (ghost parts: seq<Part<M>>, local: seq<Envelope<M>>, remote: seq<Part<M>>, err: Option<ErrorCode>)
    ensures Routes(e, parts) && err == LastError(parts, localId, send)
    ensures remote == Remote(parts, localId)
    ensures local == if localId in Systems(e.to) then [e.(to := On(e.to, localId))] else []
    ensures forall i, j :: 0 <= i < j < |remote| ==> remote[i].systemId != remote[j].systemId
    ensures forall id :: Covers(remote, id) <==> id != localId && exists r :: r in e.to && r.systemId == id
    ensures forall i :: 0 <= i < |remote| ==> Carries(remote[i].envelope, e, remote[i].systemId)
    ensures |local| <= 1 && (|local| == 1 <==> exists r :: r in e.to && r.systemId == localId)
    ensures |local| == 1 ==> Carries(local[0], e, localId)
    ensures (if local == [] then multiset{} else multiset(local[0].to)) + Targets(remote) == multiset(e.to)
    ensures err == if remote == [] then None else send(remote[|remote| - 1].systemId)
  {
    parts, local, remote, err := RouteGroups(e, localId, send);
    RouteSends(e, parts, localId, send);
    OnCarries(e, localId);
  }

  method RouteGroups<M>(e: Envelope<M>, localId: uint32, send: uint32 -> Option<ErrorCode>)
    returns (ghost parts: seq<Part<M>>, local: seq<Envelope<M>>, remote: seq<Part<M>>, err: Option<ErrorCode>)
    ensures Routes(e, parts) && err == LastError(parts, localId, send)
    ensures remote == Remote(parts, localId)
    ensures local == if localId in Systems(e.to) then [e.(to := On(e.to, localId))] else []
  {
    var groups := GroupBySystem(e.to);
    parts, local, remote, err := [], [], [], None;
    var todo := groups.Keys;
    while todo != {}
      invariant todo <= groups.Keys && RoutesTo(e, parts, groups.Keys - todo)
      invariant err == LastError(parts, localId, send) && remote == Remote(parts, localId)
      invariant local == if localId in groups.Keys - todo then [e.(to := On(e.to, localId))] else []
    {
      var systemId :| systemId in todo;
      var part := Part(systemId, e.(to := groups[systemId]));
      RouteOneMore(e, parts, groups.Keys - todo, systemId);
      assert (parts + [part])[..|parts|] == parts;
      parts := parts + [part];
      if systemId == localId {
        local := local + [part.envelope];
      } else {
        remote, err := remote + [part], send(systemId);
      }
      assert groups.Keys - (todo - {systemId}) == groups.Keys - todo + {systemId};
      todo := todo - {systemId};
    }
  }

  // The part of e for one system: its targets, in order and as often as they occur in e, nothing else changed.
  ghost predicate Carries<M>(part: Envelope<M>, e: Envelope<M>, systemId: uint32) {
    && part.from == e.from && part.message == e.message && part.to == On(e.to, systemId)
    && (forall r :: multiset(part.to)[r] == if r.systemId == systemId then multiset(e.to)[r] else 0)
  }

  lemma OnCarries<M>(e: Envelope<M>, systemId: uint32)
    ensures Carries(e.(to := On(e.to, systemId)), e, systemId)
  {
    forall r ensures multiset(On(e.to, systemId))[r] == if r.systemId == systemId then multiset(e.to)[r] else 0 {
      CountOn(e.to, systemId, r);
    }
  }

  /** Dividing the targets keeps their order: a list after a list is divided one after the other. */
  lemma {:induction false} OnKeepsOrder(a: seq<ActorRef>, b: seq<ActorRef>, id: uint32)
    ensures On(a + b, id) == On(a, id) + On(b, id)
    ensures |a| == 1 ==> On(a, id) == if a[0].systemId == id then a else []
  {
    if b == [] {
      assert a + b == a;
    } else {
      var init, last := b[..|b| - 1], b[|b| - 1];
      OnKeepsOrder(a, init, id);
      assert (a + b)[..|a + b| - 1] == a + init && (a + b)[|a + b| - 1] == last;
    }
  }

  lemma RouteSends<M>(e: Envelope<M>, parts: seq<Part<M>>, localId: uint32, send: uint32 -> Option<ErrorCode>)
    requires Routes(e, parts)
    ensures var remote := Remote(parts, localId);
            && (forall i, j :: 0 <= i < j < |remote| ==> remote[i].systemId != remote[j].systemId)
            && (forall id :: Covers(remote, id) <==> id != localId && exists r :: r in e.to && r.systemId == id)
            && (forall i :: 0 <= i < |remote| ==> Carries(remote[i].envelope, e, remote[i].systemId))
            && (if localId in Systems(e.to) then multiset(On(e.to, localId)) else multiset{}) + Targets(remote)
               == multiset(e.to)
            && LastError(parts, localId, send)
               == if remote == [] then None else send(remote[|remote| - 1].systemId)
  {
    var remote := Remote(parts, localId);
    RemoteParts(parts, localId, send);
    forall id ensures Covers(remote, id) <==> id != localId && exists r :: r in e.to && r.systemId == id {
      RemoteCovers(parts, localId, id);
    }
    forall i | 0 <= i < |remote| ensures Carries(remote[i].envelope, e, remote[i].systemId) {
      assert remote[i] in parts;
      OnCarries(e, remote[i].systemId);
    }
    RemoteTargets(e, parts, localId);
  }

  lemma {:induction false} RemoteParts<M>(parts: seq<Part<M>>, localId: uint32, send: uint32 -> Option<ErrorCode>)
    requires forall i, j :: 0 <= i < j < |parts| ==> parts[i].systemId != parts[j].systemId
    ensures var remote := Remote(parts, localId);
            && (forall p :: p in remote ==> p in parts && p.systemId != localId)
            && (forall i, j :: 0 <= i < j < |remote| ==> remote[i].systemId != remote[j].systemId)
            && LastError(parts, localId, send)
               == if remote == [] then None else send(remote[|remote| - 1].systemId)
  {
    if parts == [] {
    } else {
      var init, last := parts[..|parts| - 1], parts[|parts| - 1];
      RemoteParts(init, localId, send);
      forall p | p in Remote(init, localId) ensures p.systemId != last.systemId { assert p in init; }
    }
  }

  lemma {:induction false} RemoteCovers<M>(parts: seq<Part<M>>, localId: uint32, id: uint32)
    ensures Covers(Remote(parts, localId), id) <==> Covers(parts, id) && id != localId
  {
    if parts == [] {
    } else {
      var init, last := parts[..|parts| - 1], parts[|parts| - 1];
      RemoteCovers(init, localId, id);
      CoversMore(init, last, id);
      CoversMore(Remote(init, localId), last, id);
      assert parts == init + [last];
      if last.systemId == localId { assert Remote(parts, localId) == Remote(init, localId); }
    }
  }

  lemma RemoteTargets<M>(e: Envelope<M>, parts: seq<Part<M>>, localId: uint32)
    requires Routes(e, parts)
    ensures (if localId in Systems(e.to) then multiset(On(e.to, localId)) else multiset{})
            + Targets(Remote(parts, localId)) == multiset(e.to)
  {
    var here := if localId in Systems(e.to) then multiset(On(e.to, localId)) else multiset{};
    RemoteShape(e, parts, localId);
    forall r: ActorRef ensures here[r] + Targets(Remote(parts, localId))[r] == multiset(e.to)[r] {
      RemoteTarget(e, parts, localId, r);
    }
    SameCounts(here, Targets(Remote(parts, localId)), multiset(e.to));
  }

  lemma SameCounts<T>(a: multiset<T>, b: multiset<T>, c: multiset<T>)
    requires forall x :: a[x] + b[x] == c[x]
    ensures a + b == c
  {
    assert forall x :: (a + b)[x] == a[x] + b[x];
  }

  lemma RemoteShape<M>(e: Envelope<M>, parts: seq<Part<M>>, localId: uint32)
    requires Routes(e, parts)
    ensures var remote := Remote(parts, localId);
            && (forall p :: p in remote ==> p.envelope.to == On(e.to, p.systemId))
            && (forall i, j :: 0 <= i < j < |remote| ==> remote[i].systemId != remote[j].systemId)
  {
    RemoteParts(parts, localId, _ => None);
    forall p | p in Remote(parts, localId) ensures p.envelope.to == On(e.to, p.systemId) { assert p in parts; }
  }

  lemma RemoteTarget<M>(e: Envelope<M>, parts: seq<Part<M>>, localId: uint32, r: ActorRef)
    requires Routes(e, parts)
    requires var remote := Remote(parts, localId);
             && (forall p :: p in remote ==> p.envelope.to == On(e.to, p.systemId))
             && (forall i, j :: 0 <= i < j < |remote| ==> remote[i].systemId != remote[j].systemId)
    ensures (if localId in Systems(e.to) then multiset(On(e.to, localId)) else multiset{})[r]
            + Targets(Remote(parts, localId))[r] == multiset(e.to)[r]
  {
    CountTargets(e, Remote(parts, localId), r);
    RemoteCovers(parts, localId, r.systemId);
    CountOn(e.to, localId, r);
    if r in e.to { assert r.systemId in Systems(e.to) && Covers(parts, r.systemId); }
  }

  // groups[systemId] = append(groups[systemId], actorRef) for every target.
  method GroupBySystem(refs: seq<ActorRef>) returns (groups: map<uint32, seq<ActorRef>>)
    ensures groups.Keys == Systems(refs)
    ensures forall id :: id in groups ==> groups[id] == On(refs, id)
  {
    groups := map[];
    for i := 0 to |refs|
      invariant groups.Keys == Systems(refs[..i])
      invariant forall id :: Group(groups, id) == On(refs[..i], id)
    {
      var systemId := refs[i].systemId;
      OneMoreTarget(refs[..i], refs[i]);
      assert refs[..i + 1] == refs[..i] + [refs[i]];
      groups := groups[systemId := Group(groups, systemId) + [refs[i]]];
    }
    assert refs[..|refs|] == refs;
    assert forall id :: id in groups ==> groups[id] == Group(groups, id);
  }

  lemma OneMoreTarget(refs: seq<ActorRef>, r: ActorRef)
    ensures Systems(refs + [r]) == Systems(refs) + {r.systemId}
    ensures forall id :: On(refs + [r], id) == On(refs, id) + if r.systemId == id then [r] else []
  {
    assert (refs + [r])[..|refs|] == refs;
    assert r in refs + [r];
    forall id ensures id in Systems(refs + [r]) <==> id in Systems(refs) + {r.systemId} {
      if id in Systems(refs) {
        var q :| q in refs && q.systemId == id;
        assert q in refs + [r];
      }
    }
  }

  function Group(groups: map<uint32, seq<ActorRef>>, id: uint32): seq<ActorRef> {
    if id in groups then groups[id] else []
  }

  function Remote<M>(parts: seq<Part<M>>, localId: uint32): seq<Part<M>> {
    if parts == [] then []
    else
      var last := parts[|parts| - 1];
      Remote(parts[..|parts| - 1], localId) + if last.systemId != localId then [last] else []
  }

  function Targets<M>(parts: seq<Part<M>>): multiset<ActorRef> {
    if parts == [] then multiset{}
    else Targets(parts[..|parts| - 1]) + multiset(parts[|parts| - 1].envelope.to)
  }

  lemma {:induction false} CountOn(refs: seq<ActorRef>, id: uint32, r: ActorRef)
    ensures multiset(On(refs, id))[r] == if r.systemId == id then multiset(refs)[r] else 0
  {
    if refs == [] {
    } else {
      CountOn(refs[..|refs| - 1], id, r);
      assert refs == refs[..|refs| - 1] + [refs[|refs| - 1]];
    }
  }

  lemma CoversLast<M>(parts: seq<Part<M>>, id: uint32)
    requires parts != [] && forall i, j :: 0 <= i < j < |parts| ==> parts[i].systemId != parts[j].systemId
    ensures var init, last := parts[..|parts| - 1], parts[|parts| - 1];
            Covers(parts, id) <==> if last.systemId == id then !Covers(init, id) else Covers(init, id)
  {
    var init, last := parts[..|parts| - 1], parts[|parts| - 1];
    assert parts == init + [last];
    CoversMore(init, last, id);
  }

  lemma {:induction false} CountTargets<M>(e: Envelope<M>, parts: seq<Part<M>>, r: ActorRef)
    requires forall p :: p in parts ==> p.envelope.to == On(e.to, p.systemId)
    requires forall i, j :: 0 <= i < j < |parts| ==> parts[i].systemId != parts[j].systemId
    ensures Targets(parts)[r] == if Covers(parts, r.systemId) then multiset(e.to)[r] else 0
  {
    if parts == [] {
    } else {
      var init, last := parts[..|parts| - 1], parts[|parts| - 1];
      assert forall p :: p in init ==> p in parts;
      CountTargets(e, init, r);
      CountOn(e.to, last.systemId, r);
      CoversLast(parts, r.systemId);
    }
  }

  /** Every target, duplicates included, is in exactly one part: the one for its own system. */
  lemma TargetsConserved<M>(e: Envelope<M>, parts: seq<Part<M>>)
    requires Routes(e, parts)
    ensures Targets(parts) == multiset(e.to)
  {
    forall r: ActorRef ensures Targets(parts)[r] == multiset(e.to)[r] {
      CountTargets(e, parts, r);
      if r in e.to {
        assert r.systemId in Systems(e.to);
        assert Covers(parts, r.systemId);
      }
    }
  }

  /** A non-nil result comes from a remote system whose send failed. */
  lemma {:induction false} ErrorIsReal<M>(parts: seq<Part<M>>, localId: uint32, send: uint32 -> Option<ErrorCode>)
    requires LastError(parts, localId, send).Some?
    ensures exists p :: p in parts && p.systemId != localId && send(p.systemId) == LastError(parts, localId, send)
  {
    var last := parts[|parts| - 1];
    if last.systemId == localId {
      var init := parts[..|parts| - 1];
      ErrorIsReal(init, localId, send);
      var p :| p in init && p.systemId != localId && send(p.systemId) == LastError(parts, localId, send);
      assert p in parts;
    } else {
      assert last in parts;
    }
  }

  ghost predicate AllOrdersReport<M(!new)>(e: Envelope<M>, localId: uint32, send: uint32 -> Option<ErrorCode>) {
    forall parts: seq<Part<M>> :: Routes(e, parts) ==> LastError(parts, localId, send).Some?
  }

  function RemoteSystems<M>(e: Envelope<M>, localId: uint32): set<uint32> { Systems(e.to) - {localId} }

  predicate SomeSendFails<M>(e: Envelope<M>, localId: uint32, send: uint32 -> Option<ErrorCode>) {
    exists id :: id in RemoteSystems(e, localId) && send(id).Some?
  }

  // The promise: when a send fails, Router returns an error, whatever the order of the map.
  ghost predicate NeverHides<M(!new)>(e: Envelope<M>, localId: uint32, send: uint32 -> Option<ErrorCode>) {
    SomeSendFails(e, localId, send) ==> AllOrdersReport(e, localId, send)
  }

  // Whatever the order: some target is remote and every remote send fails.
  lemma SureToReport<M(!new)>(e: Envelope<M>, localId: uint32, send: uint32 -> Option<ErrorCode>)
    ensures var remote := RemoteSystems(e, localId);
            AllOrdersReport(e, localId, send) <==> remote != {} && forall id :: id in remote ==> send(id).Some?
  {
    var remote := RemoteSystems(e, localId);
    if remote != {} && forall id :: id in remote ==> send(id).Some? {
      forall parts: seq<Part<M>> | Routes(e, parts) ensures LastError(parts, localId, send).Some? {
        var id :| id in remote;
        assert Covers(parts, id);
        SomeRemoteLast(e, parts, localId, send);
      }
    } else if remote == {} {
      var parts := AnyOrder(e, Systems(e.to));
      assert forall id :: id in Systems(e.to) ==> id !in remote;
      OnlyLocal(parts, localId, send);
      assert LastError(parts, localId, send).None?;
    } else {
      var id :| id in remote && send(id).None?;
      var others := AnyOrder(e, Systems(e.to) - {id});
      RouteOneMore(e, others, Systems(e.to) - {id}, id);
      var parts := others + [Part(id, e.(to := On(e.to, id)))];
      assert Systems(e.to) - {id} + {id} == Systems(e.to);
      assert Routes(e, parts) && LastError(parts, localId, send).None?;
    }
  }

  /** For given outcomes of the sends the promise is kept exactly when the remote sends all succeed or
      all fail: one success among failures can come last and overwrite the error. */
  lemma HidesOnlyMixed<M(!new)>(e: Envelope<M>, localId: uint32, send: uint32 -> Option<ErrorCode>)
    ensures NeverHides(e, localId, send) <==>
              !SomeSendFails(e, localId, send) || forall id :: id in RemoteSystems(e, localId) ==> send(id).Some?
  {
    SureToReport(e, localId, send);
  }

  /** What a caller can know before the call: whatever the sends do, the promise is kept exactly when
      the targets are on at most one remote system. */
  lemma FailuresReported<M(!new)>(e: Envelope<M>, localId: uint32)
    ensures (forall send: uint32 -> Option<ErrorCode> :: NeverHides(e, localId, send)) <==>
              |RemoteSystems(e, localId)| <= 1
  {
    var remote := RemoteSystems(e, localId);
    if |remote| <= 1 {
      forall send: uint32 -> Option<ErrorCode> ensures NeverHides(e, localId, send) {
        HidesOnlyMixed(e, localId, send);
        if id :| id in remote && send(id).Some? { OnlyMember(remote, id); }
      }
    } else {
      var a :| a in remote;
      assert |remote - {a}| == |remote| - 1;
      var b :| b in remote - {a};
      var send: uint32 -> Option<ErrorCode> := id => if id == a then Some(0) else None;
      assert send(a).Some? && send(b).None?;
      HidesOnlyMixed(e, localId, send);
      assert !NeverHides(e, localId, send);
    }
  }

  lemma OnlyMember<T>(s: set<T>, x: T)
    requires |s| <= 1 && x in s
    ensures s == {x}
  {
    assert |s - {x}| == |s| - 1;
    assert s == s - {x} + {x};
  }

  /** It happens: of two remote systems one fails, the other succeeds and comes last; Router returns nil. */
  lemma FailureHidden<M>(message: M, a: ActorRef, b: ActorRef, localId: uint32, code: ErrorCode)
    returns (parts: seq<Part<M>>, send: uint32 -> Option<ErrorCode>)
    requires a.systemId != b.systemId && localId !in {a.systemId, b.systemId}
    ensures Routes(Envelope(None, [a, b], message), parts) && |parts| == 2
    ensures parts[0].systemId == a.systemId && send(a.systemId) == Some(code)
    ensures LastError(parts, localId, send) == None
  {
    var e := Envelope(None, [a, b], message);
    var none: seq<Part<M>> := [];
    var first := Part(a.systemId, e.(to := On(e.to, a.systemId)));
    var last := Part(b.systemId, e.(to := On(e.to, b.systemId)));
    RouteOneMore(e, none, {}, a.systemId);
    RouteOneMore(e, none + [first], {} + {a.systemId}, b.systemId);
    parts := none + [first] + [last];
    send := id => if id == a.systemId then Some(code) else None;
    assert e.to[0] == a && e.to[1] == b;
    assert Systems(e.to) == {} + {a.systemId} + {b.systemId};
  }

  lemma {:induction false} AnyOrder<M>(e: Envelope<M>, systems: set<uint32>) returns (parts: seq<Part<M>>)
    ensures RoutesTo(e, parts, systems)
  {
    if systems == {} {
      parts := [];
    } else {
      var id :| id in systems;
      parts := AnyOrder(e, systems - {id});
      RouteOneMore(e, parts, systems - {id}, id);
      parts := parts + [Part(id, e.(to := On(e.to, id)))];
      assert systems - {id} + {id} == systems;
    }
  }

  lemma {:induction false} OnlyLocal<M>(parts: seq<Part<M>>, localId: uint32, send: uint32 -> Option<ErrorCode>)
    requires forall i :: 0 <= i < |parts| ==> parts[i].systemId == localId
    ensures LastError(parts, localId, send) == None
  {
    if parts == [] {
    } else {
      OnlyLocal(parts[..|parts| - 1], localId, send);
    }
  }

  lemma {:induction false} SomeRemoteLast<M>(e: Envelope<M>, parts: seq<Part<M>>, localId: uint32,
                                             send: uint32 -> Option<ErrorCode>)
    requires exists i :: 0 <= i < |parts| && parts[i].systemId != localId
    requires forall i :: 0 <= i < |parts| && parts[i].systemId != localId ==> send(parts[i].systemId).Some?
    ensures LastError(parts, localId, send).Some?
  {
    var init := parts[..|parts| - 1];
    if parts[|parts| - 1].systemId == localId {
      var i :| 0 <= i < |parts| && parts[i].systemId != localId;
      assert init[i].systemId != localId;
      SomeRemoteLast(e, init, localId, send);
    }
  }
}
