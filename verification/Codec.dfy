/** clusterNet.Send and clusterNet.OnMessage of cluster_net.go: nine kinds of envelope to packages and back. */
module Codec {
  import opened Actors
  import opened Basics
  import opened Registries

  const LEN_ERROR := 104
  const UNKNOWN_ENVELOPE := 105

  type Ref = Option<ActorRef>

  // error is nil or a VAError with its code.
  datatype Envelope<B> =
    | Send(from: Ref, to: Ref, message: Value<B>)
    | BatchSend(from: Ref, tos: seq<ActorRef>, messages: seq<Value<B>>)
    | RequestAsync(from: Ref, to: Ref, message: Value<B>, callbackId: uint32, callbackAddress: uint64)
    | ResponseAsync(from: Ref, to: Ref, error: Option<int32>, message: Value<B>, callbackId: uint32,
                    callbackAddress: uint64)
    | Request(from: Ref, to: Ref, message: Value<B>, requestId: uint32)
    | Response(from: Ref, to: Ref, error: Option<int32>, message: Value<B>, requestId: uint32)
    | Watch(from: Ref, to: Ref, watchType: uint32, isWatch: bool)
    | Notify(from: Ref, tos: seq<ActorRef>, notifyType: uint32, watched: Ref, watchType: uint32, message: Value<B>)
    | FireNotify(from: Ref, to: Ref, notifyType: uint32, watchType: uint32, message: Value<B>)
    | LocalOnly    // envelope types with no package: the switch's default

  // protocol.ActorRef widens the group slot to 32 bits.
  datatype ProtoRef = ProtoRef(systemId: uint32, groupSlot: uint32, actorType: uint32, actorId: ActorId)

  function RefToProto(r: ActorRef): ProtoRef { ProtoRef(r.systemId, r.groupSlot, r.actorType, r.actorId) }

  function RefFromProto(p: ProtoRef): ActorRef { ActorRef(p.systemId, p.groupSlot % 0x1_0000, p.actorType, p.actorId) }

  function ToProto(r: Ref): Option<ProtoRef> { if r.None? then None else Some(RefToProto(r.value)) }

  function FromProto(p: Option<ProtoRef>): Ref { if p.None? then None else Some(RefFromProto(p.value)) }

  function AllToProto(rs: seq<ActorRef>): seq<ProtoRef> {
    seq(|rs|, i requires 0 <= i < |rs| => RefToProto(rs[i]))
  }

  function AllFromProto(ps: seq<ProtoRef>): seq<ActorRef> {
    seq(|ps|, i requires 0 <= i < |ps| => RefFromProto(ps[i]))
  }

  datatype Package =
    | PkgSend(from: Option<ProtoRef>, to: Option<ProtoRef>, message: WireMessage)
    | PkgBatchSend(from: Option<ProtoRef>, tos: seq<ProtoRef>, messages: seq<WireMessage>)
    | PkgRequestAsync(from: Option<ProtoRef>, to: Option<ProtoRef>, message: WireMessage,
                      callbackId: uint32, callbackAddress: uint64)
    | PkgResponseAsync(from: Option<ProtoRef>, to: Option<ProtoRef>, code: int32, answer: Option<WireMessage>,
                       callbackId: uint32, callbackAddress: uint64)
    | PkgRequest(from: Option<ProtoRef>, to: Option<ProtoRef>, message: WireMessage, requestId: uint32)
    | PkgResponse(from: Option<ProtoRef>, to: Option<ProtoRef>, code: int32, answer: Option<WireMessage>,
                  requestId: uint32)
    | PkgWatch(from: Option<ProtoRef>, to: Option<ProtoRef>, watchType: uint32, isWatch: bool)
    | PkgNotify(from: Option<ProtoRef>, tos: seq<ProtoRef>, notifyType: uint32, watched: Option<ProtoRef>,
                watchType: uint32, message: WireMessage)
    | PkgFireNotify(from: Option<ProtoRef>, to: Option<ProtoRef>, notifyType: uint32, watchType: uint32,
                    message: WireMessage)

  // protocol.PkgType
  function PkgType(p: Package): (t: nat)
    ensures 1 <= t <= 9
  {
    match p
    case PkgSend(_, _, _) => 1
    case PkgBatchSend(_, _, _) => 2
    case PkgRequestAsync(_, _, _, _, _) => 3
    case PkgResponseAsync(_, _, _, _, _, _) => 4
    case PkgRequest(_, _, _, _) => 5
    case PkgResponse(_, _, _, _, _) => 6
    case PkgWatch(_, _, _, _) => 7
    case PkgNotify(_, _, _, _, _, _) => 8
    case PkgFireNotify(_, _, _, _, _) => 9
  }

  function CodeOf(error: Option<int32>): int32 { if error.None? then 0 else error.value }

  // errorCodeToVAError
  function ErrorOf(code: int32): Option<int32> { if code == 0 then None else Some(code) }

  // docs/protocol.md's numbers for the envelopes.
  function Kind<B>(e: Envelope<B>): nat {
    if e.Send? then 1 else if e.BatchSend? then 2 else if e.RequestAsync? then 3 else if e.ResponseAsync? then 4
    else if e.Request? then 5 else if e.Response? then 6 else if e.Watch? then 7 else if e.Notify? then 8
    else if e.FireNotify? then 9 else 0
  }

  // The same reference; a group slot of the wire that does not fit loses its upper half.
  predicate SameRef(p: ProtoRef, r: ActorRef) {
    && p.systemId == r.systemId && p.actorType == r.actorType && p.actorId == r.actorId
    && p.groupSlot % 0x1_0000 == r.groupSlot
  }

  predicate SameOptional(p: Option<ProtoRef>, r: Ref) {
    if p.Some? && r.Some? then SameRef(p.value, r.value) else p.None? && r.None?
  }

  predicate SameAll(ps: seq<ProtoRef>, rs: seq<ActorRef>) {
    |ps| == |rs| && forall i :: 0 <= i < |ps| ==> SameRef(ps[i], rs[i])
  }

  predicate SameKind<B>(p: Package, e: Envelope<B>) {
    match p
    case PkgSend(_, _, _) => e.Send?
    case PkgBatchSend(_, _, _) => e.BatchSend?
    case PkgRequestAsync(_, _, _, _, _) => e.RequestAsync?
    case PkgResponseAsync(_, _, _, _, _, _) => e.ResponseAsync?
    case PkgRequest(_, _, _, _) => e.Request?
    case PkgResponse(_, _, _, _, _) => e.Response?
    case PkgWatch(_, _, _, _) => e.Watch?
    case PkgNotify(_, _, _, _, _, _) => e.Notify?
    case PkgFireNotify(_, _, _, _, _) => e.FireNotify?
  }

  // Package and envelope agree in every field but the messages and the error.
  predicate Agrees<B>(p: Package, e: Envelope<B>)
    requires SameKind(p, e)
  {
    && SameOptional(p.from, e.from)
    && (if e.BatchSend? || e.Notify? then SameAll(p.tos, e.tos) else SameOptional(p.to, e.to))
    && (e.RequestAsync? || e.ResponseAsync? ==>
          p.callbackId == e.callbackId && p.callbackAddress == e.callbackAddress)
    && (e.Request? || e.Response? ==> p.requestId == e.requestId)
    && (e.Watch? || e.Notify? || e.FireNotify? ==> p.watchType == e.watchType)
    && (e.Notify? || e.FireNotify? ==> p.notifyType == e.notifyType)
    && (e.Watch? ==> p.isWatch == e.isWatch)
    && (e.Notify? ==> SameOptional(p.watched, e.watched))
  }

  // What Send puts into a package: all fields, the marshalled messages, and code 0 for no error.
  predicate Describes<B>(r: Registry, c: Coding<B>, p: Package, e: Envelope<B>)
    requires SameKind(p, e)
  {
    && Agrees(p, e)
    && (e.BatchSend? ==> p.messages == MarshalAll(r, c, e.messages))
    && (!e.BatchSend? && !e.Watch? ==> Result.Ok(MessageIn(p)) == Marshal(r, c, e.message))
    && (e.ResponseAsync? || e.Response? ==>
          p.answer.Some? && p.code == if e.error.Some? then e.error.value else 0)
  }

  // What OnMessage makes of a package: all fields, the unmarshalled messages, nil for an absent answer
  // and for code 0.
  ghost predicate Restores<B>(r: Registry, c: Coding<B>, p: Package, e: Envelope<B>)
    requires SameKind(p, e)
  {
    && Agrees(p, e)
    && (e.BatchSend? ==> e.messages == UnmarshalAll(r, c, p.messages))
    && (!e.BatchSend? && !e.Watch? ==>
          if NoAnswer(p) then e.message == Nil else Some(e.message) == Unmarshal(r, c, MessageIn(p)))
    && (e.ResponseAsync? || e.Response? ==> e.error == if p.code == 0 then None else Some(p.code))
  }

  predicate NoAnswer(p: Package) { (p.PkgResponseAsync? || p.PkgResponse?) && p.answer.None? }

  // The one message of a package that has one.
  function MessageIn(p: Package): WireMessage
    requires !p.PkgBatchSend? && !p.PkgWatch?
  {
    if !p.PkgResponseAsync? && !p.PkgResponse? then p.message
    else if p.answer.Some? then p.answer.value
    else WireMessage(0, [])
  }

  // The switch of Send.
  function Encode<B>(r: Registry, c: Coding<B>, e: Envelope<B>): (p: Result<Package>)
    ensures p.Ok? ==> SameKind(p.value, e) && PkgType(p.value) == Kind(e)
    ensures p == Err(UNKNOWN_ENVELOPE) <==> e.LocalOnly?
    ensures p == Err(LEN_ERROR) <==> e.BatchSend? && MarshalAll(r, c, e.messages) == []
    ensures p.Err? && !e.LocalOnly? && !e.BatchSend? ==> !e.Watch? && Marshal(r, c, e.message) == Err(p.code)
  {
    match e
    case Send(from, to, v) => OnOk(Marshal(r, c, v), m => PkgSend(ToProto(from), ToProto(to), m))
    case BatchSend(from, tos, vs) =>
      var ms := MarshalAll(r, c, vs);
      if ms == [] then Err(LEN_ERROR) else Ok(PkgBatchSend(ToProto(from), AllToProto(tos), ms))
    case RequestAsync(from, to, v, id, address) =>
      OnOk(Marshal(r, c, v), m => PkgRequestAsync(ToProto(from), ToProto(to), m, id, address))
    case ResponseAsync(from, to, error, v, id, address) =>
      OnOk(Marshal(r, c, v), m => PkgResponseAsync(ToProto(from), ToProto(to), CodeOf(error), Some(m), id, address))
    case Request(from, to, v, id) => OnOk(Marshal(r, c, v), m => PkgRequest(ToProto(from), ToProto(to), m, id))
    case Response(from, to, error, v, id) =>
      OnOk(Marshal(r, c, v), m => PkgResponse(ToProto(from), ToProto(to), CodeOf(error), Some(m), id))
    case Watch(from, to, wt, isWatch) => Ok(PkgWatch(ToProto(from), ToProto(to), wt, isWatch))
    case Notify(from, tos, nt, watched, wt, v) =>
      OnOk(Marshal(r, c, v), m => PkgNotify(ToProto(from), AllToProto(tos), nt, ToProto(watched), wt, m))
    case FireNotify(from, to, nt, wt, v) =>
      OnOk(Marshal(r, c, v), m => PkgFireNotify(ToProto(from), ToProto(to), nt, wt, m))
    case LocalOnly => Err(UNKNOWN_ENVELOPE)
  }

  /** A package that Send builds has every field from its envelope. */
  lemma EncodeDescribes<B>(r: Registry, c: Coding<B>, e: Envelope<B>)
    requires Encode(r, c, e).Ok?
    ensures Describes(r, c, Encode(r, c, e).value, e)
  {
    assert SameOptional(ToProto(e.from), e.from);
    if e.BatchSend? || e.Notify? {
      assert SameAll(AllToProto(e.tos), e.tos);
    } else {
      assert SameOptional(ToProto(e.to), e.to);
    }
  }

  function OnOk(m: Result<WireMessage>, build: WireMessage -> Package): Result<Package> {
    match m
    case Err(code) => Err(code)
    case Ok(value) => Ok(build(value))
  }

  // What OnMessage hands to LocalRouter, None when it returns an error.
  function Decode<B>(r: Registry, c: Coding<B>, p: Package): (e: Option<Envelope<B>>)
    ensures e.Some? ==> SameKind(p, e.value) && Restores(r, c, p, e.value)
    ensures e.None? <==>
              !p.PkgBatchSend? && !p.PkgWatch? && !NoAnswer(p) && Unmarshal(r, c, MessageIn(p)).None?
  {
    match p
    case PkgSend(from, to, m) => OnSome(Unmarshal(r, c, m), v => Send(FromProto(from), FromProto(to), v))
    case PkgBatchSend(from, tos, ms) => Some(BatchSend(FromProto(from), AllFromProto(tos), UnmarshalAll(r, c, ms)))
    case PkgRequestAsync(from, to, m, id, address) =>
      OnSome(Unmarshal(r, c, m), v => RequestAsync(FromProto(from), FromProto(to), v, id, address))
    case PkgResponseAsync(from, to, code, answer, id, address) =>
      OnSome(Answer(r, c, answer), v => ResponseAsync(FromProto(from), FromProto(to), ErrorOf(code), v, id, address))
    case PkgRequest(from, to, m, id) => OnSome(Unmarshal(r, c, m), v => Request(FromProto(from), FromProto(to), v, id))
    case PkgResponse(from, to, code, answer, id) =>
      OnSome(Answer(r, c, answer), v => Response(FromProto(from), FromProto(to), ErrorOf(code), v, id))
    case PkgWatch(from, to, wt, isWatch) => Some(Watch(FromProto(from), FromProto(to), wt, isWatch))
    case PkgNotify(from, tos, nt, watched, wt, m) =>
      OnSome(Unmarshal(r, c, m), v => Notify(FromProto(from), AllFromProto(tos), nt, FromProto(watched), wt, v))
    case PkgFireNotify(from, to, nt, wt, m) =>
      OnSome(Unmarshal(r, c, m), v => FireNotify(FromProto(from), FromProto(to), nt, wt, v))
  }

  function OnSome<B>(v: Option<Value<B>>, build: Value<B> -> Envelope<B>): Option<Envelope<B>> {
    match v
    case None => None
    case Some(value) => Some(build(value))
  }

  function Answer<B>(r: Registry, c: Coding<B>, answer: Option<WireMessage>): Option<Value<B>> {
    if answer.None? then Some(Nil) else Unmarshal(r, c, answer.value)
  }

  // proto.Marshal of a package and proto.Unmarshal into the package of a given PkgType.
  datatype PkgCoding = PkgCoding(marshal: Package -> Option<seq<byte>>, unmarshal: (nat, seq<byte>) -> Option<Package>)

  ghost predicate PkgInverse(pc: PkgCoding) {
    forall p :: pc.marshal(p).Some? ==> pc.unmarshal(PkgType(p), pc.marshal(p).value) == Some(p)
  }

  // clusterNet.Send up to doSend: the message id and the bytes to send.
  function SendBytes<B>(r: Registry, c: Coding<B>, pc: PkgCoding, e: Envelope<B>): Result<(nat, seq<byte>)> {
    match Encode(r, c, e)
    case Err(code) => Err(code)
    case Ok(p) =>
      match pc.marshal(p)
      case None => Err(SERIALIZE_FAILED)
      case Some(data) => Ok((PkgType(p), data))
  }

  // clusterNet.OnMessage: an unknown message id is ignored without error.
  datatype Received<B> = Routed(envelope: Envelope<B>) | Ignored | Failed

  function OnMessage<B>(r: Registry, c: Coding<B>, pc: PkgCoding, msgId: nat, data: seq<byte>): (got: Received<B>)
    ensures got.Ignored? <==> !(1 <= msgId <= 9)
    ensures got.Failed? <==>
              1 <= msgId <= 9 && var p := pc.unmarshal(msgId, data); p.None? || Decode(r, c, p.value).None?
    ensures got.Routed? ==> Some(got.envelope) == Decode(r, c, pc.unmarshal(msgId, data).value)
  {
    if !(1 <= msgId <= 9) then Ignored
    else
      match pc.unmarshal(msgId, data)
      case None => Failed
      case Some(p) =>
        match Decode(r, c, p)
        case None => Failed
        case Some(e) => Routed(e)
  }

  // The envelope as the other node can see it: only the messages that can be marshalled, and an error
  // with code 0 is no error.
  function Visible<B>(r: Registry, c: Coding<B>, e: Envelope<B>): Envelope<B> {
    match e
    case BatchSend(from, tos, vs) => BatchSend(from, tos, Sendable(r, c, vs))
    case ResponseAsync(from, to, error, v, id, address) =>
      ResponseAsync(from, to, ErrorOf(CodeOf(error)), v, id, address)
    case Response(from, to, error, v, id) => Response(from, to, ErrorOf(CodeOf(error)), v, id)
    case _ => e
  }

  // The messages that cross with e.
  function Carried<B>(r: Registry, c: Coding<B>, e: Envelope<B>): seq<Value<B>> {
    match e
    case BatchSend(_, _, vs) => Sendable(r, c, vs)
    case Watch(_, _, _, _) => []
    case LocalOnly => []
    case _ => [e.message]
  }

  lemma RefRoundTrip(r: Ref)
    ensures FromProto(ToProto(r)) == r
  {}

  lemma RefsRoundTrip(rs: seq<ActorRef>)
    ensures AllFromProto(AllToProto(rs)) == rs
  {}

  lemma DecodeEncode<B(!new)>(r: Registry, c: Coding<B>, e: Envelope<B>)
    requires Inverse(c) && Encode(r, c, e).Ok?
    ensures Decode(r, c, Encode(r, c, e).value) == Some(Visible(r, c, e)) <==> AllCoherent(r, Carried(r, c, e))
  {
    RefRoundTrip(e.from);
    if e.BatchSend? || e.Notify? { RefsRoundTrip(e.tos); } else { RefRoundTrip(e.to); }
    if e.Notify? { RefRoundTrip(e.watched); }
    if e.BatchSend? {
      BatchRoundTrip(r, c, e.messages);
    } else if !e.Watch? {
      MessageRoundTrip(r, c, e.message);
      assert [e.message][0] == e.message;
    }
  }

  /** Every envelope of the nine kinds that Send encodes without error is routed on the other side, as
      the same envelope, exactly when the registry is coherent for the types of the messages it carries. */
  lemma EnvelopeRoundTrip<B(!new)>(r: Registry, c: Coding<B>, pc: PkgCoding, e: Envelope<B>)
    requires Inverse(c) && PkgInverse(pc) && SendBytes(r, c, pc, e).Ok?
    ensures var (msgId, data) := SendBytes(r, c, pc, e).value;
            OnMessage(r, c, pc, msgId, data) == Routed(Visible(r, c, e)) <==> AllCoherent(r, Carried(r, c, e))
  {
    DecodeEncode(r, c, e);
  }

  /** The other node sees the envelope itself, except that a batch has lost the messages that cannot be
      marshalled and an error with code 0 has become nil. */
  lemma VisibleIsSame<B>(r: Registry, c: Coding<B>, e: Envelope<B>)
    ensures e.BatchSend? ==> Visible(r, c, e) == e.(messages := Sendable(r, c, e.messages))
    ensures (e.ResponseAsync? || e.Response?) && e.error == Some(0) ==> Visible(r, c, e) == e.(error := None)
    ensures !e.BatchSend? && !((e.ResponseAsync? || e.Response?) && e.error == Some(0)) ==> Visible(r, c, e) == e
    ensures Visible(r, c, e) == e <==>
              && (e.BatchSend? ==> forall v :: v in e.messages ==> Marshal(r, c, v).Ok?)
              && (e.ResponseAsync? || e.Response? ==> e.error != Some(0))
  {
    if e.BatchSend? { AllSendable(r, c, e.messages); }
  }

  lemma {:induction false} AllSendable<B>(r: Registry, c: Coding<B>, vs: seq<Value<B>>)
    ensures |Sendable(r, c, vs)| <= |vs|
    ensures Sendable(r, c, vs) == vs <==> forall v :: v in vs ==> Marshal(r, c, v).Ok?
  {
    if vs == [] {
    } else {
      var init, last := vs[..|vs| - 1], vs[|vs| - 1];
      AllSendable(r, c, init);
      assert vs == init + [last];
      if Marshal(r, c, last).Ok? && Sendable(r, c, vs) == vs {
        assert Sendable(r, c, init) == vs[..|vs| - 1];
      }
    }
  }

  /** The message ids on the wire, as protocol/cluster.proto numbers the packages. */
  lemma WireIds<B>(r: Registry, c: Coding<B>, pc: PkgCoding, e: Envelope<B>)
    requires SendBytes(r, c, pc, e).Ok?
    ensures var id := SendBytes(r, c, pc, e).value.0;
            && (e.Send? <==> id == 1) && (e.BatchSend? <==> id == 2) && (e.RequestAsync? <==> id == 3)
            && (e.ResponseAsync? <==> id == 4) && (e.Request? <==> id == 5) && (e.Response? <==> id == 6)
            && (e.Watch? <==> id == 7) && (e.Notify? <==> id == 8) && (e.FireNotify? <==> id == 9)
  {}

  /** Exactly which envelopes Send can encode: all but local ones, batches of which nothing can be
      marshalled, and those whose one message cannot be. */
  lemma Encodable<B>(r: Registry, c: Coding<B>, e: Envelope<B>)
    ensures Encode(r, c, e).Ok? <==>
              !e.LocalOnly? && (e.BatchSend? ==> Sendable(r, c, e.messages) != [])
              && (!e.BatchSend? && !e.Watch? && !e.LocalOnly? ==> Marshal(r, c, e.message).Ok?)
  {
    if e.BatchSend? { SendableCount(r, c, e.messages); }
  }
}
