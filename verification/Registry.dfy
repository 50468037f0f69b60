/** The message-type registry of system.go. A Go type is a number, proto.Marshal and proto.Unmarshal of
    a message body are a `Coding`, and a creator is known by the type of what it creates. */
module Registries {
  import opened Basics
  import opened Packets

  type TypeName = nat

  const CANNOT_SERIALIZE := 101
  const NOT_REGISTERED := 102
  const SERIALIZE_FAILED := 103

  datatype Result<T> = Ok(value: T) | Err(code: int)

  // An interface{} handed to the cluster: a proto message, some other value, or nil.
  datatype Value<B> = Proto(typ: TypeName, body: B) | NotProto | Nil

  datatype Coding<!B> = Coding(
    marshal: (TypeName, B) -> Option<seq<byte>>,
    unmarshal: (TypeName, seq<byte>) -> Option<B>)

  ghost predicate Inverse<B(!new)>(c: Coding<B>) {
    forall t, b :: c.marshal(t, b).Some? ==> c.unmarshal(t, c.marshal(t, b).value) == Some(b)
  }

  // protocol.Message
  datatype WireMessage = WireMessage(typ: uint32, data: seq<byte>)

  datatype Registry = Registry(ids: map<TypeName, uint32>, creators: map<uint32, TypeName>)
  {
    function Register(id: uint32, t: TypeName): Registry { Registry(ids[t := id], creators[id := t]) }
  }

  type Registrations = seq<(uint32, TypeName)>

  function Registered(regs: Registrations): Registry {
    if regs == [] then Registry(map[], map[])
    else Registered(regs[..|regs| - 1]).Register(regs[|regs| - 1].0, regs[|regs| - 1].1)
  }

  // The type travels twice: as the field and as the first four bytes of the data.
  function Marshal<B>(r: Registry, c: Coding<B>, v: Value<B>): (m: Result<WireMessage>)
    ensures m.Ok? <==> v.Proto? && v.typ in r.ids && c.marshal(v.typ, v.body).Some?
    ensures m.Ok? ==> |m.value.data| >= 4 && GetUint32(m.value.data[..4]) == m.value.typ == r.ids[v.typ]
    ensures m.Ok? ==> c.marshal(v.typ, v.body) == Some(m.value.data[4..])
    ensures m == Err(CANNOT_SERIALIZE) <==> !v.Proto?
    ensures m == Err(NOT_REGISTERED) <==> v.Proto? && v.typ !in r.ids
    ensures m == Err(SERIALIZE_FAILED) <==> v.Proto? && v.typ in r.ids && c.marshal(v.typ, v.body).None?
  {
    if !v.Proto? then Err(CANNOT_SERIALIZE)
    else if v.typ !in r.ids then Err(NOT_REGISTERED)
    else
      match c.marshal(v.typ, v.body)
      case None => Err(SERIALIZE_FAILED)
      case Some(data) =>
        LengthRoundTrip(r.ids[v.typ]);
        assert (PutUint32(r.ids[v.typ]) + data)[..4] == PutUint32(r.ids[v.typ]);
        assert (PutUint32(r.ids[v.typ]) + data)[4..] == data;
        Ok(WireMessage(r.ids[v.typ], PutUint32(r.ids[v.typ]) + data))
  }

  // Refused exactly when too short, when nothing is registered for the id, or when the body does not decode.
  function Unmarshal<B>(r: Registry, c: Coding<B>, m: WireMessage): (v: Option<Value<B>>)
    ensures v.None? <==>
              |m.data| < 4 || m.typ !in r.creators || c.unmarshal(r.creators[m.typ], m.data[4..]).None?
    ensures v.Some? ==>
              v.value.Proto? && v.value.typ == r.creators[m.typ]
              && Some(v.value.body) == c.unmarshal(v.value.typ, m.data[4..])
  {
    if |m.data| < 4 || m.typ !in r.creators then None
    else
      match c.unmarshal(r.creators[m.typ], m.data[4..])
      case None => None
      case Some(body) => Some(Proto(r.creators[m.typ], body))
  }

  // The id registered for t creates messages of type t.
  predicate Coherent(r: Registry, t: TypeName) {
    t in r.ids && r.ids[t] in r.creators && r.creators[r.ids[t]] == t
  }

  /** A message that can be marshalled comes back exactly when the registry is coherent for its type. */
  lemma MessageRoundTrip<B(!new)>(r: Registry, c: Coding<B>, v: Value<B>)
    requires Inverse(c) && Marshal(r, c, v).Ok?
    ensures Unmarshal(r, c, Marshal(r, c, v).value) == Some(v) <==> Coherent(r, v.typ)
  {
    assert Marshal(r, c, v).value.typ == r.ids[v.typ];
  }

  // The last id registered for a type, and the last type registered for an id.
  function LastId(regs: Registrations, t: TypeName): Option<uint32> {
    if regs == [] then None
    else if regs[|regs| - 1].1 == t then Some(regs[|regs| - 1].0)
    else LastId(regs[..|regs| - 1], t)
  }

  function LastType(regs: Registrations, id: uint32): Option<TypeName> {
    if regs == [] then None
    else if regs[|regs| - 1].0 == id then Some(regs[|regs| - 1].1)
    else LastType(regs[..|regs| - 1], id)
  }

  lemma {:induction false} LastRegistrationWins(regs: Registrations, t: TypeName, id: uint32)
    ensures LastId(regs, t) == if t in Registered(regs).ids then Some(Registered(regs).ids[t]) else None
    ensures LastType(regs, id) == if id in Registered(regs).creators then Some(Registered(regs).creators[id]) else None
  {
    if regs == [] {
    } else {
      LastRegistrationWins(regs[..|regs| - 1], t, id);
    }
  }

  /** Under any sequence of registrations, a type is coherent exactly when the last id registered for it
      was last registered for that type. */
  lemma CoherentTypes(regs: Registrations, t: TypeName)
    ensures Coherent(Registered(regs), t) <==>
              LastId(regs, t).Some? && LastType(regs, LastId(regs, t).value) == Some(t)
  {
    LastRegistrationWins(regs, t, 0);
    if LastId(regs, t).Some? { LastRegistrationWins(regs, t, LastId(regs, t).value); }
  }

  /** Two types sharing an id, or one type moved to the id of another: the earlier owner is lost. */
  lemma ReusedIdLosesType(id: uint32, t: TypeName, u: TypeName)
    requires t != u
    ensures !Coherent(Registered([(id, t), (id, u)]), t) && Coherent(Registered([(id, t), (id, u)]), u)
  {
    var none: Registrations, one: Registrations := [], [(id, t)];
    assert one[..0] == none;
    assert [(id, t), (id, u)][..1] == one;
    assert Registered(one) == Registered(none).Register(id, t);
  }

  class System<B> {
    var msgTypeIds: map<TypeName, uint32>
    var msgCreators: map<uint32, TypeName>
    ghost var history: Registrations

    ghost predicate Valid()
      reads this
    {
      Value() == Registered(history)
    }

    function Value(): Registry
      reads this
    {
      Registry(msgTypeIds, msgCreators)
    }

    constructor ()
      ensures Valid() && history == []
    {
      msgTypeIds, msgCreators, history := map[], map[], [];
    }

    method RegisterMessageType(msgType: uint32, created: TypeName)
      requires Valid()
      modifies this
      ensures Valid() && history == old(history) + [(msgType, created)]
    {
      msgTypeIds := msgTypeIds[created := msgType];
      msgCreators := msgCreators[msgType := created];
      history := history + [(msgType, created)];
      assert history[..|history| - 1] == old(history);
    }

    /** The loop of Send over a batch: what cannot be marshalled is skipped. */
    method MarshalBatch(c: Coding<B>, messages: seq<Value<B>>) returns (out: seq<WireMessage>)
      ensures out == MarshalAll(Value(), c, messages)
    {
      out := [];
      for i := 0 to |messages|
        invariant out == MarshalAll(Value(), c, messages[..i])
      {
        assert messages[..i + 1][..i] == messages[..i];
        var m := Marshal(Value(), c, messages[i]);
        if m.Ok? { out := out + [m.value]; }
      }
      assert messages[..|messages|] == messages;
    }

    /** The loop of OnMessage over a batch: what cannot be unmarshalled is skipped. */
    method UnmarshalBatch(c: Coding<B>, messages: seq<WireMessage>) returns (out: seq<Value<B>>)
      ensures out == UnmarshalAll(Value(), c, messages)
    {
      out := [];
      for i := 0 to |messages|
        invariant out == UnmarshalAll(Value(), c, messages[..i])
      {
        assert messages[..i + 1][..i] == messages[..i];
        var v := Unmarshal(Value(), c, messages[i]);
        if v.Some? { out := out + [v.value]; }
      }
      assert messages[..|messages|] == messages;
    }
  }

  function MarshalAll<B>(r: Registry, c: Coding<B>, vs: seq<Value<B>>): seq<WireMessage> {
    if vs == [] then []
    else
      var m := Marshal(r, c, vs[|vs| - 1]);
      MarshalAll(r, c, vs[..|vs| - 1]) + if m.Ok? then [m.value] else []
  }

  function UnmarshalAll<B>(r: Registry, c: Coding<B>, ms: seq<WireMessage>): seq<Value<B>> {
    if ms == [] then []
    else
      var v := Unmarshal(r, c, ms[|ms| - 1]);
      UnmarshalAll(r, c, ms[..|ms| - 1]) + if v.Some? then [v.value] else []
  }

  // The messages that can be marshalled, in order.
  function Sendable<B>(r: Registry, c: Coding<B>, vs: seq<Value<B>>): seq<Value<B>> {
    if vs == [] then []
    else Sendable(r, c, vs[..|vs| - 1]) + if Marshal(r, c, vs[|vs| - 1]).Ok? then [vs[|vs| - 1]] else []
  }

  predicate AllCoherent<B>(r: Registry, vs: seq<Value<B>>) {
    forall i :: 0 <= i < |vs| ==> vs[i].Proto? ==> Coherent(r, vs[i].typ)
  }

  lemma {:induction false} UnmarshalSkips<B>(r: Registry, c: Coding<B>, ms: seq<WireMessage>)
    ensures |UnmarshalAll(r, c, ms)| <= |ms|
  {
    if ms == [] {
    } else {
      UnmarshalSkips(r, c, ms[..|ms| - 1]);
    }
  }

  lemma {:induction false} SendableCount<B>(r: Registry, c: Coding<B>, vs: seq<Value<B>>)
    ensures |MarshalAll(r, c, vs)| == |Sendable(r, c, vs)|
  {
    if vs == [] {
    } else {
      SendableCount(r, c, vs[..|vs| - 1]);
    }
  }

  /** All three filters keep the order: a batch after a batch is filtered one after the other, and each
      single message is kept exactly when it can be marshalled or unmarshalled. */
  lemma {:induction false} FiltersKeepOrder<B>(r: Registry, c: Coding<B>, vs: seq<Value<B>>, ws: seq<Value<B>>)
    ensures MarshalAll(r, c, vs + ws) == MarshalAll(r, c, vs) + MarshalAll(r, c, ws)
    ensures Sendable(r, c, vs + ws) == Sendable(r, c, vs) + Sendable(r, c, ws)
  {
    if ws == [] {
      assert vs + ws == vs;
    } else {
      var init, last := ws[..|ws| - 1], ws[|ws| - 1];
      FiltersKeepOrder(r, c, vs, init);
      assert (vs + ws)[..|vs + ws| - 1] == vs + init && (vs + ws)[|vs + ws| - 1] == last;
      var m := Marshal(r, c, last);
      Associative(MarshalAll(r, c, vs), MarshalAll(r, c, init), if m.Ok? then [m.value] else []);
      Associative(Sendable(r, c, vs), Sendable(r, c, init), if m.Ok? then [last] else []);
    }
  }

  lemma {:induction false} UnmarshalKeepsOrder<B>(r: Registry, c: Coding<B>, ms: seq<WireMessage>, ns: seq<WireMessage>)
    ensures UnmarshalAll(r, c, ms + ns) == UnmarshalAll(r, c, ms) + UnmarshalAll(r, c, ns)
  {
    if ns == [] {
      assert ms + ns == ms;
    } else {
      var init, last := ns[..|ns| - 1], ns[|ns| - 1];
      UnmarshalKeepsOrder(r, c, ms, init);
      assert (ms + ns)[..|ms + ns| - 1] == ms + init && (ms + ns)[|ms + ns| - 1] == last;
      var v := Unmarshal(r, c, last);
      Associative(UnmarshalAll(r, c, ms), UnmarshalAll(r, c, init), if v.Some? then [v.value] else []);
    }
  }

  lemma FiltersOnOne<B>(r: Registry, c: Coding<B>, v: Value<B>, m: WireMessage)
    ensures MarshalAll(r, c, [v]) == if Marshal(r, c, v).Ok? then [Marshal(r, c, v).value] else []
    ensures Sendable(r, c, [v]) == if Marshal(r, c, v).Ok? then [v] else []
    ensures UnmarshalAll(r, c, [m]) == if Unmarshal(r, c, m).Some? then [Unmarshal(r, c, m).value] else []
  {
    assert [v][..0] == [] && [m][..0] == [];
  }

  /** A batch comes back as its sendable messages, in order, exactly when all their types are coherent. */
  lemma {:induction false} BatchRoundTrip<B(!new)>(r: Registry, c: Coding<B>, vs: seq<Value<B>>)
    requires Inverse(c)
    ensures UnmarshalAll(r, c, MarshalAll(r, c, vs)) == Sendable(r, c, vs) <==> AllCoherent(r, Sendable(r, c, vs))
  {
    if vs == [] {
    } else {
      var init, last := vs[..|vs| - 1], vs[|vs| - 1];
      BatchRoundTrip(r, c, init);
      var ms, kept := MarshalAll(r, c, init), Sendable(r, c, init);
      UnmarshalSkips(r, c, ms);
      SendableCount(r, c, init);
      if Marshal(r, c, last).Ok? {
        MessageRoundTrip(r, c, last);
        var m := Marshal(r, c, last).value;
        assert (ms + [m])[..|ms|] == ms && (ms + [m])[|ms|] == m;
        assert UnmarshalAll(r, c, MarshalAll(r, c, vs))
            == UnmarshalAll(r, c, ms) + if Unmarshal(r, c, m).Some? then [Unmarshal(r, c, m).value] else [];
        assert Sendable(r, c, vs) == kept + [last];
        LastOfEqual(UnmarshalAll(r, c, ms), kept, Unmarshal(r, c, m), last);
        LastCoherent(r, kept, last);
      } else {
        assert MarshalAll(r, c, vs) == ms && Sendable(r, c, vs) == kept;
      }
    }
  }

  lemma LastOfEqual<B>(a: seq<Value<B>>, b: seq<Value<B>>, x: Option<Value<B>>, y: Value<B>)
    requires |a| <= |b|
    ensures a + (if x.Some? then [x.value] else []) == b + [y] <==> a == b && x == Some(y)
  {
    var s, t := a + (if x.Some? then [x.value] else []), b + [y];
    if s == t {
      assert |s| == |t| && s[|b|] == y;
      assert a == s[..|a|] && b == t[..|b|];
    }
  }

  lemma LastCoherent<B>(r: Registry, vs: seq<Value<B>>, v: Value<B>)
    requires v.Proto?
    ensures AllCoherent(r, vs + [v]) <==> AllCoherent(r, vs) && Coherent(r, v.typ)
  {
    assert (vs + [v])[|vs|] == v;
    assert forall i :: 0 <= i < |vs| ==> (vs + [v])[i] == vs[i];
  }
}
