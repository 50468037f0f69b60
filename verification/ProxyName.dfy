/** The name of a proxy actor, "<type>-<id>" (watch_proxy.go), and its parser GetWatcheeActorRef (router.go). */
module ProxyNames {
  import opened Actors
  import opened Basics
  import opened Placement

  const DASH: byte := 45
  const ZERO: byte := 48
  const WATCH_PROXY_TYPE: uint32 := 12

  predicate IsDigit(b: byte) { ZERO <= b < ZERO + 10 }

  predicate AllDigits(s: seq<byte>) { forall i :: 0 <= i < |s| ==> IsDigit(s[i]) }

  // fmt's %v of an unsigned number.
  function Decimal(n: nat): seq<byte> {
    if n < 10 then [ZERO + n] else Decimal(n / 10) + [ZERO + n % 10]
  }

  function ValueOf(s: seq<byte>): nat
    requires AllDigits(s)
  {
    if s == [] then 0 else ValueOf(s[..|s| - 1]) * 10 + (s[|s| - 1] - ZERO)
  }

  function ProxyId(t: uint32, id: ActorId): ActorId { Decimal(t) + [DASH] + id }

  // strconv.ParseUint(s, 10, 32)
  function ParseUint(s: seq<byte>): Option<uint32> {
    if s == [] || !AllDigits(s) || ValueOf(s) >= WORD then None else Some(ValueOf(s))
  }

  // strings.SplitN(s, "-", 2), None when there is no dash.
  function SplitAtDash(s: seq<byte>): Option<(seq<byte>, seq<byte>)> {
    if s == [] then None
    else if s[0] == DASH then Some(([], s[1..]))
    else
      match SplitAtDash(s[1..])
      case None => None
      case Some((head, tail)) => Some(([s[0]] + head, tail))
  }

  // The (type, id) pair that GetWatcheeActorRef reads from a proxy's id.
  function ParseName(s: ActorId): Option<(uint32, ActorId)> {
    match SplitAtDash(s)
    case None => None
    case Some((head, tail)) =>
      match ParseUint(head)
      case None => None
      case Some(t) => Some((t, tail))
  }

  function Zeros(k: nat): seq<byte> { seq(k, _ => ZERO) }

  lemma {:induction false} SplitIsFirstDash(s: seq<byte>, head: seq<byte>, tail: seq<byte>)
    ensures SplitAtDash(s) == Some((head, tail)) <==> s == head + [DASH] + tail && DASH !in head
  {
    var whole := head + [DASH] + tail;
    if s != [] && s[0] == DASH {
      assert s == [] + [DASH] + s[1..];
      assert head != [] ==> whole[0] == head[0];
    } else if s != [] && head != [] {
      SplitIsFirstDash(s[1..], head[1..], tail);
      assert whole[1..] == head[1..] + [DASH] + tail && whole[0] == head[0];
      assert s == [s[0]] + s[1..] && whole == [whole[0]] + whole[1..] && head == [head[0]] + head[1..];
    } else {
      assert head == [] ==> whole[0] == DASH;
    }
  }

  lemma {:induction false} DecimalValue(n: nat)
    ensures Decimal(n) != [] && AllDigits(Decimal(n)) && ValueOf(Decimal(n)) == n
  {
    if n >= 10 {
      DecimalValue(n / 10);
      assert Decimal(n)[..|Decimal(n)| - 1] == Decimal(n / 10);
    } else {
      assert ValueOf([ZERO + n][..0]) == 0;
    }
  }

  // A digit string is leading zeros and the decimal form of its value.
  lemma {:induction false} DigitsAreDecimal(s: seq<byte>) returns (k: nat)
    requires s != [] && AllDigits(s)
    ensures s == Zeros(k) + Decimal(ValueOf(s))
  {
    var init, last := s[..|s| - 1], s[|s| - 1];
    assert s == init + [last];
    if init == [] {
      k := 0;
    } else {
      k := DigitsAreDecimal(init);
      var v := ValueOf(init);
      if v == 0 {
        k := k + 1;
        assert Zeros(k) + [last] == Zeros(k - 1) + Decimal(0) + [last];
      } else {
        assert ValueOf(s) / 10 == v && ValueOf(s) % 10 == last - ZERO;
        assert Zeros(k) + Decimal(v) + [last] == Zeros(k) + (Decimal(v) + [last]);
      }
    }
  }

  lemma {:induction false} ZerosKeepValue(k: nat, s: seq<byte>)
    requires AllDigits(s)
    ensures AllDigits(Zeros(k) + s) && ValueOf(Zeros(k) + s) == ValueOf(s)
    decreases |s|
  {
    if s == [] {
      ZerosAreZero(k);
      assert Zeros(k) + s == Zeros(k);
    } else {
      ZerosKeepValue(k, s[..|s| - 1]);
      assert (Zeros(k) + s)[..k + |s| - 1] == Zeros(k) + s[..|s| - 1];
    }
  }

  lemma {:induction false} ZerosAreZero(k: nat)
    ensures AllDigits(Zeros(k)) && ValueOf(Zeros(k)) == 0
  {
    if k > 0 {
      ZerosAreZero(k - 1);
      assert Zeros(k)[..k - 1] == Zeros(k - 1);
    }
  }

  /** A name parses to (t, id) exactly when it is the printed name, up to leading zeros. */
  lemma ParsesExactly(s: ActorId, t: uint32, id: ActorId)
    ensures ParseName(s) == Some((t, id)) <==> exists k :: s == Zeros(k) + ProxyId(t, id)
  {
    if ParseName(s) == Some((t, id)) {
      var head := SplitAtDash(s).value.0;
      SplitIsFirstDash(s, head, id);
      var k := DigitsAreDecimal(head);
      assert s == Zeros(k) + ProxyId(t, id);
    }
    if k: nat :| s == Zeros(k) + ProxyId(t, id) {
      DecimalValue(t);
      ZerosKeepValue(k, Decimal(t));
      var head := Zeros(k) + Decimal(t);
      assert s == head + [DASH] + id;
      SplitIsFirstDash(s, head, id);
    }
  }

  /** Printing and parsing: every type and every id, dashes included, come back; so names are distinct. */
  lemma NameRoundTrip(t: uint32, id: ActorId)
    ensures ParseName(ProxyId(t, id)) == Some((t, id))
  {
    assert ProxyId(t, id) == Zeros(0) + ProxyId(t, id);
    ParsesExactly(ProxyId(t, id), t, id);
  }

  /** "907-a-b" and "7-": decimal digits, one dash, the id as it is. */
  lemma PrintedNames()
    ensures ProxyId(907, [97, 45, 98]) == [57, 48, 55, 45, 97, 45, 98]
    ensures ProxyId(7, []) == [55, 45]
  {
    assert Decimal(90) == [57, 48];
  }

  // GetWatchProxyActorRef on a node: the proxy of a watchee, placed on the node itself.
  function ProxyRef(proxyIds: seq<uint32>, localId: uint32, watchee: ActorRef): ActorRef {
    Place(proxyIds, localId, localId, WATCH_PROXY_TYPE, ProxyId(watchee.actorType, watchee.actorId))
  }

  // GetWatcheeActorRef, given the systems that declare each type.
  function WatcheeRef(systemIds: uint32 -> seq<uint32>, localId: uint32, proxyId: ActorId): Option<ActorRef> {
    match ParseName(proxyId)
    case None => None
    case Some((t, id)) => Some(Place(systemIds(t), localId, 0, t, id))
  }

  /** Distinct (type, id) pairs have distinct proxies, equal pairs share one, and it lives on the node itself. */
  lemma ProxiesAreDistinct(proxyIds: seq<uint32>, localId: uint32, v: ActorRef, w: ActorRef)
    ensures ProxyRef(proxyIds, localId, v) == ProxyRef(proxyIds, localId, w) <==>
              v.actorType == w.actorType && v.actorId == w.actorId
    ensures localId != 0 ==> ProxyRef(proxyIds, localId, v).systemId == localId
    ensures ProxyRef(proxyIds, localId, v).actorType == 12
    ensures ProxyRef(proxyIds, localId, v).actorId == ProxyId(v.actorType, v.actorId)
  {
    NameRoundTrip(v.actorType, v.actorId);
    NameRoundTrip(w.actorType, w.actorId);
  }

  /** The watchee that a proxy rebuilds from its own name is the one it was made for exactly when that
      one lives where the hash places it. */
  lemma RebuiltWatchee(systemIds: uint32 -> seq<uint32>, localId: uint32, systemId: uint32, t: uint32, id: ActorId)
    ensures var watchee := Place(systemIds(t), localId, systemId, t, id);
            WatcheeRef(systemIds, localId, ProxyId(t, id)) == Some(watchee) <==>
              watchee.systemId == Place(systemIds(t), localId, 0, t, id).systemId
  {
    NameRoundTrip(t, id);
  }
}
