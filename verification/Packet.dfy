/** The wire format of engine/net/connect/packet.go, on values: frames are a 4-byte big-endian payload
    length, one message id byte and the payload. Lengths go through uint32 arithmetic as in the code. */
module Packets {

  import opened Basics

  const HEADER_SIZE := 5
  const MAX_MSG_ID := 0xFF
  const READ_SIZE := 4096
  // The greatest payload for which every chunking is cut correctly (see ExactBound).
  const MAX_PAYLOAD := WORD - READ_SIZE - HEADER_SIZE

  datatype Message = Message(msgId: byte, data: seq<byte>)

  // binary.BigEndian.PutUint32 of a length converted to uint32.
  function PutUint32(n: nat): (s: seq<byte>)
    ensures |s| == 4
  {
    [n / 0x100_0000 % 256, n / 0x1_0000 % 256, n / 0x100 % 256, n % 256]
  }

  function GetUint32(s: seq<byte>): (n: nat)
    requires |s| == 4
    ensures n < WORD
  {
    s[0] as int * 0x100_0000 + s[1] as int * 0x1_0000 + s[2] as int * 0x100 + s[3]
  }

  lemma LengthRoundTrip(n: nat)
    requires n < WORD
    ensures GetUint32(PutUint32(n)) == n
  {
    assert n / 0x100_0000 % 256 == n / 0x100_0000;
    assert n / 0x1_0000 == n / 0x100_0000 * 256 + n / 0x1_0000 % 256;
    assert n / 0x100 == n / 0x1_0000 * 256 + n / 0x100 % 256;
  }

  function Wire(m: Message): seq<byte> { PutUint32(|m.data|) + [m.msgId] + m.data }

  function PackMessage(msgId: nat, data: seq<byte>): Option<seq<byte>> {
    if msgId > MAX_MSG_ID then None else Some(Wire(Message(msgId, data)))
  }

  /** What is refused and what goes on the wire: ids above one byte; four length bytes, the most
      significant first, the id, and the payload as it is. */
  lemma PacketFormat(msgId: nat, data: seq<byte>)
    ensures PackMessage(msgId, data).Some? <==> msgId <= 0xFF
    ensures |data| < WORD && msgId <= 0xFF ==>
              var p := PackMessage(msgId, data).value;
              && |p| == 5 + |data| && p[4] == msgId && p[5..] == data
              && |data| == p[0] as int * 0x100_0000 + p[1] as int * 0x1_0000 + p[2] as int * 0x100 + p[3]
  {
    if |data| < WORD { LengthRoundTrip(|data|); }
  }

  datatype Cut =
    | Frame(message: Message, rest: seq<byte>)
    | Incomplete
    | Panic          // the slice expression p.buf[5:msgLen] with msgLen < 5

  // What PacketSplitter.Next makes of its buffer.
  function NextFrame(buf: seq<byte>): (c: Cut)
    ensures c.Frame? ==> |c.rest| < |buf|
  {
    var l := |buf| % WORD;
    if l < HEADER_SIZE then Incomplete
    else
      var msgLen := (GetUint32(buf[..4]) + HEADER_SIZE) % WORD;
      if l < msgLen then Incomplete
      else if msgLen < HEADER_SIZE then Panic
      else Frame(Message(buf[4], buf[HEADER_SIZE..msgLen]), buf[msgLen..])
  }

  /** Next panics exactly on a length field of 2^32 - 5 or more, which wraps to a msgLen below 5. */
  lemma PanicsExactly(buf: seq<byte>)
    ensures NextFrame(buf).Panic? <==> |buf| % WORD >= 5 && GetUint32(buf[..4]) >= 0xFFFF_FFFB
    ensures NextFrame(buf).Panic? ==> Drain(buf).panicked && Drain(buf).messages == []
  {
    if |buf| % WORD >= HEADER_SIZE {
      var n := GetUint32(buf[..4]);
      assert (n + HEADER_SIZE) % WORD == if n >= WORD - HEADER_SIZE then n + HEADER_SIZE - WORD else n + HEADER_SIZE;
    }
  }

  // One of the two uint32 computations of Next loses bits on this buffer (see WrapsExactly).
  predicate Wraps(buf: seq<byte>) {
    |buf| >= WORD || (|buf| >= HEADER_SIZE && GetUint32(buf[..4]) + HEADER_SIZE >= WORD)
  }

  lemma WrapsExactly(buf: seq<byte>)
    ensures Wraps(buf) <==> |buf| % WORD != |buf|
                            || (|buf| >= 5 && (GetUint32(buf[..4]) + 5) % WORD != GetUint32(buf[..4]) + 5)
  {}

  datatype Drained = Drained(messages: seq<Message>, rest: seq<byte>, panicked: bool, wrapped: bool)

  // The loop that calls Next until it reports too few bytes.
  function Drain(buf: seq<byte>): Drained
    decreases |buf|
  {
    match NextFrame(buf)
    case Incomplete => Drained([], buf, false, Wraps(buf))
    case Panic => Drained([], buf, true, Wraps(buf))
    case Frame(m, rest) =>
      var d := Drain(rest);
      Drained([m] + d.messages, d.rest, d.panicked, d.wrapped || Wraps(buf))
  }

  // A fresh splitter that gets the chunks one by one and is drained after each.
  function Feed(chunks: seq<seq<byte>>): Drained {
    if chunks == [] then Drained([], [], false, false)
    else
      var d := Feed(chunks[..|chunks| - 1]);
      if d.panicked then d else FeedMore(d, chunks[|chunks| - 1])
  }

  function FeedMore(d: Drained, chunk: seq<byte>): Drained {
    var e := Drain(d.rest + chunk);
    Drained(d.messages + e.messages, e.rest, e.panicked, d.wrapped || e.wrapped)
  }

  function Flatten(chunks: seq<seq<byte>>): seq<byte> {
    if chunks == [] then [] else Flatten(chunks[..|chunks| - 1]) + chunks[|chunks| - 1]
  }

  function Stream(ms: seq<Message>): seq<byte> { if ms == [] then [] else Wire(ms[0]) + Stream(ms[1..]) }

  lemma {:induction false} StreamSplits(a: seq<Message>, b: seq<Message>)
    ensures Stream(a + b) == Stream(a) + Stream(b)
  {
    if a == [] {
      assert a + b == b;
    } else {
      StreamSplits(a[1..], b);
      assert (a + b)[1..] == a[1..] + b && (a + b)[0] == a[0];
      Associative(Wire(a[0]), Stream(a[1..]), Stream(b));
    }
  }

  lemma StreamOfTwo(a: Message, b: Message)
    ensures Stream([a, b]) == Wire(a) + Wire(b)
  {
    assert [a, b][1..] == [b] && [b][1..] == [];
    assert Stream([b]) == Wire(b) + [];
  }

  predicate Within(ms: seq<Message>, limit: nat) { forall m :: m in ms ==> |m.data| <= limit }

  predicate ReadSized(chunks: seq<seq<byte>>) { forall c :: c in chunks ==> |c| <= READ_SIZE }

  // Cut from a stream of ms after receiving input: some first messages of ms and a proper prefix of the
  // next one, together all of the input, with no arithmetic accident on the way.
  ghost predicate CutsExactly(ms: seq<Message>, input: seq<byte>, d: Drained) {
    && !d.panicked && !d.wrapped
    && Stream(d.messages) + d.rest == input
    && LeavesPartOfNext(ms, d.messages, d.rest)
  }

  ghost predicate LeavesPartOfNext(ms: seq<Message>, got: seq<Message>, rest: seq<byte>) {
    && |got| <= |ms| && got == ms[..|got|]
    && if |got| == |ms| then rest == [] else rest < Wire(ms[|got|])
  }

  lemma PrefixOfSum<T>(buf: seq<T>, a: seq<T>, b: seq<T>)
    requires buf <= a + b
    ensures |buf| <= |a| ==> buf <= a
    ensures |a| <= |buf| ==> buf[..|a|] == a && buf[|a|..] <= b
  {
    if |a| <= |buf| {
      assert a + b == buf + (a + b)[|buf|..];
      assert b == buf[|a|..] + (a + b)[|buf|..];
    }
  }

  // Next on a buffer that agrees with one packed message as far as both go.
  lemma NextCutsOne(m: Message, buf: seq<byte>)
    requires |buf| < WORD && |m.data| + HEADER_SIZE < WORD
    requires if |buf| < |Wire(m)| then buf <= Wire(m) else Wire(m) <= buf
    ensures !Wraps(buf)
    ensures NextFrame(buf) == if |buf| < |Wire(m)| then Incomplete else Frame(m, buf[|Wire(m)|..])
  {
    if |buf| >= HEADER_SIZE { WireLength(m, buf); }
    if |buf| >= |Wire(m)| { WireParts(m, buf); }
  }

  lemma WireLength(m: Message, buf: seq<byte>)
    requires HEADER_SIZE <= |buf| && |m.data| + HEADER_SIZE < WORD
    requires if |buf| < |Wire(m)| then buf <= Wire(m) else Wire(m) <= buf
    ensures GetUint32(buf[..4]) == |m.data|
  {
    LengthRoundTrip(|m.data|);
    assert buf[..4] == Wire(m)[..4] == PutUint32(|m.data|);
  }

  lemma WireParts(m: Message, buf: seq<byte>)
    requires Wire(m) <= buf
    ensures buf[4] == m.msgId && buf[HEADER_SIZE..|Wire(m)|] == m.data
  {
    var w := Wire(m);
    assert buf[..|w|] == w;
    assert buf[4] == w[4];
    assert buf[HEADER_SIZE..|w|] == w[HEADER_SIZE..] == m.data;
  }

  lemma {:induction false} DrainCuts(ms: seq<Message>, buf: seq<byte>)
    requires buf <= Stream(ms) && |buf| < WORD
    requires forall m :: m in ms ==> |m.data| + HEADER_SIZE < WORD
    ensures CutsExactly(ms, buf, Drain(buf))
    decreases |ms|
  {
    if ms == [] {
    } else {
      PrefixOfSum(buf, Wire(ms[0]), Stream(ms[1..]));
      NextCutsOne(ms[0], buf);
      var n := |Wire(ms[0])|;
      if n <= |buf| {
        DrainCuts(ms[1..], buf[n..]);
        CutsAppend([ms[0]], ms[1..], buf[n..], Drain(buf[n..]));
        assert ms == [ms[0]] + ms[1..] && buf == Wire(ms[0]) + buf[n..];
        assert Stream([ms[0]]) == Wire(ms[0]);
      }
    }
  }

  // Correct cutting of the later part of a stream is correct cutting of all of it.
  lemma CutsAppend(done: seq<Message>, todo: seq<Message>, input: seq<byte>, e: Drained)
    requires CutsExactly(todo, input, e)
    ensures CutsExactly(done + todo, Stream(done) + input, e.(messages := done + e.messages))
  {
    StreamSplits(done, e.messages);
    Associative(Stream(done), Stream(e.messages), e.rest);
    LeavesPartAppend(done, todo, e.messages, e.rest);
  }

  lemma LeavesPartAppend(done: seq<Message>, todo: seq<Message>, got: seq<Message>, rest: seq<byte>)
    requires LeavesPartOfNext(todo, got, rest)
    ensures LeavesPartOfNext(done + todo, done + got, rest)
  {
    assert done + got == (done + todo)[..|done + got|];
  }

  // One more chunk after a stream that has been cut correctly so far.
  lemma FeedOneMore(ms: seq<Message>, input: seq<byte>, d: Drained, chunk: seq<byte>)
    requires CutsExactly(ms, input, d) && input + chunk <= Stream(ms)
    requires forall m :: m in ms ==> |m.data| + HEADER_SIZE < WORD
    requires |d.rest| + |chunk| < WORD
    ensures CutsExactly(ms, input + chunk, FeedMore(d, chunk))
  {
    var todo := ms[|d.messages|..];
    assert ms == d.messages + todo;
    StreamSplits(d.messages, todo);
    Associative(Stream(d.messages), d.rest, chunk);
    PrefixOfSum(input + chunk, Stream(d.messages), Stream(todo));
    DrainCuts(todo, d.rest + chunk);
    CutsAppend(d.messages, todo, d.rest + chunk, Drain(d.rest + chunk));
  }

  /** Any split into read-sized chunks of any stream of packed messages within the bound is cut into
      exactly those messages, in order, with a proper prefix of the next frame left over and no
      uint32 wrap-around anywhere. */
  lemma {:induction false} ChunkingIndependence(ms: seq<Message>, chunks: seq<seq<byte>>)
    requires Within(ms, MAX_PAYLOAD) && ReadSized(chunks) && Flatten(chunks) <= Stream(ms)
    ensures CutsExactly(ms, Flatten(chunks), Feed(chunks))
  {
    if chunks == [] {
    } else {
      var init := chunks[..|chunks| - 1];
      ChunkingIndependence(ms, init);
      FeedOneMore(ms, Flatten(init), Feed(init), chunks[|init|]);
    }
  }

  lemma AllArrived(ms: seq<Message>, d: Drained)
    requires CutsExactly(ms, Stream(ms), d)
    ensures d.messages == ms && d.rest == []
  {
    var k := |d.messages|;
    assert ms == d.messages + ms[k..];
    StreamSplits(d.messages, ms[k..]);
  }

  // The same while the whole input is shorter than 2^32 bytes, whatever the chunks.
  lemma {:induction false} ShortInputIsCut(ms: seq<Message>, chunks: seq<seq<byte>>)
    requires forall m :: m in ms ==> |m.data| + HEADER_SIZE < WORD
    requires Flatten(chunks) <= Stream(ms) && |Flatten(chunks)| < WORD
    ensures CutsExactly(ms, Flatten(chunks), Feed(chunks))
  {
    if chunks == [] {
    } else {
      var init := chunks[..|chunks| - 1];
      ShortInputIsCut(ms, init);
      FeedOneMore(ms, Flatten(init), Feed(init), chunks[|init|]);
    }
  }

  ghost predicate AlwaysCuts(limit: nat) {
    forall ms, chunks | Within(ms, limit) && ReadSized(chunks) && Flatten(chunks) <= Stream(ms) ::
      CutsExactly(ms, Flatten(chunks), Feed(chunks))
  }

  /** The bound is exact: payloads up to `limit` are cut correctly under every chunking if and only if
      limit is at most 2^32 - 4101. */
  lemma ExactBound(limit: nat)
    ensures AlwaysCuts(limit) <==> limit <= 0xFFFF_EFFB
  {
    if limit <= MAX_PAYLOAD {
      forall ms, chunks | Within(ms, limit) && ReadSized(chunks) && Flatten(chunks) <= Stream(ms)
        ensures CutsExactly(ms, Flatten(chunks), Feed(chunks))
      {
        ChunkingIndependence(ms, chunks);
      }
    } else {
      var ms, chunks := OneByteMoreStalls();
      assert Within(ms, limit);
    }
  }

  /** With one payload byte more there is a read-sized chunking after which the first message has
      arrived completely and the splitter, its length having wrapped to 0, still emits nothing. */
  lemma OneByteMoreStalls() returns (ms: seq<Message>, chunks: seq<seq<byte>>)
    ensures |ms| == 2 && Within(ms, MAX_PAYLOAD + 1) && ReadSized(chunks) && Flatten(chunks) <= Stream(ms)
    ensures Feed(chunks).messages == [] && !Feed(chunks).panicked && Feed(chunks).wrapped
    ensures Wire(ms[0]) <= Feed(chunks).rest
    ensures !CutsExactly(ms, Flatten(chunks), Feed(chunks))
  {
    ms := [Message(0, Zeros(MAX_PAYLOAD + 1)), Message(0, Zeros(READ_SIZE))];
    StreamOfTwo(ms[0], ms[1]);
    var stream := Wire(ms[0]) + Wire(ms[1]);
    var cut := WORD - READ_SIZE;
    var early, last := stream[..cut], stream[cut..WORD];
    var blocks := Blocks(early);
    BlocksFlatten(early);
    chunks := blocks + [last];
    assert chunks[..|chunks| - 1] == blocks && early + last == stream[..WORD];
    ShortInputIsCut(ms, blocks);
    assert Feed(blocks).messages == [];
    assert Feed(blocks).rest == early;
    assert NextFrame(early + last).Incomplete?;
    assert Wire(ms[0]) == stream[..|Wire(ms[0])|];
  }

  function Zeros(n: nat): (s: seq<byte>) ensures |s| == n { seq(n, _ => 0) }

  function Blocks(s: seq<byte>): seq<seq<byte>> {
    if |s| <= READ_SIZE then [s] else Blocks(s[..|s| - READ_SIZE]) + [s[|s| - READ_SIZE..]]
  }

  lemma {:induction false} BlocksFlatten(s: seq<byte>)
    ensures Flatten(Blocks(s)) == s && ReadSized(Blocks(s))
  {
    var blocks := Blocks(s);
    if |s| <= READ_SIZE {
      assert Flatten([s][..0]) == [];
    } else {
      BlocksFlatten(s[..|s| - READ_SIZE]);
      assert blocks[..|blocks| - 1] == Blocks(s[..|s| - READ_SIZE]);
    }
  }
}
