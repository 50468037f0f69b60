/** One direction of a connection, end to end: SendMessage (engine/net/client/client.go) into the
    queue, senderRun onto the wire in partial writes, receiverRun off the wire in chunks
    (engine/net/connect/socket/conn.go), the splitter, and onMessage. The queue is the full goroutine
    machine of QueueMachine with the sender as goroutine 0; the others call SendMessage or Disconnect. */
module Links {
  import opened Basics
  import opened Counting
  import opened Queues
  import Q = QueueMachine
  import opened Packets
  import opened Splitters

  type Packet = seq<byte>

  datatype Link = Link(
    queue: Q.State<Packet>,
    msg: seq<byte>,                // what the sender still has to write of the packet it took
    ended: bool,                   // senderRun has returned
    writeFailed: bool,
    wire: seq<byte>,               // written and not yet read
    chunks: seq<seq<byte>>,        // what each Read returned
    receiving: bool)

  datatype Action =
    | SendMessage(t: nat, msgId: nat, data: seq<byte>)
    | Disconnect(t: nat)
    | QueueStep(t: nat)
    | Dequeue
    | Take                         // Dequeue returned a packet
    | End                          // Dequeue returned false; the connection is closed
    | Write(n: nat)
    | WriteFails(n: nat)
    | Read(n: nat)
    | ReadFails

  const SENDER: nat := 0

  ghost predicate Init(s: Link) {
    && Q.Init(s.queue) && |s.queue.pcs| > SENDER
    && s.msg == [] && !s.ended && !s.writeFailed && s.wire == [] && s.chunks == [] && s.receiving
  }

  ghost predicate Act(s: Link, a: Action, s': Link)
    requires |s.queue.pcs| > SENDER
  {
    var q := s.queue;
    var mine := q.pcs[SENDER];
    match a
    case SendMessage(t, msgId, data) =>
      && SENDER < t < |q.pcs| && q.pcs[t].Idle?
      && var packet := PackMessage(msgId, data);
      && s' == if packet.None? then s else s.(queue := Q.Goto(q, t, Q.Want(Send(packet.value))))
    case Disconnect(t) =>
      SENDER < t < |q.pcs| && q.pcs[t].Idle? && s' == s.(queue := Q.Goto(q, t, Q.Want(Close)))
    case QueueStep(t) =>
      && t < |q.pcs| && (t == SENDER ==> !mine.Returned?)
      && Q.Internal(q, t, s'.queue) && s' == s.(queue := s'.queue)
    case Dequeue =>
      mine.Idle? && s.msg == [] && !s.ended && s' == s.(queue := Q.Goto(q, SENDER, Q.Want(Receive(false))))
    case Take =>
      && mine.Returned? && mine.ok && mine.values != []
      && s' == s.(queue := Q.Goto(q, SENDER, Q.Idle), msg := mine.values[0])
    case End =>
      mine.Returned? && !mine.ok && s' == s.(queue := Q.Goto(q, SENDER, Q.Idle), ended := true)
    case Write(n) =>
      && !s.ended && s.msg != [] && n <= |s.msg|
      && s' == s.(wire := s.wire + s.msg[..n], msg := s.msg[n..])
    case WriteFails(n) =>
      && !s.ended && s.msg != [] && n <= |s.msg|
      && s' == s.(wire := s.wire + s.msg[..n], msg := s.msg[n..], ended := true, writeFailed := true)
    case Read(n) =>
      && s.receiving && n <= READ_SIZE && n <= |s.wire|
      && s' == s.(wire := s.wire[n..], chunks := s.chunks + [s.wire[..n]])
    case ReadFails => s' == s.(receiving := false)
  }

  // The message a packet was made from.
  function Unpack(p: Packet): Message {
    if |p| < HEADER_SIZE then Message(0, []) else Message(p[4], p[HEADER_SIZE..])
  }

  predicate IsPacket(p: Packet) { Wire(Unpack(p)) == p }

  // The messages whose SendMessage succeeded, in queue order, and the ones onMessage has been given.
  function Accepted(s: Link): seq<Message> { Messages(s.queue.accepted) }
  function Messages(ps: seq<Packet>): seq<Message> { seq(|ps|, i requires 0 <= i < |ps| => Unpack(ps[i])) }
  function Delivered(s: Link): seq<Message> { Feed(s.chunks).messages }

  // The packet that Dequeue is about to hand to the sender.
  function Handed(s: Link): seq<byte>
    requires |s.queue.pcs| > SENDER
  {
    var mine := s.queue.pcs[SENDER];
    if mine.Returned? && mine.ok then Flatten(mine.values) else []
  }

  ghost predicate Bytes(s: Link)
    requires |s.queue.pcs| > SENDER
  {
    if s.writeFailed then Flatten(s.chunks) + s.wire <= Flatten(s.queue.removed)
    else Flatten(s.chunks) + s.wire + s.msg + Handed(s) == Flatten(s.queue.removed)
  }

  // Only packets go in, and only goroutine 0 takes them out, one at a time.
  ghost predicate Roles(q: Q.State<Packet>) {
    && (forall t :: 0 <= t < |q.pcs| ==> if t == SENDER then SenderPC(q.pcs[t]) else CallerPC(q.pcs[t]))
    && (forall p :: p in q.accepted ==> IsPacket(p))
  }

  predicate SenderPC(pc: Q.PC<Packet>) {
    match pc
    case Idle => true
    case Want(call) => call == Receive(false)
    case Locked(call, _) => call == Receive(false)
    case Returned(call, values, ok) => call == Receive(false) && |values| == Bit(ok)
    case Enlisted(batch, _) => !batch
    case Parked(batch) => !batch
    case Woken(batch) => !batch
    case _ => false
  }

  predicate CallerPC(pc: Q.PC<Packet>) {
    match pc
    case Idle => true
    case Enlisted(_, _) => false
    case Parked(_) => false
    case Woken(_) => false
    case Unlocking => true
    case _ => pc.call == Close || (pc.call.Send? && IsPacket(pc.call.value))
  }

  ghost predicate Inv(s: Link) {
    && |s.queue.pcs| > SENDER && Q.Inv(s.queue) && Roles(s.queue) && Bytes(s)
    && ReadSized(s.chunks)
    && (s.writeFailed ==> s.ended)
    && (s.msg != [] || s.ended ==> s.queue.pcs[SENDER].Idle?)
    && (s.ended && !s.writeFailed ==> s.queue.shared == Shared([], true) && s.msg == [])
  }

  lemma {:induction false} FlattenSplits(a: seq<seq<byte>>, b: seq<seq<byte>>)
    ensures Flatten(a + b) == Flatten(a) + Flatten(b)
  {
    if b == [] {
      assert a + b == a;
    } else {
      var init := b[..|b| - 1];
      FlattenSplits(a, init);
      assert (a + b)[..|a + b| - 1] == a + init && (a + b)[|a + b| - 1] == b[|b| - 1];
      Associative(Flatten(a), Flatten(init), b[|b| - 1]);
    }
  }

  lemma FlattenOne(p: seq<byte>)
    ensures Flatten([p]) == p
  {
    assert [p][..0] == [];
  }

  lemma PackedIsPacket(msgId: nat, data: seq<byte>)
    requires msgId <= MAX_MSG_ID
    ensures Unpack(PackMessage(msgId, data).value) == Message(msgId, data) && IsPacket(PackMessage(msgId, data).value)
  {
    assert PackMessage(msgId, data).value[HEADER_SIZE..] == data;
  }

  lemma {:induction false} FlattenIsStream(ps: seq<Packet>)
    requires forall p :: p in ps ==> IsPacket(p)
    ensures Flatten(ps) == Stream(Messages(ps))
  {
    if ps == [] {
    } else {
      var init, last := ps[..|ps| - 1], ps[|ps| - 1];
      FlattenIsStream(init);
      assert Messages(ps) == Messages(init) + [Unpack(last)];
      StreamSplits(Messages(init), [Unpack(last)]);
      assert last in ps;
      assert Stream([Unpack(last)]) == Wire(Unpack(last)) == last;
    }
  }

  lemma RolesKept(q: Q.State<Packet>, t: nat, q': Q.State<Packet>)
    requires Roles(q) && Q.Exclusion(q) && t < |q.pcs| && Q.Internal(q, t, q')
    requires t == SENDER ==> !q.pcs[t].Returned?
    ensures Roles(q')
  {
    if q.pcs[t].Locked? {
      SectionKeepsRoles(q, t, q.pcs[t].call);
    } else if q.pcs[t].Signalling? || q.pcs[t].Broadcasting? {
      WakingKeepsRoles(q, t, q');
    }
  }

  lemma WakingKeepsRoles(q: Q.State<Packet>, t: nat, q': Q.State<Packet>)
    requires Roles(q) && t < |q.pcs| && Q.Internal(q, t, q')
    requires q.pcs[t].Signalling? || q.pcs[t].Broadcasting?
    ensures Roles(q')
  {
    if q.pcs[t].Signalling? && !Q.NobodyListed(q) {
      var w: nat :| Q.Wakes(q, t, w, q');
    }
  }

  lemma SectionKeepsRoles(q: Q.State<Packet>, t: nat, call: Call<Packet>)
    requires Roles(q) && t < |q.pcs| && q.pcs[t].Locked? && q.pcs[t].call == call
    ensures Roles(Q.RunSection(q, t, call))
  {}

  // What one queue step does to the packets taken out: only the sender takes, and then holds them.
  lemma QueueStepHands(q: Q.State<Packet>, t: nat, q': Q.State<Packet>)
    requires |q.pcs| > SENDER && Roles(q) && t < |q.pcs| && Q.Internal(q, t, q')
    requires t == SENDER ==> !q.pcs[t].Returned?
    ensures |q'.pcs| == |q.pcs|
    ensures var mine, mine' := q.pcs[SENDER], q'.pcs[SENDER];
            if t == SENDER && mine.Locked? && mine'.Returned? && mine'.ok
            then q'.removed == q.removed + mine'.values
            else q'.removed == q.removed && (mine'.Returned? && mine'.ok ==> mine' == mine)
    ensures q.pcs[SENDER].Returned? ==> q'.pcs[SENDER] == q.pcs[SENDER]
    ensures q.pcs[SENDER].Idle? ==> q'.pcs[SENDER].Idle?
    ensures q.shared == Shared([], true) ==> q'.shared == q.shared
  {
    if q.pcs[t].Signalling? && !Q.NobodyListed(q) {
      var w: nat :| Q.Wakes(q, t, w, q');
    }
  }

  lemma QueueStepKeeps(s: Link, t: nat, s': Link)
    requires Inv(s) && Act(s, QueueStep(t), s')
    ensures Inv(s')
  {
    var q, q' := s.queue, s'.queue;
    RolesKept(q, t, q');
    QueueStepHands(q, t, q');
    assert Q.Next(q, t, q');
    Q.InvKept(q, t, q');
    BytesHanded(s, s');
  }

  // The packet taken out is what the sender is handed.
  lemma BytesHanded(s: Link, s': Link)
    requires |s.queue.pcs| > SENDER && |s'.queue.pcs| > SENDER && Bytes(s)
    requires s' == s.(queue := s'.queue)
    requires var mine, mine' := s.queue.pcs[SENDER], s'.queue.pcs[SENDER];
             if mine.Locked? && mine'.Returned? && mine'.ok
             then s'.queue.removed == s.queue.removed + mine'.values && s.msg == []
             else s'.queue.removed == s.queue.removed && Handed(s') == Handed(s)
    ensures Bytes(s')
  {
    var mine' := s'.queue.pcs[SENDER];
    if s.queue.pcs[SENDER].Locked? && mine'.Returned? && mine'.ok {
      FlattenSplits(s.queue.removed, mine'.values);
    }
  }

  lemma CallKeeps(s: Link, t: nat, call: Call<Packet>, s': Link)
    requires Inv(s) && t < |s.queue.pcs| && s.queue.pcs[t].Idle?
    requires s' == s.(queue := Q.Goto(s.queue, t, Q.Want(call)))
    requires if t == SENDER then call == Receive(false) && s.msg == [] && !s.ended
             else call == Close || (call.Send? && IsPacket(call.value))
    ensures Inv(s')
  {
    assert Q.Calls(s.queue, t, s'.queue);
    Q.InvKept(s.queue, t, s'.queue);
  }

  lemma TakeKeeps(s: Link, s': Link)
    requires Inv(s) && Act(s, Take, s')
    ensures Inv(s')
  {
    SenderLeavesQueue(s.queue, s'.queue);
    var values := s.queue.pcs[SENDER].values;
    assert values == [values[0]];
    FlattenOne(values[0]);
    EmptyMoves(Flatten(s.chunks) + s.wire, s.msg, values[0]);
  }

  lemma EndKeeps(s: Link, s': Link)
    requires Inv(s) && Act(s, End, s')
    ensures Inv(s')
  {
    SenderLeavesQueue(s.queue, s'.queue);
  }

  lemma SenderLeavesQueue(q: Q.State<Packet>, q': Q.State<Packet>)
    requires |q.pcs| > SENDER && Q.Inv(q) && Roles(q) && q.pcs[SENDER].Returned?
    requires q' == Q.Goto(q, SENDER, Q.Idle)
    ensures Q.Inv(q') && Roles(q')
  {
    assert Q.Internal(q, SENDER, q');
    Q.InvKept(q, SENDER, q');
  }

  lemma EmptyMoves(a: seq<byte>, empty: seq<byte>, b: seq<byte>)
    requires empty == []
    ensures a + empty + b == a + b + empty
  {}

  lemma WriteKeeps(s: Link, a: Action, s': Link)
    requires Inv(s) && Act(s, a, s') && (a.Write? || a.WriteFails?)
    ensures Inv(s')
  {
    PieceMoves(Flatten(s.chunks) + s.wire, s.msg, a.n);
    assert Flatten(s.chunks) + s'.wire == Flatten(s.chunks) + s.wire + s.msg[..a.n];
  }

  lemma ReadKeeps(s: Link, n: nat, s': Link)
    requires Inv(s) && Act(s, Read(n), s')
    ensures Inv(s')
  {
    ReadMovesBytes(s.chunks, s.wire, n);
  }

  lemma ReadMovesBytes(chunks: seq<seq<byte>>, wire: seq<byte>, n: nat)
    requires n <= |wire|
    ensures Flatten(chunks + [wire[..n]]) + wire[n..] == Flatten(chunks) + wire
  {
    assert (chunks + [wire[..n]])[..|chunks|] == chunks;
    PieceMoves(Flatten(chunks), wire, n);
  }

  lemma PieceMoves(a: seq<byte>, b: seq<byte>, n: nat)
    requires n <= |b|
    ensures a + b[..n] + b[n..] == a + b
  {}

  lemma ActKeeps(s: Link, a: Action, s': Link)
    requires Inv(s) && Act(s, a, s')
    ensures Inv(s')
  {
    match a
    case SendMessage(t, msgId, data) =>
      if msgId <= MAX_MSG_ID {
        PackedIsPacket(msgId, data);
        CallKeeps(s, t, Send(PackMessage(msgId, data).value), s');
      }
    case Disconnect(t) => CallKeeps(s, t, Close, s');
    case QueueStep(t) => QueueStepKeeps(s, t, s');
    case Dequeue => CallKeeps(s, SENDER, Receive(false), s');
    case Take => TakeKeeps(s, s');
    case End => EndKeeps(s, s');
    case Write(_) => WriteKeeps(s, a, s');
    case WriteFails(_) => WriteKeeps(s, a, s');
    case Read(n) => ReadKeeps(s, n, s');
    case ReadFails =>
  }

  // Nothing is under way between SendMessage and the splitter.
  ghost predicate AllDrained(s: Link) {
    && |s.queue.pcs| > SENDER
    && s.queue.shared.items == [] && Handed(s) == [] && s.msg == [] && s.wire == []
    && !s.writeFailed
  }

  // The queue is at rest, the sender waits in it (or has ended on its own), and nothing is left on the wire.
  ghost predicate AtRest(s: Link) {
    && |s.queue.pcs| > SENDER && Q.Quiet(s.queue)
    && (s.queue.pcs[SENDER].Parked? || s.ended)
    && s.msg == [] && s.wire == [] && !s.writeFailed
  }

  /** Whatever the queue has accepted: if the payloads respect the splitter's bound, onMessage has been
      given a prefix of it, cut without any wrap-around; all of it once everything is drained; and a link
      at rest is drained, whether or not it has been closed. */
  lemma InvDelivers(s: Link)
    requires Inv(s) && Within(Accepted(s), MAX_PAYLOAD)
    ensures CutsExactly(Accepted(s), Flatten(s.chunks), Feed(s.chunks))
    ensures AllDrained(s) ==> Delivered(s) == Accepted(s) && Feed(s.chunks).rest == []
    ensures AtRest(s) ==> AllDrained(s)
  {
    FlattenIsStream(s.queue.accepted);
    FlattenSplits(s.queue.removed, s.queue.shared.items);
    assert Flatten(s.chunks) <= Flatten(s.queue.removed) <= Stream(Accepted(s));
    ChunkingIndependence(Accepted(s), s.chunks);
    if AllDrained(s) { AllArrived(Accepted(s), Feed(s.chunks)); }
    if AtRest(s) { RestIsDrained(s); }
  }

  lemma RestIsDrained(s: Link)
    requires Inv(s) && AtRest(s)
    ensures AllDrained(s)
  {
    if s.queue.pcs[SENDER].Parked? { Q.QuietMeansServed(s.queue); }
  }

  lemma {:induction false} PanicStops(input: seq<seq<byte>>, k: nat)
    requires k <= |input| && Feed(input[..k]).panicked
    ensures Feed(input) == Feed(input[..k])
  {
    if k < |input| {
      var init := input[..|input| - 1];
      assert init[..k] == input[..k];
      PanicStops(init, k);
    } else {
      assert input[..k] == input;
    }
  }

  lemma FeedNext(input: seq<seq<byte>>, k: nat)
    requires k < |input| && !Feed(input[..k]).panicked
    ensures Feed(input[..k + 1]) == FeedMore(Feed(input[..k]), input[k])
  {
    assert input[..k + 1][..k] == input[..k];
  }

  /** receiverRun: every read lands in the same 4096-byte array, which the splitter copies out of.
      What onMessage gets is Feed of the input, and splitter.Valid() says that every payload it was
      given still has its bytes at the end. spare(k) is the capacity the k-th append may add. */
  method ReceiverRun(splitter: PacketSplitter, input: seq<seq<byte>>, spare: nat -> nat)
    requires splitter.Valid() && splitter.Buffer() == [] && splitter.issued == []
    requires ReadSized(input)
    modifies splitter, splitter.owned
    ensures splitter.Valid() && splitter.Delivered() == Feed(input).messages
    ensures splitter.Buffer() == Feed(input).rest
  {
    var buf := new byte[READ_SIZE](_ => 0);
    assert input[..0] == [];
    for k := 0 to |input|
      invariant splitter.Valid() && buf !in splitter.owned && fresh(splitter.owned - old(splitter.owned))
      invariant Has(splitter, Feed(input[..k])) && !Feed(input[..k]).panicked
    {
      FeedNext(input, k);
      var panicked := ReadOnce(splitter, buf, input[k], spare(k), Feed(input[..k]));
      if panicked {
        PanicStops(input, k + 1);
        return;
      }
    }
    assert input[..|input|] == input;
  }

  // The splitter has handed out d.messages and keeps d.rest.
  ghost predicate Has(splitter: PacketSplitter, d: Drained)
    requires splitter.Valid()
    reads splitter, splitter.owned
  {
    splitter.Delivered() == d.messages && splitter.Buffer() == d.rest
  }

  // One turn of the loop: Read fills the start of buf, then onDataFunc(buf[:n]).
  method ReadOnce(splitter: PacketSplitter, buf: array<byte>, chunk: seq<byte>, spare: nat, ghost d: Drained)
    returns (panicked: bool)
    requires splitter.Valid() && buf !in splitter.owned && |chunk| <= buf.Length && Has(splitter, d)
    modifies splitter, splitter.owned, buf
    ensures splitter.Valid() && buf !in splitter.owned && fresh(splitter.owned - old(splitter.owned))
    ensures Has(splitter, FeedMore(d, chunk)) && panicked == FeedMore(d, chunk).panicked
  {
    forall i | 0 <= i < |chunk| { buf[i] := chunk[i]; }
    splitter.CallerWrites(buf);
    assert buf[..|chunk|] == chunk;
    panicked := splitter.OnData(buf, |chunk|, spare);
  }

  // What one conn.Write returns: the bytes it took, at most those it was given, and whether err == nil.
  datatype WriteResult = WriteResult(n: nat, ok: bool)

  /** The inner loop of senderRun, for a link that has packet to write: Write number k returns
      results[k], and running out of them is a failure that takes nothing. The loop is a sequence of
      Write and WriteFails actions, at most one of them a failure, which ends it. */
  method WritePacket(packet: seq<byte>, results: seq<WriteResult>, ghost link: Link)
    returns (written: seq<byte>, failed: bool, ghost steps: seq<Link>)
    requires |link.queue.pcs| > SENDER && !link.ended && !link.writeFailed && link.msg == packet
    ensures written <= packet && (!failed ==> written == packet)
    ensures WriteSteps(link, steps) && steps[|steps| - 1] == AfterWrites(link, written, failed)
    ensures (written, failed) == Loop([], packet, results)
  {
    var msg, k := packet, 0;
    written, failed, steps := [], false, [link];
    while |msg| > 0
      invariant k <= |results| && written + msg == packet && written <= packet
      invariant Loop(written, msg, results[k..]) == Loop([], packet, results)
      invariant |steps| == k + 1 && WriteSteps(link, steps) && steps[k] == AfterWrites(link, written, false)
      decreases |results| - k
    {
      var result := if k < |results| then results[k] else WriteResult(0, false);
      var n := if result.n < |msg| then result.n else |msg|;
      PieceMoves(written, msg, n);
      assert msg == packet[|written|..];
      failed := !result.ok;
      assert k < |results| ==> results[k..][1..] == results[k + 1..];
      OneMoreWrite(link, steps, written, n, failed);
      steps := steps + [AfterWrites(link, written + msg[..n], failed)];
      written, msg := written + msg[..n], msg[n..];
      if failed { return; }
      k := k + 1;
    }
  }

  lemma OneMoreWrite(link: Link, steps: seq<Link>, written: seq<byte>, n: nat, failed: bool)
    requires |link.queue.pcs| > SENDER && WriteSteps(link, steps) && !link.ended && !link.writeFailed
    requires |written| + n <= |link.msg| && |written| < |link.msg|
    requires steps[|steps| - 1] == AfterWrites(link, written, false)
    ensures var piece := link.msg[|written|..][..n];
            WriteSteps(link, steps + [AfterWrites(link, written + piece, failed)])
  {
    var before, piece := steps[|steps| - 1], link.msg[|written|..][..n];
    var after := AfterWrites(link, written + piece, failed);
    Associative(link.wire, written, piece);
    assert before.msg[n..] == link.msg[|written| + n..];
    assert Act(before, if failed then WriteFails(n) else Write(n), after);
    assert WriteStep(before, after);
  }

  // What the results make of the loop: the bytes taken, and whether it ended in a failure.
  function Loop(done: seq<byte>, msg: seq<byte>, results: seq<WriteResult>): (seq<byte>, bool)
    decreases |results|
  {
    if msg == [] then (done, false)
    else if results == [] then (done, true)
    else
      var n := if results[0].n < |msg| then results[0].n else |msg|;
      if results[0].ok then Loop(done + msg[..n], msg[n..], results[1..]) else (done + msg[..n], true)
  }

  ghost predicate WriteSteps(link: Link, steps: seq<Link>) {
    && steps != [] && steps[0] == link
    && forall i :: 0 <= i < |steps| - 1 ==> WriteStep(steps[i], steps[i + 1])
  }

  ghost predicate WriteStep(s: Link, s': Link) {
    |s.queue.pcs| > SENDER && exists n :: Act(s, Write(n), s') || Act(s, WriteFails(n), s')
  }

  function AfterWrites(link: Link, written: seq<byte>, failed: bool): Link
    requires |written| <= |link.msg|
  {
    link.(msg := link.msg[|written|..], wire := link.wire + written, ended := failed, writeFailed := failed)
  }
}
