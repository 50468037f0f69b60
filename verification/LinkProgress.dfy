/** A link that is left alone finishes: without new calls and without failures every schedule of the
    goroutines, the writes and the reads ends, because every step does some of a bounded amount of work,
    and it ends with nothing left to deliver. */
module LinkProgress {
  import opened Basics
  import opened Counting
  import opened Queues
  import Q = QueueMachine
  import opened Packets
  import opened Links

  // What the goroutines do by themselves: no new call, no failure, no read or write of no bytes.
  predicate Calm(a: Action) {
    a.QueueStep? || a.Dequeue? || a.Take? || a.End? || (a.Write? && a.n > 0) || (a.Read? && a.n > 0)
  }

  ghost predicate CalmStep(s: Link, s': Link)
    requires |s.queue.pcs| > SENDER
  {
    exists a :: Calm(a) && Act(s, a, s')
  }

  ghost predicate Finished(s: Link)
    requires |s.queue.pcs| > SENDER
  {
    forall s' :: !CalmStep(s, s')
  }

  /** A link without failures in which nothing can move is at rest: the sender waits on an empty open
      queue or has ended on a closed one, and nothing is left in the queue, in hand or on the wire. */
  lemma FinishedIsDrained(s: Link)
    requires Inv(s) && s.receiving && !s.writeFailed && Finished(s)
    ensures AtRest(s) && AllDrained(s)
  {
    if !Q.Quiet(s.queue) { SomeGoroutineMoves(s); }
    if s.wire != [] { ReadMoves(s); }
    if s.msg != [] { WriteMoves(s); }
    if s.queue.pcs[SENDER].Idle? && !s.ended { DequeueMoves(s); }
    RestIsDrained(s);
  }

  lemma SomeGoroutineMoves(s: Link)
    requires Inv(s) && !Q.Quiet(s.queue)
    ensures !Finished(s)
  {
    var q := s.queue;
    var t: nat :| t < |q.pcs| && !q.pcs[t].Idle? && !q.pcs[t].Parked?;
    var u := if q.lock.Some? then q.lock.value else t;
    if u == SENDER && q.pcs[u].Returned? {
      var left := s.(queue := Q.Goto(q, SENDER, Q.Idle));
      if q.pcs[u].ok {
        var s' := left.(msg := q.pcs[u].values[0]);
        assert Act(s, Take, s') && Calm(Take);
        assert CalmStep(s, s');
      } else {
        var s' := left.(ended := true);
        assert Act(s, End, s') && Calm(End);
        assert CalmStep(s, s');
      }
    } else {
      var s' := s.(queue := Q.Moved(q, u));
      assert Act(s, QueueStep(u), s') && Calm(QueueStep(u));
      assert CalmStep(s, s');
    }
  }

  lemma ReadMoves(s: Link)
    requires |s.queue.pcs| > SENDER && s.receiving && s.wire != []
    ensures !Finished(s)
  {
    var a := Read(if |s.wire| < READ_SIZE then |s.wire| else READ_SIZE);
    var s' := s.(wire := s.wire[a.n..], chunks := s.chunks + [s.wire[..a.n]]);
    assert Act(s, a, s') && Calm(a);
    assert CalmStep(s, s');
  }

  lemma WriteMoves(s: Link)
    requires Inv(s) && !s.writeFailed && s.msg != []
    ensures !Finished(s)
  {
    var a := Write(|s.msg|);
    var s' := s.(wire := s.wire + s.msg[..a.n], msg := s.msg[a.n..]);
    assert Act(s, a, s') && Calm(a);
    assert CalmStep(s, s');
  }

  lemma DequeueMoves(s: Link)
    requires |s.queue.pcs| > SENDER && s.queue.pcs[SENDER].Idle? && s.msg == [] && !s.ended
    ensures !Finished(s)
  {
    var s' := s.(queue := Q.Goto(s.queue, SENDER, Q.Want(Receive(false))));
    assert Act(s, Dequeue, s') && Calm(Dequeue);
    assert CalmStep(s, s');
  }

  // Two steps for every byte of a packet, one to write it and one to read it, and six for dequeuing it.
  function PacketLoad(p: Packet): nat { 2 * |p| + 6 }

  // The packet that a goroutine's call still brings into the queue, or has taken out of it.
  function Load(pc: Q.PC<Packet>): nat {
    match pc
    case Want(call) => if call.Send? then PacketLoad(call.value) else 0
    case Locked(call, _) => if call.Send? then PacketLoad(call.value) else 0
    case Returned(call, values, ok) => if call.Receive? && ok && values != [] then PacketLoad(values[0]) else 0
    case _ => 0
  }

  function Freight(q: Q.State<Packet>): nat { Sum(q.pcs, Load) + Sum(q.shared.items, PacketLoad) }

  // More than the number of steps that the link can still take by itself.
  function Work(s: Link): nat
    requires |s.queue.pcs| > SENDER
  {
    Q.Rank(s.queue) + Freight(s.queue)
    + (if s.queue.pcs[SENDER].Idle? && !s.ended then 6 else 0) + 2 * |s.msg| + |s.wire|
  }

  // Packets only move, or are refused.
  lemma FreightKept(q: Q.State<Packet>, t: nat, q': Q.State<Packet>)
    requires Roles(q) && t < |q.pcs| && Q.Internal(q, t, q')
    requires t == SENDER ==> !q.pcs[t].Returned?
    ensures Freight(q') <= Freight(q)
  {
    if q.pcs[t].Locked? {
      SectionFreight(q, t);
    } else if q.pcs[t].Signalling? || q.pcs[t].Broadcasting? {
      WakingFreight(q, t, q');
    } else {
      SumUpdate(q.pcs, t, q'.pcs[t], Load);
    }
  }

  lemma SectionFreight(q: Q.State<Packet>, t: nat)
    requires Roles(q) && t < |q.pcs| && q.pcs[t].Locked?
    ensures Freight(Q.RunSection(q, t, q.pcs[t].call)) <= Freight(q)
  {
    var call := q.pcs[t].call;
    var pc := Q.RunSection(q, t, call).pcs[t];
    SectionPC(q, t, call);
    SectionLoads(q.shared, call);
    SumUpdate(q.pcs, t, pc, Load);
  }

  lemma SectionPC(q: Q.State<Packet>, t: nat, call: Call<Packet>)
    requires Roles(q) && t < |q.pcs| && q.pcs[t].Locked? && q.pcs[t].call == call
    ensures call.Send? || call == Close || call == Receive(false)
    ensures var e, q' := Section(q.shared, call), Q.RunSection(q, t, call);
            && q'.pcs == q.pcs[t := q'.pcs[t]] && q'.shared == e.next
            && Load(q'.pcs[t]) == if call.Receive? && e.removed != [] then PacketLoad(e.removed[0]) else 0
  {}

  lemma SectionLoads(sh: Shared<Packet>, call: Call<Packet>)
    requires call.Send? || call == Close || call == Receive(false)
    ensures var e := Section(sh, call);
            Sum(e.next.items, PacketLoad) + (if call.Receive? && e.removed != [] then PacketLoad(e.removed[0]) else 0)
              <= Sum(sh.items, PacketLoad) + (if call.Send? then PacketLoad(call.value) else 0)
  {
    if call.Send? {
      assert (sh.items + [call.value])[..|sh.items|] == sh.items;
    } else if call.Receive? && sh.items != [] {
      SumFirst(sh.items, PacketLoad);
    }
  }

  lemma WakingFreight(q: Q.State<Packet>, t: nat, q': Q.State<Packet>)
    requires Roles(q) && t < |q.pcs| && Q.Internal(q, t, q')
    requires q.pcs[t].Signalling? || q.pcs[t].Broadcasting?
    ensures Freight(q') <= Freight(q)
  {
    if q.pcs[t].Broadcasting? {
      SumGrows(q.pcs, Q.WakeAll(q.pcs), Load, 0);
      SumUpdate(Q.WakeAll(q.pcs), t, q'.pcs[t], Load);
    } else if Q.NobodyListed(q) {
      SumUpdate(q.pcs, t, q'.pcs[t], Load);
    } else {
      var w: nat :| Q.Wakes(q, t, w, q');
      SignalFreight(q, t, w, q');
    }
  }

  lemma SignalFreight(q: Q.State<Packet>, t: nat, w: nat, q': Q.State<Packet>)
    requires t < |q.pcs| && q.pcs[t].Signalling? && Q.Wakes(q, t, w, q')
    ensures Freight(q') <= Freight(q)
  {
    SumUpdate(q.pcs, w, Q.Notified(q.pcs[w]), Load);
    SumUpdate(q.pcs[w := Q.Notified(q.pcs[w])], t, q'.pcs[t], Load);
  }

  lemma QueueStepShrinks(s: Link, t: nat, s': Link)
    requires Inv(s) && Act(s, QueueStep(t), s')
    ensures |s'.queue.pcs| > SENDER && Work(s') < Work(s)
  {
    Q.RankDecreases(s.queue, t, s'.queue);
    FreightKept(s.queue, t, s'.queue);
    QueueStepHands(s.queue, t, s'.queue);
  }

  // The sender calls Dequeue or leaves it.
  lemma SenderStepShrinks(s: Link, a: Action, s': Link)
    requires Inv(s) && Act(s, a, s') && (a.Dequeue? || a.Take? || a.End?)
    ensures |s'.queue.pcs| > SENDER && Work(s') < Work(s)
  {
    var q, q' := s.queue, s'.queue;
    SumUpdate(q.pcs, SENDER, q'.pcs[SENDER], Q.Fuel(|q.pcs|));
    SumUpdate(q.pcs, SENDER, q'.pcs[SENDER], Load);
  }

  /** Every step that the link takes by itself brings it nearer to the end. */
  lemma WorkShrinks(s: Link, a: Action, s': Link)
    requires Inv(s) && Calm(a) && Act(s, a, s')
    ensures |s'.queue.pcs| > SENDER && Work(s') < Work(s)
    ensures s'.receiving == s.receiving && s'.writeFailed == s.writeFailed
  {
    if a.QueueStep? {
      QueueStepShrinks(s, a.t, s');
    } else if a.Dequeue? || a.Take? || a.End? {
      SenderStepShrinks(s, a, s');
    }
  }

  lemma CalmActShrinks(s: Link, a: Action, s': Link)
    requires Inv(s) && Calm(a) && Act(s, a, s')
    ensures Inv(s') && Work(s') < Work(s)
    ensures s'.receiving == s.receiving && s'.writeFailed == s.writeFailed
  {
    WorkShrinks(s, a, s');
    ActKeeps(s, a, s');
  }
}
