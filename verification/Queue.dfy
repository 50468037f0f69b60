/** The closable queue of engine/queue/imp/ring/queue.go: what each locked section does. */
module Queues {
  import opened RingBuffers

  datatype Call<T> =
    | Send(value: T)
    | BatchSend(values: seq<T>)
    | Receive(batch: bool)      // Receive and ReceiveBatch
    | TryReceive(batch: bool)   // TryReceive and TryReceiveBatch
    | Close

  // What the mutex protects.
  datatype Shared<T> = Shared(items: seq<T>, closed: bool)

  // How a locked section ends: the call returns, the thread waits on the condition variable, or it
  // still has to notify waiters (after unlocking for sends, before unlocking for Close).
  datatype Verdict<T> =
    | Return(values: seq<T>, ok: bool)
    | Wait
    | Signal
    | Broadcast

  datatype Effect<T> = Effect(next: Shared<T>, accepted: seq<T>, removed: seq<T>, verdict: Verdict<T>)

  predicate Sends<T>(call: Call<T>) { call.Send? || call.BatchSend? }

  predicate Takes<T>(call: Call<T>) { call.Receive? || call.TryReceive? }

  function Offered<T>(call: Call<T>): seq<T> {
    match call
    case Send(v) => [v]
    case BatchSend(vs) => vs
    case _ => []
  }

  /** What the calls promise: an open queue accepts all that is offered, a closed one nothing, and only
      that makes a send report false; a batch receive takes everything and a single one the first item;
      a blocking receive waits exactly on an empty open queue and fails exactly on an empty closed one;
      the others never wait, and on an empty queue answer false, the batch form only when it is closed. */
  function Section<T>(sh: Shared<T>, call: Call<T>): (e: Effect<T>)
    ensures e.accepted == if sh.closed then [] else Offered(call)
    ensures Sends(call) ==> (sh.closed <==> e.verdict == Return([], false))
    ensures |e.removed| == if !Takes(call) || sh.items == [] then 0 else if call.batch then |sh.items| else 1
    ensures call.Receive? ==> (e.verdict.Wait? <==> sh.items == [] && !sh.closed)
    ensures call.Receive? && e.verdict.Return? ==> (e.verdict.ok <==> sh.items != [])
    ensures call.TryReceive? ==>
              e.verdict.Return? && (e.verdict.ok <==> sh.items != [] || (call.batch && !sh.closed))
    ensures Sends(call) && !sh.closed ==>
              e.verdict == if |Offered(call)| > 1 then Broadcast
                           else if |Offered(call)| == 1 then Signal else Return([], true)
    ensures call.Close? ==> e.verdict == if sh.closed then Return([], true) else Broadcast
    ensures e.next.closed <==> sh.closed || call.Close?
    ensures sh.items + e.accepted == e.removed + e.next.items
    ensures e.verdict.Return? ==> e.verdict.values == e.removed
    ensures !e.verdict.Return? ==> e.removed == []
  {
    match call
    case Send(v) =>
      if sh.closed then Effect(sh, [], [], Return([], false))
      else Effect(sh.(items := sh.items + [v]), [v], [], Signal)
    case BatchSend(vs) =>
      if sh.closed then Effect(sh, [], [], Return([], false))
      else Effect(sh.(items := sh.items + vs), vs, [],
                  if |vs| > 1 then Broadcast else if |vs| > 0 then Signal else Return([], true))
    case Receive(batch) =>
      if sh.items == [] && !sh.closed then Effect(sh, [], [], Wait)
      else if sh.items == [] then Effect(sh, [], [], Return([], false))
      else Take(sh, batch)
    case TryReceive(batch) =>
      if sh.items == [] then Effect(sh, [], [], Return([], batch && !sh.closed))
      else Take(sh, batch)
    case Close =>
      if sh.closed then Effect(sh, [], [], Return([], true))
      else Effect(sh.(closed := true), [], [], Broadcast)
  }

  function Take<T>(sh: Shared<T>, batch: bool): Effect<T>
    requires sh.items != []
  {
    var n := if batch then |sh.items| else 1;
    Effect(sh.(items := sh.items[n..]), [], sh.items[..n], Return(sh.items[..n], true))
  }

  /** The object behind the mutex. Each method is the code one call runs from Lock() to the matching
      Unlock() or Wait(); the condition variable and the interleaving are in QueueMachine. */
  class Queue<T(0)> {
    const buffer: RingBuffer<T>
    var closed: bool
    var notifyClosed: bool   // the notifyClose channel has been closed

    ghost predicate Valid()
      reads this, buffer, buffer.buffer
    {
      buffer.Valid() && notifyClosed == closed
    }

    ghost function Value(): Shared<T>
      requires Valid()
      reads this, buffer, buffer.buffer
    {
      Shared(buffer.Contents(), closed)
    }

    constructor (baseBufferCount: nat, zero: T)
      requires 0 < baseBufferCount
      ensures Valid() && fresh(buffer) && fresh(buffer.buffer) && Value() == Shared([], false)
    {
      buffer := new RingBuffer(baseBufferCount, zero);
      closed, notifyClosed := false, false;
    }

    method SendSection(value: T) returns (verdict: Verdict<T>)
      requires Valid()
      modifies buffer, buffer.buffer
      ensures Valid() && (buffer.buffer == old(buffer.buffer) || fresh(buffer.buffer))
      ensures var e := Section(old(Value()), Send(value)); Value() == e.next && verdict == e.verdict
    {
      if closed { return Return([], false); }
      buffer.Push(value);
      return Signal;
    }

    method BatchSendSection(values: seq<T>) returns (verdict: Verdict<T>)
      requires Valid()
      modifies buffer, buffer.buffer
      ensures Valid() && (buffer.buffer == old(buffer.buffer) || fresh(buffer.buffer))
      ensures var e := Section(old(Value()), BatchSend(values)); Value() == e.next && verdict == e.verdict
    {
      if closed { return Return([], false); }
      buffer.PushBatch(values);
      if |values| > 1 { return Broadcast; }
      if |values| > 0 { return Signal; }
      return Return([], true);
    }

    // One pass through the wait loop of Receive (or ReceiveBatch): Wait means the loop goes on.
    method ReceiveSection(batch: bool) returns (verdict: Verdict<T>)
      requires Valid()
      modifies buffer, buffer.buffer
      ensures Valid() && buffer.buffer == old(buffer.buffer)
      ensures var e := Section(old(Value()), Receive(batch)); Value() == e.next && verdict == e.verdict
    {
      if buffer.count == 0 && !closed { return Wait; }
      if buffer.count == 0 && closed { return Return([], false); }
      verdict := TakeSection(batch);
    }

    method TryReceiveSection(batch: bool) returns (verdict: Verdict<T>)
      requires Valid()
      modifies buffer, buffer.buffer
      ensures Valid() && buffer.buffer == old(buffer.buffer)
      ensures var e := Section(old(Value()), TryReceive(batch)); Value() == e.next && verdict == e.verdict
    {
      if buffer.count == 0 { return Return([], batch && !closed); }
      verdict := TakeSection(batch);
    }

    method TakeSection(batch: bool) returns (verdict: Verdict<T>)
      requires Valid() && buffer.count != 0
      modifies buffer, buffer.buffer
      ensures Valid() && buffer.buffer == old(buffer.buffer)
      ensures var e := Take(old(Value()), batch); Value() == e.next && verdict == e.verdict
    {
      if batch {
        var all := buffer.PopAll();
        verdict := Return(all, true);
      } else {
        var value, _ := buffer.Pop();
        verdict := Return([value], true);
      }
    }

    method CloseSection() returns (verdict: Verdict<T>)
      requires Valid()
      modifies this
      ensures Valid()
      ensures var e := Section(old(Value()), Close); Value() == e.next && verdict == e.verdict
    {
      if closed { return Return([], true); }
      closed, notifyClosed := true, true;
      return Broadcast;
    }
  }
}
