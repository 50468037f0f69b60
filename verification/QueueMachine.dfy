/** Any number of goroutines calling one queue (engine/queue/imp/ring/queue.go), one atomic action
    at a time: taking the mutex, running a locked section, Signal after unlocking, Broadcast, waking. */
module QueueMachine {
  import opened Basics
  import opened Counting
  import opened Queues

  // Where a goroutine is. Cond.Wait first puts it on the wait list, still holding the mutex, then
  // unlocks; a notification may find it in between. A woken goroutine still has to take the mutex
  // again and repeat the loop test.
  datatype PC<T> =
    | Idle
    | Want(call: Call<T>)
    | Locked(call: Call<T>, woken: bool)
    | Signalling(call: Call<T>)
    | Broadcasting(call: Call<T>)
    | Unlocking                  // the end of Close
    | Enlisted(batch: bool, woken: bool)
    | Parked(batch: bool)
    | Woken(batch: bool)
    | Returned(call: Call<T>, values: seq<T>, ok: bool)

  // accepted and removed are the whole history of what sends put in and receives took out, in lock order.
  datatype State<T> = State(
    shared: Shared<T>,
    lock: Option<nat>,
    pcs: seq<PC<T>>,
    accepted: seq<T>,
    removed: seq<T>)

  ghost predicate Init<T>(s: State<T>) {
    && s.shared == Shared([], false) && s.lock == None
    && s.accepted == [] && s.removed == []
    && forall t :: 0 <= t < |s.pcs| ==> s.pcs[t] == Idle
  }

  function Goto<T>(s: State<T>, t: nat, pc: PC<T>): State<T>
    requires t < |s.pcs|
  {
    s.(pcs := s.pcs[t := pc])
  }

  predicate HoldsLock<T>(pc: PC<T>) {
    pc.Locked? || pc.Enlisted? || pc.Unlocking? || (pc.Broadcasting? && pc.call.Close?)
  }

  // On the wait list, so that Signal and Broadcast can find it.
  predicate Listed<T>(pc: PC<T>) { pc.Parked? || (pc.Enlisted? && !pc.woken) }

  function Notified<T>(pc: PC<T>): PC<T> {
    if pc.Parked? then Woken(pc.batch) else if pc.Enlisted? then Enlisted(pc.batch, true) else pc
  }

  // The locked section of t's call, up to Unlock, Wait, or (for Close) the broadcast under the lock.
  function RunSection<T>(s: State<T>, t: nat, call: Call<T>): State<T>
    requires t < |s.pcs|
  {
    var e := Section(s.shared, call);
    var pc := match e.verdict
      case Return(values, ok) => Returned(call, values, ok)
      case Wait => Enlisted(call.Receive? && call.batch, false)
      case Signal => Signalling(call)
      case Broadcast => Broadcasting(call);
    State(e.next, if HoldsLock(pc) then s.lock else None,
          s.pcs[t := pc], s.accepted + e.accepted, s.removed + e.removed)
  }

  function WakeAll<T>(pcs: seq<PC<T>>): (r: seq<PC<T>>)
    ensures |r| == |pcs|
  {
    seq(|pcs|, i requires 0 <= i < |pcs| => Notified(pcs[i]))
  }

  // A call is made: the only step that is not internal to the queue.
  ghost predicate Calls<T(!new)>(s: State<T>, t: nat, s': State<T>)
    requires t < |s.pcs|
  {
    s.pcs[t].Idle? && exists call :: s' == Goto(s, t, Want(call))
  }

  // Signal wakes w, one of the waiting goroutines.
  ghost predicate Wakes<T>(s: State<T>, t: nat, w: nat, s': State<T>)
    requires t < |s.pcs| && s.pcs[t].Signalling?
  {
    w < |s.pcs| && Listed(s.pcs[w]) &&
    s' == Goto(Goto(s, w, Notified(s.pcs[w])), t, Returned(s.pcs[t].call, [], true))
  }

  predicate NobodyListed<T>(s: State<T>) { forall w :: 0 <= w < |s.pcs| ==> !Listed(s.pcs[w]) }

  ghost predicate Internal<T(!new)>(s: State<T>, t: nat, s': State<T>)
    requires t < |s.pcs|
  {
    match s.pcs[t]
    case Idle => false
    case Want(call) => s.lock == None && s' == Goto(s, t, Locked(call, false)).(lock := Some(t))
    case Woken(batch) => s.lock == None && s' == Goto(s, t, Locked(Receive(batch), true)).(lock := Some(t))
    case Locked(call, _) => s' == RunSection(s, t, call)
    case Signalling(call) =>
      if NobodyListed(s) then s' == Goto(s, t, Returned(call, [], true)) else exists w :: Wakes(s, t, w, s')
    case Broadcasting(call) =>
      s' == s.(pcs := WakeAll(s.pcs)[t := if call.Close? then Unlocking else Returned(call, [], true)])
    case Unlocking => s' == Goto(s, t, Returned(Close, [], true)).(lock := None)
    case Enlisted(batch, woken) => s' == Goto(s, t, if woken then Woken(batch) else Parked(batch)).(lock := None)
    case Parked(_) => false
    case Returned(_, _, _) => s' == Goto(s, t, Idle)
  }

  ghost predicate Next<T(!new)>(s: State<T>, t: nat, s': State<T>) {
    t < |s.pcs| && (Calls(s, t, s') || Internal(s, t, s'))
  }

  ghost predicate Steps<T(!new)>(s: State<T>, s': State<T>) { exists t :: Next(s, t, s') }

  // A finite run from the empty open queue, under any schedule.
  ghost predicate Run<T(!new)>(tr: seq<State<T>>) {
    tr != [] && Init(tr[0]) && forall i :: 0 <= i < |tr| - 1 ==> Steps(tr[i], tr[i + 1])
  }

  function Signals<T>(pc: PC<T>): nat { Bit(pc.Signalling?) }
  function Broadcasts<T>(pc: PC<T>): nat { Bit(pc.Broadcasting?) }
  function Rechecks<T>(pc: PC<T>): nat { Bit(pc.Woken? || (pc.Enlisted? && pc.woken) || (pc.Locked? && pc.woken)) }

  // Enough wake-ups are under way for the items in the buffer.
  ghost predicate Covered<T>(s: State<T>) {
    || Sum(s.pcs, Broadcasts) > 0
    || Sum(s.pcs, Signals) + Sum(s.pcs, Rechecks) >= |s.shared.items|
  }

  // Mutual exclusion, and what the threads inside rely on.
  ghost predicate Exclusion<T>(s: State<T>) {
    && (s.lock.Some? ==> s.lock.value < |s.pcs|)
    && (forall t :: 0 <= t < |s.pcs| ==> (HoldsLock(s.pcs[t]) <==> s.lock == Some(t)))
    && (forall t :: 0 <= t < |s.pcs| && s.pcs[t].Locked? && s.pcs[t].woken ==> s.pcs[t].call.Receive?)
  }

  ghost predicate NoLostWakeup<T>(s: State<T>) {
    s.shared.items != [] && !NobodyListed(s) ==> Covered(s)
  }

  ghost predicate CloseWakes<T>(s: State<T>) {
    && (Closing(s) ==> s.shared.closed)
    && (s.shared.closed && !NobodyListed(s) ==> Closing(s))
  }

  // A blocking receive reports failure only when the queue is closed and empty.
  ghost predicate FailuresFinal<T>(s: State<T>) {
    forall t :: 0 <= t < |s.pcs| && s.pcs[t].Returned? && s.pcs[t].call.Receive? && !s.pcs[t].ok ==>
      s.shared.closed && s.shared.items == []
  }

  ghost predicate Inv<T>(s: State<T>) {
    && Exclusion(s) && NoLostWakeup(s) && CloseWakes(s) && FailuresFinal(s)
    && History(s)
  }

  ghost predicate History<T>(s: State<T>) { s.accepted == s.removed + s.shared.items }

  // Close has set the flag but not yet broadcast.
  ghost predicate Closing<T>(s: State<T>) {
    s.lock.Some? && s.lock.value < |s.pcs| && s.pcs[s.lock.value].Broadcasting? && s.pcs[s.lock.value].call.Close?
  }

  lemma SumsUpdate<T>(pcs: seq<PC<T>>, t: nat, pc: PC<T>)
    requires t < |pcs|
    ensures Sum(pcs[t := pc], Signals) + Signals(pcs[t]) == Sum(pcs, Signals) + Signals(pc)
    ensures Sum(pcs[t := pc], Broadcasts) + Broadcasts(pcs[t]) == Sum(pcs, Broadcasts) + Broadcasts(pc)
    ensures Sum(pcs[t := pc], Rechecks) + Rechecks(pcs[t]) == Sum(pcs, Rechecks) + Rechecks(pc)
  {
    SumUpdate(pcs, t, pc, Signals);
    SumUpdate(pcs, t, pc, Broadcasts);
    SumUpdate(pcs, t, pc, Rechecks);
  }

  lemma ExclusionKept<T(!new)>(s: State<T>, t: nat, s': State<T>)
    requires Exclusion(s) && Next(s, t, s')
    ensures Exclusion(s')
  {
    if s.pcs[t].Locked? { SectionExcludes(s, t, s.pcs[t].call); }
  }

  lemma SectionExcludes<T>(s: State<T>, t: nat, call: Call<T>)
    requires Exclusion(s) && t < |s.pcs| && s.pcs[t].Locked? && s.pcs[t].call == call
    ensures Exclusion(RunSection(s, t, call))
  {}

  lemma NoLostWakeupKept<T(!new)>(s: State<T>, t: nat, s': State<T>)
    requires Exclusion(s) && NoLostWakeup(s) && Next(s, t, s')
    ensures NoLostWakeup(s')
  {
    var pc := s.pcs[t];
    if pc.Signalling? {
      SignalCovers(s, t, s');
    } else if pc.Broadcasting? {
      assert NobodyListed(s');
    } else if pc.Locked? {
      SectionCovers(s, t, pc.call);
    } else {
      SumsUpdate(s.pcs, t, s'.pcs[t]);
    }
  }

  // A signal that finds a waiter turns into one goroutine about to recheck.
  lemma SignalCovers<T(!new)>(s: State<T>, t: nat, s': State<T>)
    requires NoLostWakeup(s) && t < |s.pcs| && s.pcs[t].Signalling? && Internal(s, t, s')
    ensures NoLostWakeup(s')
  {
    if !NobodyListed(s) {
      var w: nat :| Wakes(s, t, w, s');
      SumsUpdate(s.pcs, w, Notified(s.pcs[w]));
      SumsUpdate(s.pcs[w := Notified(s.pcs[w])], t, s'.pcs[t]);
    }
  }

  lemma SectionCovers<T>(s: State<T>, t: nat, call: Call<T>)
    requires NoLostWakeup(s) && t < |s.pcs| && s.pcs[t].Locked? && s.pcs[t].call == call
    requires s.pcs[t].woken ==> call.Receive?
    ensures NoLostWakeup(RunSection(s, t, call))
  {
    var s' := RunSection(s, t, call);
    SumsUpdate(s.pcs, t, s'.pcs[t]);
    if s.shared.items != [] && NobodyListed(s) { assert NobodyListed(s'); }
  }

  lemma CloseWakesKept<T(!new)>(s: State<T>, t: nat, s': State<T>)
    requires Exclusion(s) && CloseWakes(s) && Next(s, t, s')
    ensures CloseWakes(s')
  {}

  lemma FailuresFinalKept<T(!new)>(s: State<T>, t: nat, s': State<T>)
    requires FailuresFinal(s) && Next(s, t, s')
    ensures FailuresFinal(s')
  {}

  lemma HistoryKept<T(!new)>(s: State<T>, t: nat, s': State<T>)
    requires History(s) && Next(s, t, s')
    ensures History(s')
  {
    if s.pcs[t].Locked? {
      var e := Section(s.shared, s.pcs[t].call);
      Reassociate(s.removed, s.shared.items, e.accepted, e.removed, e.next.items);
    }
  }

  lemma Reassociate<T>(a: seq<T>, b: seq<T>, c: seq<T>, d: seq<T>, e: seq<T>)
    requires b + c == d + e
    ensures a + b + c == a + d + e
  {
    assert a + b + c == a + (b + c);
    assert a + d + e == a + (d + e);
  }

  lemma InvKept<T(!new)>(s: State<T>, t: nat, s': State<T>)
    requires Inv(s) && Next(s, t, s')
    ensures Inv(s')
  {
    ExclusionKept(s, t, s');
    NoLostWakeupKept(s, t, s');
    CloseWakesKept(s, t, s');
    FailuresFinalKept(s, t, s');
    HistoryKept(s, t, s');
  }

  /** Mutual exclusion, no lost wake-up, nobody left parked by Close, final failures and FIFO order
      hold in every state of every run of any number of goroutines. */
  lemma {:induction false} EveryRunSafe<T(!new)>(tr: seq<State<T>>, i: nat)
    requires Run(tr) && i < |tr|
    ensures Inv(tr[i])
  {
    if i == 0 {
      assert History(tr[0]);
    } else {
      EveryRunSafe(tr, i - 1);
      assert Steps(tr[i - 1], tr[i]);
      var t: nat :| Next(tr[i - 1], t, tr[i]);
      InvKept(tr[i - 1], t, tr[i]);
    }
  }

  // Every goroutine is outside the queue or parked on its condition variable.
  predicate Quiet<T>(s: State<T>) { forall t :: 0 <= t < |s.pcs| ==> s.pcs[t].Idle? || s.pcs[t].Parked? }

  ghost predicate InternalStep<T(!new)>(s: State<T>, s': State<T>) {
    exists t :: 0 <= t < |s.pcs| && Internal(s, t, s')
  }

  /** A queue at rest has a parked receiver only if it is open and empty. */
  lemma QuietMeansServed<T>(s: State<T>)
    requires Inv(s) && Quiet(s) && !NobodyListed(s)
    ensures s.shared == Shared([], false)
  {
    NothingCounted(s.pcs);
  }

  lemma {:induction false} NothingCounted<T>(pcs: seq<PC<T>>)
    requires forall t :: 0 <= t < |pcs| ==> pcs[t].Idle? || pcs[t].Parked?
    ensures Sum(pcs, Signals) == Sum(pcs, Broadcasts) == Sum(pcs, Rechecks) == 0
  {
    if pcs == [] {
    } else {
      NothingCounted(pcs[..|pcs| - 1]);
    }
  }

  /** No deadlock: a queue that is not at rest can take a step without any new call. */
  lemma SomeoneCanMove<T(!new)>(s: State<T>)
    requires Exclusion(s) && !Quiet(s)
    ensures exists s' :: InternalStep(s, s')
  {
    var t: nat :| t < |s.pcs| && !s.pcs[t].Idle? && !s.pcs[t].Parked?;
    var u := if s.lock.Some? then s.lock.value else t;
    var s' := Moved(s, u);
    assert Internal(s, u, s');
    assert InternalStep(s, s');
  }

  // A step u can take by itself when no other goroutine holds the mutex.
  ghost function Moved<T(!new)>(s: State<T>, u: nat): (s': State<T>)
    requires u < |s.pcs| && !s.pcs[u].Idle? && !s.pcs[u].Parked?
    requires s.lock == None || HoldsLock(s.pcs[u])
    ensures Internal(s, u, s')
  {
    match s.pcs[u]
    case Want(call) => Goto(s, u, Locked(call, false)).(lock := Some(u))
    case Woken(batch) => Goto(s, u, Locked(Receive(batch), true)).(lock := Some(u))
    case Locked(call, _) => RunSection(s, u, call)
    case Signalling(call) =>
      if NobodyListed(s) then Goto(s, u, Returned(call, [], true))
      else
        var w: nat :| w < |s.pcs| && Listed(s.pcs[w]);
        var s' := Goto(Goto(s, w, Notified(s.pcs[w])), u, Returned(call, [], true));
        assert Wakes(s, u, w, s');
        s'
    case Broadcasting(call) =>
      s.(pcs := WakeAll(s.pcs)[u := if call.Close? then Unlocking else Returned(call, [], true)])
    case Unlocking => Goto(s, u, Returned(Close, [], true)).(lock := None)
    case Enlisted(batch, woken) => Goto(s, u, if woken then Woken(batch) else Parked(batch)).(lock := None)
    case Returned(_, _, _) => Goto(s, u, Idle)
  }

  // How many internal steps a goroutine can still cause among n of them.
  function Fuel<T>(n: nat): PC<T> -> nat {
    (pc: PC<T>) => match pc
      case Idle => 0
      case Returned(_, _, _) => 1
      case Parked(_) => 2
      case Unlocking => 2
      case Enlisted(_, woken) => if woken then 6 else 3
      case Signalling(_) => 5
      case Broadcasting(_) => 3 * n + 3
      case Locked(call, _) => if Takes(call) then 4 else 3 * n + 6
      case Want(call) => if Takes(call) then 5 else 3 * n + 7
      case Woken(_) => 5
  }

  function Rank<T>(s: State<T>): nat { Sum(s.pcs, Fuel(|s.pcs|)) }

  lemma RankDecreases<T(!new)>(s: State<T>, t: nat, s': State<T>)
    requires t < |s.pcs| && Internal(s, t, s')
    requires s.pcs[t].Locked? && s.pcs[t].woken ==> s.pcs[t].call.Receive?
    ensures |s'.pcs| == |s.pcs| && Rank(s') < Rank(s)
  {
    if s.pcs[t].Broadcasting? {
      BroadcastSpendsFuel(s, t, s');
    } else if s.pcs[t].Signalling? && !NobodyListed(s) {
      SignalSpendsFuel(s, t, s');
    } else {
      SumUpdate(s.pcs, t, s'.pcs[t], Fuel(|s.pcs|));
    }
  }

  lemma BroadcastSpendsFuel<T(!new)>(s: State<T>, t: nat, s': State<T>)
    requires t < |s.pcs| && s.pcs[t].Broadcasting? && Internal(s, t, s')
    ensures Rank(s') < Rank(s)
  {
    var fuel := Fuel(|s.pcs|);
    var woken := WakeAll(s.pcs);
    SumGrows(s.pcs, woken, fuel, 3);
    SumUpdate(woken, t, s'.pcs[t], fuel);
  }

  lemma SignalSpendsFuel<T(!new)>(s: State<T>, t: nat, s': State<T>)
    requires t < |s.pcs| && s.pcs[t].Signalling? && !NobodyListed(s) && Internal(s, t, s')
    ensures Rank(s') < Rank(s)
  {
    var fuel := Fuel(|s.pcs|);
    var w: nat :| Wakes(s, t, w, s');
    SumUpdate(s.pcs, w, Notified(s.pcs[w]), fuel);
    SumUpdate(s.pcs[w := Notified(s.pcs[w])], t, s'.pcs[t], fuel);
  }

  /** Without new calls every schedule ends after at most Rank steps, and it can only end with the
      queue at rest and no parked receiver missing an item or the close. */
  lemma {:induction false} WaitersGetServed<T(!new)>(tr: seq<State<T>>, calm: seq<State<T>>)
    requires Run(tr) && calm != [] && calm[0] == tr[|tr| - 1]
    requires forall i :: 0 <= i < |calm| - 1 ==> InternalStep(calm[i], calm[i + 1])
    ensures var last := calm[|calm| - 1];
            && |calm| - 1 + Rank(last) <= Rank(calm[0])
            && Inv(last)
            && ((forall s' :: !InternalStep(last, s')) ==>
                  Quiet(last) && (NobodyListed(last) || last.shared == Shared([], false)))
  {
    var last := calm[|calm| - 1];
    if |calm| == 1 {
      EveryRunSafe(tr, |tr| - 1);
    } else {
      var prev := calm[|calm| - 2];
      WaitersGetServed(tr, calm[..|calm| - 1]);
      assert InternalStep(prev, last);
      var t: nat :| t < |prev.pcs| && Internal(prev, t, last);
      RankDecreases(prev, t, last);
      InvKept(prev, t, last);
    }
    if forall s' :: !InternalStep(last, s') {
      if !Quiet(last) { SomeoneCanMove(last); }
      if !NobodyListed(last) { QuietMeansServed(last); }
    }
  }

  // The simple form: a closable FIFO with its whole history.
  datatype Fifo<T> = Fifo(accepted: seq<T>, removed: seq<T>, closed: bool)
  {
    ghost predicate Valid() { |removed| <= |accepted| && removed == accepted[..|removed|] }
  }

  ghost predicate Accepts<T>(f: Fifo<T>, f': Fifo<T>, values: seq<T>) {
    !f.closed && f' == f.(accepted := f.accepted + values)
  }

  ghost predicate Removes<T>(f: Fifo<T>, f': Fifo<T>, values: seq<T>) {
    f' == f.(removed := f.removed + values) && f'.Valid()
  }

  ghost predicate FifoStep<T(!new)>(f: Fifo<T>, f': Fifo<T>) {
    || f' == f
    || (exists values :: Accepts(f, f', values))
    || (exists values :: Removes(f, f', values))
    || f' == f.(closed := true)
  }

  function AsFifo<T>(s: State<T>): Fifo<T> { Fifo(s.accepted, s.removed, s.shared.closed) }

  /** Every step of every goroutine is a FIFO step or changes nothing. */
  lemma RefinesFifo<T(!new)>(s: State<T>, t: nat, s': State<T>)
    requires Inv(s) && Next(s, t, s')
    ensures AsFifo(s').Valid() && FifoStep(AsFifo(s), AsFifo(s'))
  {
    HistoryKept(s, t, s');
    assert AsFifo(s').Valid();
    if s.pcs[t].Locked? {
      var e := Section(s.shared, s.pcs[t].call);
      if e.accepted != [] { assert Accepts(AsFifo(s), AsFifo(s'), e.accepted); }
      if e.removed != [] { assert Removes(AsFifo(s), AsFifo(s'), e.removed); }
    }
  }

  /** From the moment the queue is closed nothing more is accepted, it stays closed, and what was
      accepted before is still there to be received, in order. */
  lemma {:induction false} ClosedFreezes<T(!new)>(tr: seq<State<T>>, i: nat, j: nat)
    requires Run(tr) && i <= j < |tr| && tr[i].shared.closed
    ensures tr[j].shared.closed && tr[i].removed <= tr[j].removed
    ensures tr[i].shared.items == tr[j].removed[|tr[i].removed|..] + tr[j].shared.items
  {
    ClosedStays(tr, i, j);
    EveryRunSafe(tr, i);
    EveryRunSafe(tr, j);
    var taken := tr[j].removed[|tr[i].removed|..];
    assert tr[i].removed + tr[i].shared.items == tr[j].removed + tr[j].shared.items;
    assert tr[j].removed == tr[i].removed + taken;
    assert tr[i].shared.items == (tr[i].removed + tr[i].shared.items)[|tr[i].removed|..];
  }

  ghost predicate FrozenSince<T>(s: State<T>, s': State<T>) {
    s'.shared.closed && s'.accepted == s.accepted && s.removed <= s'.removed
  }

  lemma {:induction false} ClosedStays<T(!new)>(tr: seq<State<T>>, i: nat, j: nat)
    requires Run(tr) && i <= j < |tr| && tr[i].shared.closed
    ensures FrozenSince(tr[i], tr[j])
  {
    if i == j {
    } else {
      ClosedStays(tr, i, j - 1);
      ClosedStep(tr, tr[i], j);
    }
  }

  lemma ClosedStep<T(!new)>(tr: seq<State<T>>, origin: State<T>, j: nat)
    requires Run(tr) && 0 < j < |tr| && FrozenSince(origin, tr[j - 1])
    ensures FrozenSince(origin, tr[j])
  {
    var s, s' := tr[j - 1], tr[j];
    assert Steps(s, s');
    var t: nat :| Next(s, t, s');
    var e := if s.pcs[t].Locked? then Section(s.shared, s.pcs[t].call).removed else [];
    assert s'.removed == s.removed + e;
  }

  // A send that has been through its locked section: it still notifies, or has its answer.
  predicate Sent<T>(pc: PC<T>) { (pc.Signalling? || pc.Broadcasting? || pc.Returned?) && Sends(pc.call) }

  predicate Answer<T>(pc: PC<T>)
    requires Sent(pc)
  {
    pc.Returned? ==> pc.ok
  }

  // Between i and i + 1 goroutine t runs the locked section of a send, which accepts all or nothing.
  predicate SendRuns<T(==)>(tr: seq<State<T>>, i: nat, t: nat, call: Call<T>, accepts: bool) {
    && i + 1 < |tr| && t < |tr[i].pcs| && tr[i].pcs[t].Locked? && tr[i].pcs[t].call == call && Sends(call)
    && tr[i + 1] == RunSection(tr[i], t, call)
    && (accepts <==> !tr[i].shared.closed)
    && tr[i + 1].accepted == tr[i].accepted + (if accepts then Offered(call) else [])
  }

  /** A send answers true exactly when its items were accepted: in every run, a send past its locked
      section ran that section earlier, on an open queue if its answer is or will be true, on a closed
      one otherwise, and has been in the same call since. */
  lemma SendAnswers<T(!new)>(tr: seq<State<T>>, j: nat, t: nat) returns (i: nat)
    requires Run(tr) && j < |tr| && t < |tr[j].pcs| && Sent(tr[j].pcs[t])
    ensures i < j && SendRuns(tr, i, t, tr[j].pcs[t].call, Answer(tr[j].pcs[t]))
    ensures forall m :: i < m <= j ==> StillSent(tr, m, t, tr[j].pcs[t].call)
  {
    forall m: nat | m + 1 < |tr| ensures SentFollows(tr, m, t) {
      assert Steps(tr[m], tr[m + 1]);
      if t < |tr[m + 1].pcs| && Sent(tr[m + 1].pcs[t]) {
        var u: nat :| Next(tr[m], u, tr[m + 1]);
        SentStep(tr[m], u, tr[m + 1], t);
      }
    }
    i := SectionOfSend(tr, j, t);
  }

  predicate StillSent<T(==)>(tr: seq<State<T>>, m: nat, t: nat, call: Call<T>) {
    m < |tr| && t < |tr[m].pcs| && Sent(tr[m].pcs[t]) && tr[m].pcs[t].call == call
  }

  predicate SentFollows<T(==)>(tr: seq<State<T>>, m: nat, t: nat)
    requires m + 1 < |tr|
  {
    t < |tr[m + 1].pcs| && Sent(tr[m + 1].pcs[t]) ==>
      var pc' := tr[m + 1].pcs[t];
      || SendRuns(tr, m, t, pc'.call, Answer(pc'))
      || (StillSent(tr, m, t, pc'.call) && (Answer(tr[m].pcs[t]) <==> Answer(pc')))
  }

  lemma {:induction false} SectionOfSend<T(!new)>(tr: seq<State<T>>, j: nat, t: nat) returns (i: nat)
    requires j < |tr| && t < |tr[j].pcs| && Sent(tr[j].pcs[t])
    requires t < |tr[0].pcs| ==> tr[0].pcs[t].Idle?
    requires forall m: nat :: m + 1 < |tr| ==> SentFollows(tr, m, t)
    ensures i < j && SendRuns(tr, i, t, tr[j].pcs[t].call, Answer(tr[j].pcs[t]))
    ensures forall m :: i < m <= j ==> StillSent(tr, m, t, tr[j].pcs[t].call)
  {
    assert SentFollows(tr, j - 1, t);
    if SendRuns(tr, j - 1, t, tr[j].pcs[t].call, Answer(tr[j].pcs[t])) {
      i := j - 1;
    } else {
      i := SectionOfSend(tr, j - 1, t);
    }
  }

  lemma SentStep<T(!new)>(s: State<T>, u: nat, s': State<T>, t: nat)
    requires Next(s, u, s') && t < |s'.pcs| && Sent(s'.pcs[t])
    ensures t < |s.pcs|
    ensures s.pcs[t].Locked? || Sent(s.pcs[t])
    ensures s.pcs[t].call == s'.pcs[t].call
    ensures s.pcs[t].Locked? ==> s' == RunSection(s, t, s.pcs[t].call) && (Answer(s'.pcs[t]) <==> !s.shared.closed)
    ensures Sent(s.pcs[t]) ==> (Answer(s'.pcs[t]) <==> Answer(s.pcs[t]))
  {}

  // Between i and i + 1 goroutine t takes values out in one of the receive calls.
  predicate TakeRuns<T(==)>(tr: seq<State<T>>, i: nat, t: nat, call: Call<T>, values: seq<T>, ok: bool) {
    && i + 1 < |tr| && t < |tr[i].pcs| && tr[i].pcs[t].Locked? && tr[i].pcs[t].call == call && Takes(call)
    && tr[i + 1] == RunSection(tr[i], t, call)
    && tr[i + 1].removed == tr[i].removed + values
    && (ok <==> values != [] || (call == TryReceive(true) && !tr[i].shared.closed))
  }

  /** What a receive answers is what it took out: in every run, a receive that has its answer removed
      exactly those values in one locked section of its own. */
  lemma TakeAnswers<T(!new)>(tr: seq<State<T>>, j: nat, t: nat) returns (i: nat)
    requires Run(tr) && j < |tr| && t < |tr[j].pcs| && tr[j].pcs[t].Returned? && Takes(tr[j].pcs[t].call)
    ensures var pc := tr[j].pcs[t];
            i < j && TakeRuns(tr, i, t, pc.call, pc.values, pc.ok) && forall m :: i < m <= j ==> HasAnswer(tr, m, t, pc)
  {
    forall m: nat | m + 1 < |tr| ensures TakenFollows(tr, m, t) {
      assert Steps(tr[m], tr[m + 1]);
      if t < |tr[m + 1].pcs| && tr[m + 1].pcs[t].Returned? && Takes(tr[m + 1].pcs[t].call) {
        TakersNeverNotify(tr, m);
        var u: nat :| Next(tr[m], u, tr[m + 1]);
        TakenStep(tr[m], u, tr[m + 1], t);
      }
    }
    i := SectionOfTake(tr, j, t);
  }

  predicate TakenFollows<T(==)>(tr: seq<State<T>>, m: nat, t: nat)
    requires m + 1 < |tr|
  {
    t < |tr[m + 1].pcs| && tr[m + 1].pcs[t].Returned? && Takes(tr[m + 1].pcs[t].call) ==>
      var pc' := tr[m + 1].pcs[t];
      TakeRuns(tr, m, t, pc'.call, pc'.values, pc'.ok) || HasAnswer(tr, m, t, pc')
  }

  lemma {:induction false} SectionOfTake<T(!new)>(tr: seq<State<T>>, j: nat, t: nat) returns (i: nat)
    requires j < |tr| && t < |tr[j].pcs| && tr[j].pcs[t].Returned? && Takes(tr[j].pcs[t].call)
    requires t < |tr[0].pcs| ==> tr[0].pcs[t].Idle?
    requires forall m: nat :: m + 1 < |tr| ==> TakenFollows(tr, m, t)
    ensures var pc := tr[j].pcs[t];
            i < j && TakeRuns(tr, i, t, pc.call, pc.values, pc.ok) && forall m :: i < m <= j ==> HasAnswer(tr, m, t, pc)
  {
    assert TakenFollows(tr, j - 1, t);
    var pc := tr[j].pcs[t];
    if TakeRuns(tr, j - 1, t, pc.call, pc.values, pc.ok) {
      i := j - 1;
    } else {
      i := SectionOfTake(tr, j - 1, t);
    }
  }

  predicate HasAnswer<T(==)>(tr: seq<State<T>>, m: nat, t: nat, pc: PC<T>) {
    m < |tr| && t < |tr[m].pcs| && tr[m].pcs[t] == pc
  }

  ghost predicate NoTakerNotifies<T>(s: State<T>) {
    forall t :: 0 <= t < |s.pcs| && (s.pcs[t].Signalling? || s.pcs[t].Broadcasting?) ==> !Takes(s.pcs[t].call)
  }

  lemma {:induction false} TakersNeverNotify<T(!new)>(tr: seq<State<T>>, i: nat)
    requires Run(tr) && i < |tr|
    ensures NoTakerNotifies(tr[i])
  {
    if i == 0 {
    } else {
      TakersNeverNotify(tr, i - 1);
      assert Steps(tr[i - 1], tr[i]);
      var t: nat :| Next(tr[i - 1], t, tr[i]);
      NotifierStep(tr[i - 1], t, tr[i]);
    }
  }

  lemma NotifierStep<T(!new)>(s: State<T>, t: nat, s': State<T>)
    requires NoTakerNotifies(s) && Next(s, t, s')
    ensures NoTakerNotifies(s')
  {}

  lemma TakenStep<T(!new)>(s: State<T>, u: nat, s': State<T>, t: nat)
    requires Next(s, u, s') && t < |s'.pcs| && s'.pcs[t].Returned? && Takes(s'.pcs[t].call)
    requires NoTakerNotifies(s)
    ensures t < |s.pcs| && (s.pcs[t] == s'.pcs[t] || s.pcs[t].Locked?)
    ensures s.pcs[t].Locked? ==>
              var pc := s'.pcs[t];
              && pc.call == s.pcs[t].call && s' == RunSection(s, t, pc.call)
              && s'.removed == s.removed + pc.values
              && (pc.ok <==> pc.values != [] || (pc.call == TryReceive(true) && !s.shared.closed))
  {}
}
