/** The growable circular buffer of engine/queue/imp/ring/ring_buffer.go.

    `Ring` is the value a buffer stands for: its items in order, its capacity, and how many slots
    all the doublings so far have copied. `Step` says what each operation does to that value, and
    the class `RingBuffer` does it in place with head, tail and count indices. */
module RingBuffers {

  datatype Ring<T> = Ring(items: seq<T>, capacity: nat, copied: nat)
  {
    predicate Valid() { |items| <= capacity && 0 < capacity }
  }

  datatype Op<T> = Push(value: T) | PushBatch(values: seq<T>) | Pop | PopAll | Clear

  // One doubling. An empty buffer has head == tail, which the copying code takes for the
  // two-segment case, so it copies every slot.
  function Double<T>(r: Ring<T>): Ring<T> {
    Ring(r.items, 2 * r.capacity, r.copied + if r.items == [] then r.capacity else |r.items|)
  }

  // Doubles until n more items fit.
  function Reserve<T>(r: Ring<T>, n: nat): (g: Ring<T>)
    requires r.Valid()
    ensures g.Valid() && g.items == r.items && |g.items| + n <= g.capacity
    decreases |r.items| + n - r.capacity
  {
    if r.capacity - |r.items| < n then Reserve(Double(r), n) else r
  }

  function Step<T>(r: Ring<T>, op: Op<T>): (s: Ring<T>)
    requires r.Valid()
    ensures s.Valid()
  {
    match op
    case Push(v) =>
      var g := if |r.items| == r.capacity then Double(r) else r;
      g.(items := g.items + [v])
    case PushBatch(vs) =>
      var g := if vs == [] then r else Reserve(r, |vs|);
      g.(items := g.items + vs)
    case Pop => if r.items == [] then r else r.(items := r.items[1..])
    case PopAll => r.(items := [])
    case Clear => r.(items := [])
  }

  function Run<T>(r: Ring<T>, ops: seq<Op<T>>): (s: Ring<T>)
    requires r.Valid()
    ensures s.Valid()
  {
    if ops == [] then r else Step(Run(r, ops[..|ops| - 1]), ops[|ops| - 1])
  }

  function Max(a: int, b: int): int { if a < b then b else a }

  // The greatest number of items held at any moment of the run.
  function Peak<T>(r: Ring<T>, ops: seq<Op<T>>): int
    requires r.Valid()
  {
    if ops == [] then |r.items|
    else Max(Peak(r, ops[..|ops| - 1]), |Run(r, ops).items|)
  }

  /** Over any run from an empty buffer of `size0` slots the capacity stays within twice the peak,
      and all doublings together copied no more slots than the capacity has gained. */
  lemma {:induction false} GrowthBounds<T>(size0: nat, ops: seq<Op<T>>)
    requires 0 < size0
    ensures var start: Ring<T> := Ring([], size0, 0);
            var end := Run(start, ops);
            && size0 <= end.capacity <= Max(size0, 2 * Peak(start, ops) - 2)
            && end.copied <= end.capacity - size0
  {
    if ops == [] {
    } else {
      var init := ops[..|ops| - 1];
      GrowthBounds<T>(size0, init);
      StepBounds(Run(Ring([], size0, 0), init), ops[|init|], size0);
    }
  }

  lemma StepBounds<T>(r: Ring<T>, op: Op<T>, size0: nat)
    requires r.Valid() && size0 <= r.capacity && r.copied <= r.capacity - size0
    ensures var s := Step(r, op);
            && r.capacity <= s.capacity <= Max(r.capacity, 2 * |s.items| - 2)
            && s.copied <= s.capacity - size0
  {
    if op.PushBatch? { ReserveBounds(r, |op.values|, size0); }
  }

  lemma {:induction false} ReserveBounds<T>(r: Ring<T>, n: nat, size0: nat)
    requires r.Valid() && size0 <= r.capacity && r.copied <= r.capacity - size0
    ensures var g := Reserve(r, n);
            && r.capacity <= g.capacity <= Max(r.capacity, 2 * (|r.items| + n) - 2)
            && g.copied <= g.capacity - size0
    decreases |r.items| + n - r.capacity
  {
    if r.capacity - |r.items| < n { ReserveBounds(Double(r), n, size0); }
  }

  /** Appending a batch leaves the same items and the same capacity as pushing its elements one
      at a time, and never copies more slots. */
  lemma {:induction false} BatchIsRepeatedPush<T>(r: Ring<T>, values: seq<T>)
    requires r.Valid()
    ensures var batch := Step(r, PushBatch(values));
            var single := Run(r, Pushes(values));
            batch.items == single.items && batch.capacity == single.capacity && batch.copied <= single.copied
  {
    if values == [] {
    } else {
      var init, last := values[..|values| - 1], values[|values| - 1];
      BatchIsRepeatedPush(r, init);
      assert Pushes(values)[..|values| - 1] == Pushes(init);
      assert init + [last] == values;
      ReserveOneMore(r, |init|);
    }
  }

  function Pushes<T>(values: seq<T>): seq<Op<T>> { seq(|values|, i requires 0 <= i < |values| => Push(values[i])) }

  lemma {:induction false} ReserveOneMore<T>(r: Ring<T>, n: nat)
    requires r.Valid()
    ensures var g, h := Reserve(r, n), Reserve(r, n + 1);
            if |r.items| + n == g.capacity then h == Double(g) else h == g
    decreases |r.items| + n - r.capacity
  {
    if r.capacity - |r.items| < n { ReserveOneMore(Double(r), n); }
  }

  // The slot i places after slot h on a circle of n slots; the code computes it as (h + i) % n.
  function Slot(h: nat, i: nat, n: nat): nat
    requires h < n && i <= n
  {
    if h + i < n then h + i else h + i - n
  }

  // How many places slot k lies after slot h.
  function Offset(h: nat, k: nat, n: nat): nat
    requires h < n && k < n
  {
    if h <= k then k - h else k + n - h
  }

  lemma SlotIsModulo(h: nat, i: nat, n: nat)
    requires h < n && i <= n
    ensures Slot(h, i, n) == (h + i) % n
  {
    var q, r := (h + i) / n, (h + i) % n;
    assert h + i == q * n + r;
    assert q > 1 ==> q * n >= 2 * n;
  }

  class RingBuffer<T(0)> {
    var buffer: array<T>
    var size: nat
    var head: nat
    var tail: nat
    var count: nat
    const zero: T
    ghost var copied: nat

    ghost predicate Valid()
      reads this, buffer
    {
      && buffer.Length == size && head < size && count <= size
      && tail == Slot(head, count, size)
    }

    ghost function Contents(): (s: seq<T>)
      requires Valid()
      reads this, buffer
    {
      seq(count, i requires 0 <= i < count && Valid() reads this, buffer => buffer[Slot(head, i, size)])
    }

    ghost function Value(): (r: Ring<T>)
      requires Valid()
      reads this, buffer
    {
      Ring(Contents(), size, copied)
    }

    // No slot outside the window of items keeps an old item reachable.
    ghost predicate Clean()
      requires Valid()
      reads this, buffer
    {
      forall k :: 0 <= k < size && count <= Offset(head, k, size) ==> buffer[k] == zero
    }

    constructor (size: nat, zero: T)
      requires 0 < size
      ensures Valid() && Clean() && fresh(buffer) && Value() == Ring([], size, 0) && this.zero == zero
    {
      buffer := new T[size](_ => zero);
      this.size, this.zero := size, zero;
      head, tail, count, copied := 0, 0, 0, 0;
    }

    // The two copying branches of a doubling.
    method CopyTo(newBuffer: array<T>)
      requires Valid() && newBuffer != buffer && newBuffer.Length == 2 * size
      requires forall k :: 0 <= k < newBuffer.Length ==> newBuffer[k] == zero
      modifies this`copied, newBuffer
      ensures Contents() == old(Contents()) && newBuffer[..count] == Contents()
      ensures copied == old(copied) + if count == 0 then size else count
      ensures Clean() ==> forall k :: count <= k < newBuffer.Length ==> newBuffer[k] == zero
    {
      if head < tail {
        forall i | 0 <= i < tail - head { newBuffer[i] := buffer[head + i]; }
        copied := copied + (tail - head);
      } else {
        var n := size - head;
        forall i | 0 <= i < n { newBuffer[i] := buffer[head + i]; }
        forall i | n <= i < n + tail { newBuffer[i] := buffer[i - n]; }
        copied := copied + (n + tail);
        if count == 0 && Clean() {
          assert forall k :: 0 <= k < size ==> buffer[k] == zero;
          assert forall k :: 0 <= k < n ==> newBuffer[k] == buffer[head + k];
          assert forall k :: n <= k < size ==> newBuffer[k] == buffer[k - n];
        }
      }
    }

    // The doubling that Push and PushBatch both carry inline.
    method Grow()
      requires Valid()
      modifies this
      ensures Valid() && fresh(buffer) && Value() == Double(old(Value()))
      ensures Contents() == old(Contents()) && size == 2 * old(size)
      ensures head == 0 && tail == count == old(count)
      ensures old(Clean()) ==> Clean()
    {
      var newSize := size * 2;
      var newBuffer := new T[newSize](_ => zero);
      CopyTo(newBuffer);
      buffer, size, head, tail := newBuffer, newSize, 0, count;
      assert Contents() == newBuffer[..count];
    }

    // The write both kinds of push end with.
    method Put(value: T)
      requires Valid() && count < size
      modifies this`tail, this`count, buffer
      ensures Valid() && Value() == old(Value()).(items := old(Contents()) + [value])
      ensures count == old(count) + 1
      ensures old(Clean()) ==> Clean()
    {
      buffer[tail] := value;
      SlotIsModulo(tail, 1, size);
      tail := (tail + 1) % size;
      count := count + 1;
      assert Contents() == old(Contents()) + [value];
    }

    method Push(value: T)
      requires Valid()
      modifies this, buffer
      ensures Valid() && (buffer == old(buffer) || fresh(buffer))
      ensures Value() == Step(old(Value()), Op.Push(value)) && Contents() == old(Contents()) + [value]
      ensures old(Clean()) ==> Clean()
    {
      if count == size { Grow(); }
      Put(value);
    }

    method PushBatch(values: seq<T>)
      requires Valid()
      modifies this, buffer
      ensures Valid() && (buffer == old(buffer) || fresh(buffer))
      ensures Value() == Step(old(Value()), Op.PushBatch(values)) && Contents() == old(Contents()) + values
      ensures old(Clean()) ==> Clean()
    {
      var n := |values|;
      if n == 0 { return; }
      while size - count < n
        invariant Valid() && (buffer == old(buffer) || fresh(buffer))
        invariant Reserve(Value(), n) == Reserve(old(Value()), n)
        invariant Contents() == old(Contents())
        invariant old(Clean()) ==> Clean()
        decreases count + n - size
      {
        Grow();
      }
      ghost var roomy := Value();
      for i := 0 to n
        invariant Valid() && (buffer == old(buffer) || fresh(buffer))
        invariant Value() == roomy.(items := roomy.items + values[..i])
        invariant count + (n - i) <= size
        invariant old(Clean()) ==> Clean()
      {
        Put(values[i]);
      }
    }

    method Pop() returns (value: T, ok: bool)
      requires Valid()
      modifies this`head, this`count, buffer
      ensures Valid() && Value() == Step(old(Value()), Op.Pop)
      ensures ok == (old(Contents()) != []) && value == (if ok then old(Contents())[0] else zero)
      ensures Contents() == if ok then old(Contents())[1..] else []
      ensures old(Clean()) ==> Clean()
    {
      if count == 0 { return zero, false; }
      value, ok := buffer[head], true;
      assert value == Contents()[0];
      buffer[head] := zero;
      SlotIsModulo(head, 1, size);
      head, count := (head + 1) % size, count - 1;
      assert Contents() == old(Contents())[1..];
    }

    method PopAll() returns (result: seq<T>)
      requires Valid()
      modifies this`head, this`tail, this`count, buffer
      ensures Valid() && Value() == Step(old(Value()), Op.PopAll)
      ensures result == old(Contents()) && Contents() == []
      ensures old(Clean()) ==> Clean()
    {
      if count == 0 { return []; }
      result := [];
      for i := 0 to count
        invariant result == old(Contents())[..i]
        invariant Valid() && count == old(count)
        invariant forall k :: i <= k < count ==> buffer[Slot(head, k, size)] == old(Contents())[k]
        invariant old(Clean()) ==>
          forall k :: 0 <= k < size && !(i <= Offset(head, k, size) < count) ==> buffer[k] == zero
      {
        var index := (head + i) % size;
        SlotIsModulo(head, i, size);
        result := result + [buffer[index]];
        buffer[index] := zero;
      }
      head, tail, count := 0, 0, 0;
      assert Contents() == [];
    }

    method Peek() returns (value: T, ok: bool)
      requires Valid()
      ensures ok == (Contents() != []) && value == (if ok then Contents()[0] else zero)
    {
      if count == 0 { return zero, false; }
      value, ok := buffer[head], true;
    }

    method GetAll() returns (result: seq<T>)
      requires Valid()
      ensures result == Contents()
    {
      result := [];
      for i := 0 to count
        invariant result == Contents()[..i]
      {
        var index := (head + i) % size;
        SlotIsModulo(head, i, size);
        result := result + [buffer[index]];
      }
    }

    // Unlike PopAll this leaves the old items in their slots, so Clean() is not kept.
    method Clear()
      requires Valid()
      modifies this`head, this`tail, this`count
      ensures Valid() && Value() == Step(old(Value()), Op.Clear) && Contents() == []
    {
      head, tail, count := 0, 0, 0;
    }
  }
}
