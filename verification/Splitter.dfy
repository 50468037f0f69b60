/** PacketSplitter of engine/net/connect/packet.go on memory. A Go slice is an array, an offset, a
    length and a capacity; append writes in place when the capacity allows it, and payloads handed to
    callers share the splitter's arrays. */
module Splitters {
  import opened Basics
  import opened Packets

  datatype Slice = Slice(arr: array<byte>, off: nat, len: nat, cap: nat)
  {
    ghost predicate InBounds() { len <= cap && off + cap <= arr.Length }

    ghost function Bytes(): seq<byte>
      requires InBounds()
      reads arr
    {
      arr[off..off + len]
    }
  }

  datatype Outcome = Issued(msgId: byte, payload: Slice) | NotYet | Panicked

  lemma SliceOfSlice(arr: array<byte>, a: nat, b: nat, c: nat, d: nat)
    requires a <= b <= arr.Length && c <= d <= b - a
    ensures arr[a..b][c..d] == arr[a + c..a + d]
  {
    forall i | 0 <= i < d - c ensures arr[a..b][c..d][i] == arr[a + c..a + d][i] {
      assert arr[a..b][c + i] == arr[a + c + i];
    }
  }

  class PacketSplitter {
    // p.buf; arr == null is the nil slice.
    var arr: array?<byte>
    var off: nat
    var len: nat
    var cap: nat
    // Every array the splitter has allocated, and every payload it has handed out with its message.
    ghost var owned: set<array<byte>>
    ghost var issued: seq<(Slice, Message)>

    ghost predicate Valid()
      reads this, owned
    {
      Shaped() && forall i :: 0 <= i < |issued| ==> Stable(i)
    }

    ghost predicate Shaped()
      reads this
    {
      && (arr == null ==> off == len == cap == 0)
      && (arr != null ==> arr in owned && len <= cap && off + cap <= arr.Length)
    }

    // Payload i still has its bytes, and lies before everything append may write to.
    ghost predicate Stable(i: nat)
      requires i < |issued|
      reads this, owned
    {
      var p := issued[i].0;
      && p.arr in owned && p.InBounds() && p.Bytes() == issued[i].1.data
      && (p.arr == arr ==> p.off + p.len <= off)
    }

    ghost function Buffer(): seq<byte>
      requires Shaped()
      reads this, arr
    {
      if arr == null then [] else arr[off..off + len]
    }

    // The messages handed out so far.
    ghost function Delivered(): seq<Message>
      reads this
    {
      seq(|issued|, i requires 0 <= i < |issued| reads this => issued[i].1)
    }

    constructor ()
      ensures Valid() && Buffer() == [] && issued == [] && owned == {}
    {
      arr, off, len, cap := null, 0, 0, 0;
      owned, issued := {}, [];
    }

    // append(p.buf, data[:n]...); slack is the spare capacity the runtime chooses when it reallocates.
    method Append(data: array<byte>, n: nat, slack: nat)
      requires Valid() && n <= data.Length && data !in owned
      modifies this, owned
      ensures Valid() && issued == old(issued) && old(owned) <= owned && fresh(owned - old(owned))
      ensures Buffer() == old(Buffer()) + old(data[..n])
    {
      if cap < len + n { Reallocate(len + n + slack); }
      CopyBehind(data, n);
    }

    method Reallocate(newCap: nat)
      requires Valid() && cap < newCap
      modifies this
      ensures Valid() && issued == old(issued) && Buffer() == old(Buffer())
      ensures cap == newCap && len == old(len)
      ensures arr != null && fresh(arr) && owned == old(owned) + {arr}
    {
      var bigger := new byte[newCap](_ => 0);
      if arr != null {
        forall i | 0 <= i < len { bigger[i] := arr[off + i]; }
      }
      assert bigger[..len] == Buffer();
      arr, off, cap := bigger, 0, newCap;
      owned := owned + {bigger};
      forall i | 0 <= i < |issued| ensures Stable(i) { assert old(Stable(i)); }
    }

    method CopyBehind(data: array<byte>, n: nat)
      requires Valid() && n <= data.Length && data !in owned && len + n <= cap
      modifies this`len, owned
      ensures Valid() && Buffer() == old(Buffer()) + old(data[..n])
    {
      if n == 0 { return; }
      ghost var before, added := Buffer(), data[..n];
      forall i | len <= i < len + n { arr[off + i] := data[i - len]; }
      len := len + n;
      forall i | 0 <= i < len ensures arr[off + i] == (before + added)[i] {}
      assert arr[off..off + len] == before + added;
      forall i | 0 <= i < |issued| ensures Stable(i) {
        assert old(Stable(i));
        assert issued[i].0.Bytes() == old(issued[i].0.Bytes());
      }
    }

    method Next() returns (r: Outcome)
      requires Valid()
      modifies this
      ensures Valid() && owned == old(owned)
      ensures match NextFrame(old(Buffer()))
              case Incomplete => r == NotYet && Buffer() == old(Buffer()) && issued == old(issued)
              case Panic => r == Panicked && Buffer() == old(Buffer()) && issued == old(issued)
              case Frame(m, rest) =>
                && r.Issued? && r.msgId == m.msgId && Buffer() == rest
                && issued == old(issued) + [(r.payload, m)]
                && (if rest == [] then arr == null else RunsIntoBuffer(r.payload))
    {
      var l := len % WORD;
      if l < HEADER_SIZE { return NotYet; }
      var dataLen := GetUint32(arr[off..off + 4]);
      SliceOfSlice(arr, off, off + len, 0, 4);
      var msgLen := (dataLen + HEADER_SIZE) % WORD;
      if l < msgLen { return NotYet; }
      if msgLen < HEADER_SIZE { return Panicked; }
      var msgId := arr[off + 4];
      var payload := CutOff(msgId, msgLen);
      return Issued(msgId, payload);
    }

    method CutOff(msgId: byte, msgLen: nat) returns (payload: Slice)
      requires Valid() && HEADER_SIZE <= msgLen <= len
      modifies this
      ensures Valid() && owned == old(owned) && Buffer() == old(Buffer())[msgLen..]
      ensures issued == old(issued) + [(payload, Message(msgId, old(Buffer())[HEADER_SIZE..msgLen]))]
      ensures if Buffer() == [] then arr == null else RunsIntoBuffer(payload)
    {
      payload := Slice(arr, off + HEADER_SIZE, msgLen - HEADER_SIZE, cap - HEADER_SIZE);
      SliceOfSlice(arr, off, off + len, HEADER_SIZE, msgLen);
      Advance(msgLen);
      Record(payload, msgId);
    }

    // p.buf = p.buf[n:], or nil when nothing is left.
    method Advance(n: nat)
      requires Valid() && n <= len && arr != null
      modifies this`arr, this`off, this`len, this`cap
      ensures Valid() && Buffer() == old(Buffer())[n..]
      ensures arr == old(arr) ==> off == old(off) + n && cap == old(cap) - n
      ensures if Buffer() == [] then arr == null else arr == old(arr)
    {
      SliceOfSlice(arr, off, off + len, n, len);
      off, len, cap := off + n, len - n, cap - n;
      if len == 0 { arr, off, cap := null, 0, 0; }
      forall i | 0 <= i < |issued| ensures Stable(i) { assert old(Stable(i)); }
    }

    ghost method Record(payload: Slice, msgId: byte)
      requires Valid() && payload.arr in owned && payload.InBounds()
      requires payload.arr == arr ==> payload.off + payload.len <= off
      modifies this`issued
      ensures Valid() && Buffer() == old(Buffer())
      ensures issued == old(issued) + [(payload, Message(msgId, payload.Bytes()))]
    {
      issued := issued + [(payload, Message(msgId, payload.Bytes()))];
      forall i | 0 <= i < |issued| ensures Stable(i) {
        if i < |old(issued)| { assert old(Stable(i)); }
      }
    }

    // Next, as far as the messages are concerned.
    method NextDelivers() returns (r: Outcome)
      requires Valid()
      modifies this
      ensures Valid() && owned == old(owned) && old(issued) <= issued
      ensures var cut := NextFrame(old(Buffer()));
              && (r.Issued? <==> cut.Frame?) && (r.Panicked? <==> cut.Panic?)
              && Delivered() == old(Delivered()) + (if cut.Frame? then [cut.message] else [])
              && Buffer() == if cut.Frame? then cut.rest else old(Buffer())
    {
      r := Next();
    }

    // The payload's spare capacity is the unread buffer and what append may still fill.
    predicate RunsIntoBuffer(payload: Slice)
      reads this
    {
      payload.arr == arr && payload.off + payload.len == off && payload.off + payload.cap == off + cap
    }

    /** A receiver writes data behind the first `at` bytes of its payload, as append(payload[:at], data...)
        does when the capacity allows it. Within the payload's own length that leaves the unread buffer
        alone; behind it, it overwrites the frames that are still to be cut. */
    method ReceiverWrites(payload: Slice, at: nat, data: seq<byte>)
      requires Shaped() && payload.InBounds() && at <= payload.len && at + |data| <= payload.cap
      requires payload.arr == arr ==> payload.off + payload.len <= off
      modifies payload.arr
      ensures Shaped() && |Buffer()| == |old(Buffer())|
      ensures at + |data| <= payload.len ==> Buffer() == old(Buffer())
      ensures RunsIntoBuffer(payload) && at == payload.len && |data| <= len ==>
                Buffer() == data + old(Buffer())[|data|..]
    {
      ghost var before := Buffer();
      var start := payload.off + at;
      forall i | 0 <= i < |data| { payload.arr[start + i] := data[i]; }
      if RunsIntoBuffer(payload) && at == payload.len && |data| <= len {
        assert start == off;
        forall i | 0 <= i < len ensures arr[off + i] == (data + before[|data|..])[i] {
          if |data| <= i { assert arr[off + i] == old(arr[off + i]) == before[i]; }
        }
        assert Buffer() == data + before[|data|..];
      }
    }

    // The client's and the server's OnData: append, then take frames until there are too few bytes.
    method OnData(data: array<byte>, n: nat, slack: nat) returns (panicked: bool)
      requires Valid() && n <= data.Length && data !in owned
      modifies this, owned
      ensures Valid() && old(owned) <= owned && fresh(owned - old(owned)) && old(issued) <= issued
      ensures var d := Drain(old(Buffer()) + old(data[..n]));
              Delivered() == old(Delivered()) + d.messages && Buffer() == d.rest && panicked == d.panicked
    {
      Append(data, n, slack);
      ghost var all, mine := Drain(Buffer()), owned;
      panicked := false;
      while true
        invariant Valid() && owned == mine && old(issued) <= issued
        invariant old(Delivered()) + all.messages == Delivered() + Drain(Buffer()).messages
        invariant all.rest == Drain(Buffer()).rest && all.panicked == Drain(Buffer()).panicked
        decreases |Buffer()|
      {
        ghost var delivered, next := Delivered(), NextFrame(Buffer());
        var r := NextDelivers();
        if !r.Issued? { return r.Panicked?; }
        Associative(delivered, [next.message], Drain(Buffer()).messages);
      }
    }

    /** Whatever the caller does to its own array, the splitter and every issued payload keep their bytes. */
    twostate lemma CallerWrites(data: array<byte>)
      requires old(Valid()) && unchanged(this) && old(data !in owned)
      requires forall a :: a in owned ==> unchanged(a)
      ensures Valid() && Buffer() == old(Buffer())
    {
      forall i | 0 <= i < |issued| ensures Stable(i) { assert old(Stable(i)); }
    }
  }
}
