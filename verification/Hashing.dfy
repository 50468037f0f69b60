/** The hash of an actor id in router.go: the bytes, from the last to the first, XORed into four lanes. */
module Hashing {
  import opened Actors
  import opened Basics
  import opened Bits

  // A uint32 as its four bytes; byte 0 is the least significant.
  datatype Word = Word(b3: byte, b2: byte, b1: byte, b0: byte)

  function Uint32(w: Word): (n: nat)
    ensures n < WORD
  {
    w.b3 as nat * 0x100_0000 + w.b2 as nat * 0x1_0000 + w.b1 as nat * 0x100 + w.b0
  }

  function XorWord(v: Word, w: Word): Word {
    Word(XorByte(v.b3, w.b3), XorByte(v.b2, w.b2), XorByte(v.b1, w.b1), XorByte(v.b0, w.b0))
  }

  // Rotation to the left by k bytes.
  function RotateBytes(w: Word, k: nat): Word
    requires k < 4
  {
    if k == 0 then w
    else if k == 1 then Word(w.b2, w.b1, w.b0, w.b3)
    else if k == 2 then Word(w.b1, w.b0, w.b3, w.b2)
    else Word(w.b0, w.b3, w.b2, w.b1)
  }

  // Rotation of a uint32 to the left by k bytes: a shift, and the bits that fall off at the top.
  function RotateLeft(n: nat, k: nat): nat
    requires k < 4
  {
    if k == 0 then n
    else if k == 1 then n * 0x100 % WORD + n / 0x100_0000
    else if k == 2 then n * 0x1_0000 % WORD + n / 0x1_0000
    else n * 0x100_0000 % WORD + n / 0x100
  }

  lemma RotationOfNumbers(w: Word, k: nat)
    requires k < 4
    ensures Uint32(RotateBytes(w, k)) == RotateLeft(Uint32(w), k)
  {
    RotateNumbers(w.b3, w.b2, w.b1, w.b0, Uint32(w));
  }

  lemma XorOfNumbers(v: Word, w: Word)
    ensures Uint32(XorWord(v, w)) == Xor(Uint32(v), Uint32(w))
  {
    LowByte(v.b3, w.b3, v.b2, w.b2);
    LowTwoBytes(256 * v.b3 as nat + v.b2, 256 * w.b3 as nat + w.b2, v.b1, w.b1, v.b0, w.b0);
  }

  lemma RotateNumbers(a: nat, b: nat, c: nat, d: nat, n: nat)
    requires a < 256 && b < 256 && c < 256 && d < 256
    requires n == a * 0x100_0000 + b * 0x1_0000 + c * 0x100 + d
    ensures n * 0x100 % WORD + n / 0x100_0000 == b * 0x100_0000 + c * 0x1_0000 + d * 0x100 + a
    ensures n * 0x1_0000 % WORD + n / 0x1_0000 == c * 0x100_0000 + d * 0x1_0000 + a * 0x100 + b
    ensures n * 0x100_0000 % WORD + n / 0x100 == d * 0x100_0000 + a * 0x1_0000 + b * 0x100 + c
  {
    ModWord(a, b * 0x100_0000 + c * 0x1_0000 + d * 0x100);
    ModWord(a * 0x100 + b, c * 0x100_0000 + d * 0x1_0000);
    ModWord(a * 0x1_0000 + b * 0x100 + c, d * 0x100_0000);
    assert n / 0x100 == a * 0x1_0000 + b * 0x100 + c;
    assert n / 0x1_0000 == a * 0x100 + b;
    assert n / 0x100_0000 == a;
  }

  lemma ModWord(q: nat, r: nat)
    requires r < WORD
    ensures (q * WORD + r) % WORD == r
  {}

  // At most four bytes as a big-endian word, aligned at its right end.
  function BigEndian(s: seq<byte>): Word
    requires |s| <= 4
  {
    Word(FromEnd(s, 3), FromEnd(s, 2), FromEnd(s, 1), FromEnd(s, 0))
  }

  function FromEnd(s: seq<byte>, i: nat): byte { if i < |s| then s[|s| - 1 - i] else 0 }

  // The XOR of the 32-bit words of s, cut from its right end.
  function XorWords(s: seq<byte>): Word {
    if |s| <= 4 then BigEndian(s) else XorWord(XorWords(s[..|s| - 4]), BigEndian(s[|s| - 4..]))
  }

  // The XOR of the bytes of s whose distance from its end is k modulo 4.
  function Lane(s: seq<byte>, k: nat): byte {
    if s == [] then 0 else AddByte(Lane(s[1..], k), s[0], |s| - 1, k)
  }

  function AddByte(lane: byte, b: byte, distance: nat, k: nat): byte {
    if distance % 4 == k then XorByte(lane, b) else lane
  }

  function FourLanes(s: seq<byte>): Word { Word(Lane(s, 3), Lane(s, 2), Lane(s, 1), Lane(s, 0)) }

  // Lane k before a shift by n places.
  function Before(k: nat, n: nat): nat { (k + 4 - n % 4) % 4 }

  lemma {:induction false} LaneOfConcatenation(a: seq<byte>, b: seq<byte>, k: nat)
    requires k < 4
    ensures Lane(a + b, k) == XorByte(Lane(a, Before(k, |b|)), Lane(b, k))
  {
    if a == [] {
      assert a + b == b;
      XorZero(Lane(b, k));
    } else {
      var t := a[1..];
      LaneOfConcatenation(t, b, k);
      assert (a + b)[1..] == t + b && (a + b)[0] == a[0];
      DistanceShifts(|t|, |b|, k);
      AddSwaps(Lane(t, Before(k, |b|)), Lane(b, k), a[0], |t + b|, k, |t|, Before(k, |b|));
    }
  }

  lemma AddSwaps(early: byte, late: byte, b: byte, m: nat, k: nat, n: nat, j: nat)
    requires m % 4 == k <==> n % 4 == j
    ensures AddByte(XorByte(early, late), b, m, k) == XorByte(AddByte(early, b, n, j), late)
  {
    XorSwaps(early, late, b);
  }

  lemma DistanceShifts(m: nat, n: nat, k: nat)
    requires k < 4
    ensures (m + n) % 4 == k <==> m % 4 == Before(k, n)
  {}

  function ByteOf(w: Word, k: nat): byte
    requires k < 4
  {
    if k == 0 then w.b0 else if k == 1 then w.b1 else if k == 2 then w.b2 else w.b3
  }

  lemma RotatedByte(w: Word, n: nat, k: nat)
    requires k < 4
    ensures ByteOf(RotateBytes(w, n % 4), k) == ByteOf(w, Before(k, n))
  {}

  lemma ByteOfConcatenation(a: seq<byte>, b: seq<byte>, k: nat)
    requires k < 4
    ensures Lane(a + b, k) == XorByte(ByteOf(RotateBytes(FourLanes(a), |b| % 4), k), Lane(b, k))
  {
    LaneOfConcatenation(a, b, k);
    RotatedByte(FourLanes(a), |b|, k);
    LaneIsByte(a, Before(k, |b|));
  }

  lemma LaneIsByte(s: seq<byte>, k: nat)
    requires k < 4
    ensures ByteOf(FourLanes(s), k) == Lane(s, k)
  {}

  lemma LanesOfConcatenation(a: seq<byte>, b: seq<byte>)
    ensures FourLanes(a + b) == XorWord(RotateBytes(FourLanes(a), |b| % 4), FourLanes(b))
  {
    ByteOfConcatenation(a, b, 0);
    ByteOfConcatenation(a, b, 1);
    ByteOfConcatenation(a, b, 2);
    ByteOfConcatenation(a, b, 3);
  }

  lemma {:induction false} ShortLane(s: seq<byte>, k: nat)
    requires |s| <= 4 && k < 4
    ensures Lane(s, k) == FromEnd(s, k)
  {
    if s == [] {
    } else {
      ShortLane(s[1..], k);
      XorZero(s[0]);
    }
  }

  /** The lanes hold the XOR of the words. */
  lemma {:induction false} LanesAreXorOfWords(s: seq<byte>)
    ensures FourLanes(s) == XorWords(s)
  {
    if |s| <= 4 {
      ShortLanes(s);
    } else {
      LanesAreXorOfWords(s[..|s| - 4]);
      assert s == s[..|s| - 4] + s[|s| - 4..];
      LanesOfLastWord(s[..|s| - 4], s[|s| - 4..]);
    }
  }

  lemma LanesOfLastWord(early: seq<byte>, late: seq<byte>)
    requires |late| == 4
    ensures FourLanes(early + late) == XorWord(FourLanes(early), BigEndian(late))
  {
    LanesOfConcatenation(early, late);
    ShortLanes(late);
    assert RotateBytes(FourLanes(early), 0) == FourLanes(early);
  }

  lemma ShortLanes(s: seq<byte>)
    requires |s| <= 4
    ensures FourLanes(s) == BigEndian(s)
  {
    ShortLane(s, 0);
    ShortLane(s, 1);
    ShortLane(s, 2);
    ShortLane(s, 3);
  }

  // The hash of an id: the lanes packed into a uint32.
  function HashOf(actorId: ActorId): nat { Uint32(FourLanes(actorId)) }

  /** hash(a + b) is hash(a), rotated to the left by as many bytes as b has beyond whole words, XOR
      hash(b), on 32-bit numbers. */
  lemma HashOfConcatenation(a: ActorId, b: ActorId)
    ensures HashOf(a + b) == Xor(RotateLeft(HashOf(a), |b| % 4), HashOf(b))
  {
    LanesOfConcatenation(a, b);
    XorOfNumbers(RotateBytes(FourLanes(a), |b| % 4), FourLanes(b));
    RotationOfNumbers(FourLanes(a), |b| % 4);
  }

  /** Exclusive or: a tail of whole words that is repeated cancels. */
  lemma RepeatedTailCancels(a: ActorId, b: ActorId)
    requires |b| % 4 == 0
    ensures HashOf(a + b + b) == HashOf(a)
  {
    HashOfConcatenation(a + b, b);
    HashOfConcatenation(a, b);
    XorUndoes(HashOf(a), HashOf(b));
  }

  /** The byte loop of CreateActorRefEx, from the end of the id into an array of four bytes. */
  method HashLoop(actorId: ActorId) returns (hash: nat)
    ensures hash == HashOf(actorId)
  {
    var hashs := new byte[4](_ => 0);
    var endIndex := |actorId| - 1;
    assert actorId[|actorId|..] == [];
    for i := 0 to endIndex + 1
      invariant forall k :: 0 <= k < 4 ==> hashs[k] == Lane(actorId[|actorId| - i..], k)
    {
      var b := actorId[endIndex - i];
      ghost var done := actorId[|actorId| - i..];
      ghost var more := actorId[|actorId| - (i + 1)..];
      assert more[1..] == done && more[0] == b;
      hashs[i % 4] := XorByte(hashs[i % 4], b);
    }
    assert actorId[0..] == actorId;
    hash := hashs[3] as nat * 0x100_0000 + hashs[2] as nat * 0x1_0000 + hashs[1] as nat * 0x100 + hashs[0];
  }

  function Number(s: seq<byte>): nat { if s == [] then 0 else Number(s[..|s| - 1]) * 256 + s[|s| - 1] }

  /** On ids of at most four bytes the hash is the big-endian number. */
  lemma ShortIdHash(s: ActorId)
    requires |s| <= 4
    ensures HashOf(s) == Number(s)
    ensures |s| == 4 ==> HashOf(s) == s[0] as nat * 0x100_0000 + s[1] as nat * 0x1_0000 + s[2] as nat * 0x100 + s[3]
  {
    LanesAreXorOfWords(s);
    ShortNumber(s);
  }

  lemma {:induction false} ShortNumber(s: seq<byte>)
    requires |s| <= 4
    ensures Number(s) == Uint32(BigEndian(s))
  {
    if s == [] {
    } else {
      var init := s[..|s| - 1];
      ShortNumber(init);
      assert FromEnd(init, 3) == 0 && FromEnd(init, 2) == FromEnd(s, 3);
      assert FromEnd(init, 1) == FromEnd(s, 2) && FromEnd(init, 0) == FromEnd(s, 1);
    }
  }
}
