/** SHA-1 (lib/sha.c) against the Secure Hash Standard, FIPS 180-1: the incremental hash of
    any sequence of updates is the hash of all their bytes together. */
module Sha {
  type Byte = bv8
  type Word = bv32

  // ------------------------------------------- the standard, sections 3 to 7

  function Rotl(x: Word, n: nat): Word
    requires 0 < n < 32
  {
    (x << n) | (x >> (32 - n))
  }

  /** Section 5: the functions used, in the standard's own form. */
  function F(t: nat, b: Word, c: Word, d: Word): Word {
    if t < 20 then (b & c) | (!b & d)
    else if t < 40 then b ^ c ^ d
    else if t < 60 then (b & c) | (b & d) | (c & d)
    else b ^ c ^ d
  }

  /** Section 6: the constants used. */
  function K(t: nat): Word {
    if t < 20 then 0x5a827999 else if t < 40 then 0x6ed9eba1 else if t < 60 then 0x8f1bbcdc else 0xca62c1d6
  }

  datatype Regs = Regs(a: Word, b: Word, c: Word, d: Word, e: Word)

  const INITIAL := Regs(0x67452301, 0xefcdab89, 0x98badcfe, 0x10325476, 0xc3d2e1f0)

  /** The four constants are the integer parts of 2 to the 30 times the square roots of 2, 3, 5
      and 10, one for each twenty rounds. */
  lemma ConstantsAreRoots(t: nat)
    requires t < 80
    ensures var n, k := (if t < 20 then 2 else if t < 40 then 3 else if t < 60 then 5 else 10), K(t) as int;
            k * k <= n * 0x1000_0000_0000_0000 < (k + 1) * (k + 1)
  {
    assert 0x5a827999 as Word as int == 0x5a827999 && 0x6ed9eba1 as Word as int == 0x6ed9eba1;
    assert 0x8f1bbcdc as Word as int == 0x8f1bbcdc && 0xca62c1d6 as Word as int == 0xca62c1d6;
  }

  /** The hexadecimal digits counted up, counted down, and the pairs f0, e1, d2, c3. */
  function CountingByte(i: Byte): Byte {
    if i < 8 then 0x01 + 0x22 * i else if i < 16 then 0xfe - 0x22 * (i - 8) else 0xf0 - 0x0f * (i - 16)
  }

  function CountingWord(k: Byte): Word {
    WordOf(CountingByte(4 * k + 3), CountingByte(4 * k + 2), CountingByte(4 * k + 1), CountingByte(4 * k))
  }

  /** The initial words are these bytes, the lowest byte of each word first. */
  lemma InitialCounts()
    ensures INITIAL == Regs(CountingWord(0), CountingWord(1), CountingWord(2), CountingWord(3), CountingWord(4))
  {
  }

  /** Section 7, step b: the words of the message schedule. */
  function Schedule(block: seq<Word>, t: nat): Word
    requires |block| == 16
  {
    if t < 16 then block[t]
    else Rotl(Schedule(block, t - 3) ^ Schedule(block, t - 8) ^ Schedule(block, t - 14) ^ Schedule(block, t - 16), 1)
  }

  /** One round: f is the value of the round's function, k its constant. */
  function Turn(r: Regs, f: Word, w: Word, k: Word): Regs {
    Regs(Rotl(r.a, 5) + f + r.e + w + k, r.a, Rotl(r.b, 30), r.c, r.d)
  }

  /** Section 7, step d. */
  function Round(r: Regs, t: nat, w: Word): Regs {
    Turn(r, F(t, r.b, r.c, r.d), w, K(t))
  }

  /** The eighty words of the schedule. */
  function Expanded(block: seq<Word>): (ws: seq<Word>)
    requires |block| == 16
    ensures |ws| == 80 && forall t :: 0 <= t < 80 ==> ws[t] == Schedule(block, t)
  {
    seq(80, t requires 0 <= t < 80 => Schedule(block, t))
  }

  function Rounds(r: Regs, ws: seq<Word>): Regs {
    if ws == [] then r else Round(Rounds(r, ws[..|ws| - 1]), |ws| - 1, ws[|ws| - 1])
  }

  /** Section 7, steps a to e: one block. */
  function HashBlock(h: Regs, block: seq<Word>): Regs
    requires |block| == 16
  {
    Sum(h, Rounds(h, Expanded(block)))
  }

  function Sum(h: Regs, r: Regs): Regs { Regs(h.a + r.a, h.b + r.b, h.c + r.c, h.d + r.d, h.e + r.e) }

  function WordOf(b0: Byte, b1: Byte, b2: Byte, b3: Byte): Word {
    ((b0 as Word) << 24) | ((b1 as Word) << 16) | ((b2 as Word) << 8) | (b3 as Word)
  }

  /** Section 3: 64 bytes as 16 words, the first byte the most significant. */
  function Words(bytes: seq<Byte>): (w: seq<Word>)
    requires |bytes| % 4 == 0
    ensures |w| == |bytes| / 4
    ensures forall k :: 0 <= k < |w| ==>
            w[k] == WordOf(bytes[4 * k], bytes[4 * k + 1], bytes[4 * k + 2], bytes[4 * k + 3])
  {
    seq(|bytes| / 4, k requires 0 <= k < |bytes| / 4 =>
      WordOf(bytes[4 * k], bytes[4 * k + 1], bytes[4 * k + 2], bytes[4 * k + 3]))
  }

  /** All complete blocks of the bytes, in order. */
  function HashBlocks(h: Regs, bytes: seq<Byte>): Regs
    decreases |bytes|
  {
    if |bytes| < 64 then h else HashBlocks(HashBlock(h, Words(bytes[..64])), bytes[64..])
  }

  function Zeros(n: nat): (z: seq<Byte>)
    ensures |z| == n
  {
    if n == 0 then [] else [0] + Zeros(n - 1)
  }

  const TWO_TO_32: int := 0x1_0000_0000
  const TWO_TO_64: int := 0x1_0000_0000_0000_0000

  function ByteOf(n: int): Byte { (n % 256) as Byte }

  /** The length in bits as eight bytes. */
  function LengthBytes(bits: nat): (p: seq<Byte>)
    ensures |p| == 8
  {
    [ByteOf(bits / 0x100_0000_0000_0000), ByteOf(bits / 0x1_0000_0000_0000), ByteOf(bits / 0x100_0000_0000),
     ByteOf(bits / 0x1_0000_0000), ByteOf(bits / 0x100_0000), ByteOf(bits / 0x1_0000), ByteOf(bits / 0x100),
     ByteOf(bits)]
  }

  /** The zeros that bring a message, the one byte in front of them and the length behind
      them to a block boundary. */
  function ZeroCount(n: nat): (z: nat)
    ensures z < 64 && (n + 1 + z + 8) % 64 == 0
  {
    (119 - n % 64) % 64
  }

  /** Section 4: a one bit, the fewest zeros that leave room for the length, the length. */
  function Padding(n: nat): (p: seq<Byte>)
    ensures |p| == 1 + ZeroCount(n) + 8
  {
    [0x80] + Zeros(ZeroCount(n)) + LengthBytes(8 * n % TWO_TO_64)
  }

  function Bytes(w: Word): seq<Byte> {
    [((w >> 24) & 0xff) as Byte, ((w >> 16) & 0xff) as Byte, ((w >> 8) & 0xff) as Byte, (w & 0xff) as Byte]
  }

  /** The message digest. */
  function Digest(msg: seq<Byte>): seq<Byte> {
    var h := HashBlocks(INITIAL, msg + Padding(|msg|));
    Output(h)
  }

  // --------------------------------------------------------- lemmas

  lemma {:induction false} HashBlocksConcat(h: Regs, a: seq<Byte>, b: seq<Byte>)
    requires |a| % 64 == 0
    ensures HashBlocks(h, a + b) == HashBlocks(HashBlocks(h, a), b)
    decreases |a|
  {
    if a == [] {
      assert a + b == b;
    } else {
      assert (a + b)[..64] == a[..64] && (a + b)[64..] == a[64..] + b;
      HashBlocksConcat(HashBlock(h, Words(a[..64])), a[64..], b);
    }
  }

  /** The forms of the choose and majority functions that the code uses. */
  lemma CodeForms(t: nat, b: Word, c: Word, d: Word)
    ensures t < 20 ==> ((c ^ d) & b) ^ d == F(t, b, c, d)
    ensures 40 <= t < 60 ==> (b & c) | (d & (b | c)) == F(t, b, c, d)
  {
  }

  /** How shaUpdate brings a byte into a word. */
  function Push(w: Word, b: Byte): Word { (w << 8) | (b as Word) }

  /** Four pushes leave nothing of what the word held before. */
  lemma FourPushes(w: Word, b0: Byte, b1: Byte, b2: Byte, b3: Byte)
    ensures Push(Push(Push(Push(w, b0), b1), b2), b3) == WordOf(b0, b1, b2, b3)
  {
  }

  /** A word into which n bytes of the tail, from position p on, have been pushed. */
  function Pushed(w: Word, tail: seq<Byte>, p: nat, n: nat): Word
    requires p + n <= |tail|
  {
    if n == 0 then w else Push(Pushed(w, tail, p, n - 1), tail[p + n - 1])
  }

  lemma {:induction false} PushedExtends(w: Word, tail: seq<Byte>, p: nat, n: nat, b: Byte)
    requires p + n <= |tail|
    ensures Pushed(w, tail + [b], p, n) == Pushed(w, tail, p, n)
  {
    if n > 0 {
      PushedExtends(w, tail, p, n - 1, b);
      assert (tail + [b])[p + n - 1] == tail[p + n - 1];
    }
  }

  lemma FullWord(w: Word, tail: seq<Byte>, p: nat)
    requires p + 4 <= |tail|
    ensures Pushed(w, tail, p, 4) == WordOf(tail[p], tail[p + 1], tail[p + 2], tail[p + 3])
  {
    assert Pushed(w, tail, p, 1) == Push(w, tail[p]);
    assert Pushed(w, tail, p, 2) == Push(Push(w, tail[p]), tail[p + 1]);
    assert Pushed(w, tail, p, 3) == Push(Push(Push(w, tail[p]), tail[p + 1]), tail[p + 2]);
    FourPushes(w, tail[p], tail[p + 1], tail[p + 2], tail[p + 3]);
  }

  // ----------------------------------------------------- the hash context

  /** The word holds n bytes of the tail, from position p on, on top of something older. */
  ghost predicate Holds(w: Word, tail: seq<Byte>, p: nat, n: nat)
    requires p + n <= |tail|
  {
    exists before: Word :: w == Pushed(before, tail, p, n)
  }

  function Arrived(tail: seq<Byte>, k: nat): (n: nat)
    requires 4 * k < |tail|
    ensures 4 * k + n <= |tail|
  {
    if |tail| >= 4 * k + 4 then 4 else |tail| - 4 * k
  }

  lemma HoldsExtends(w: Word, tail: seq<Byte>, p: nat, n: nat, b: Byte)
    requires p + n <= |tail| && Holds(w, tail, p, n)
    ensures Holds(w, tail + [b], p, n)
    ensures p + n == |tail| ==> Holds(Push(w, b), tail + [b], p, n + 1)
  {
    var before: Word :| w == Pushed(before, tail, p, n);
    PushedExtends(before, tail, p, n, b);
    assert w == Pushed(before, tail + [b], p, n);
    if p + n == |tail| {
      assert (tail + [b])[p + n] == b;
      assert Push(w, b) == Pushed(before, tail + [b], p, n + 1);
    }
  }

  lemma HoldsFull(w: Word, tail: seq<Byte>, p: nat)
    requires p + 4 <= |tail| && Holds(w, tail, p, 4)
    ensures w == WordOf(tail[p], tail[p + 1], tail[p + 2], tail[p + 3])
  {
    var before: Word :| w == Pushed(before, tail, p, 4);
    FullWord(before, tail, p);
  }

  /** The words hold the pending bytes, four to a word, each on top of something older. */
  ghost predicate Pending(ws: seq<Word>, tail: seq<Byte>) {
    |ws| >= 16 && forall k :: 0 <= k < 16 && 4 * k < |tail| ==> Holds(ws[k], tail, 4 * k, Arrived(tail, k))
  }

  lemma PendingExtends(ws: seq<Word>, tail: seq<Byte>, b: Byte)
    requires Pending(ws, tail) && |tail| < 64
    ensures Pending(ws[|tail| / 4 := Push(ws[|tail| / 4], b)], tail + [b])
  {
    var n := |tail|;
    var ws' := ws[n / 4 := Push(ws[n / 4], b)];
    forall k | 0 <= k < 16 && 4 * k < |tail + [b]|
      ensures Holds(ws'[k], tail + [b], 4 * k, Arrived(tail + [b], k))
    {
      if 4 * k == n {
        assert ws[k] == Pushed(ws[k], tail, n, 0);
        HoldsExtends(ws[k], tail, n, 0, b);
      } else {
        HoldsExtends(ws[k], tail, 4 * k, Arrived(tail, k), b);
      }
    }
  }

  /** Once 64 bytes have arrived nothing older is left in the first sixteen words. */
  lemma PendingFull(ws: seq<Word>, tail: seq<Byte>)
    requires Pending(ws, tail) && |tail| == 64
    ensures ws[..16] == Words(tail)
  {
    forall k | 0 <= k < 16
      ensures ws[k] == Words(tail)[k]
    {
      HoldsFull(ws[k], tail, 4 * k);
    }
  }

  datatype Size = Size(hi: int, lo: int)

  /** The two counters after one more byte. */
  function Counted(s: Size): Size {
    var lo := (s.lo + 8) % TWO_TO_32;
    Size((s.hi + if lo < 8 then 1 else 0) % TWO_TO_32, lo)
  }

  function SizeAfter(n: nat): Size { if n == 0 then Size(0, 0) else Counted(SizeAfter(n - 1)) }

  /** The bits of n bytes, cut to 64, as a quotient and the two counters. */
  lemma {:induction false} SizeSplits(n: nat) returns (q: int)
    ensures 0 <= SizeAfter(n).hi < TWO_TO_32 && 0 <= SizeAfter(n).lo < TWO_TO_32
    ensures 8 * n == q * TWO_TO_64 + SizeAfter(n).hi * TWO_TO_32 + SizeAfter(n).lo
  {
    if n == 0 {
      q := 0;
    } else {
      var s := SizeAfter(n - 1);
      q := SizeSplits(n - 1);
      if s.lo + 8 < TWO_TO_32 {
        assert Counted(s) == Size(s.hi, s.lo + 8);
      } else if s.hi + 1 < TWO_TO_32 {
        assert Counted(s) == Size(s.hi + 1, s.lo + 8 - TWO_TO_32);
      } else {
        assert Counted(s) == Size(0, s.lo + 8 - TWO_TO_32);
        q := q + 1;
      }
    }
  }

  lemma Remainder(x: int, q: int, r: int)
    requires x == q * TWO_TO_64 + r && 0 <= r < TWO_TO_64
    ensures x % TWO_TO_64 == r
  {
  }

  /** The two counters together are the length in bits, modulo two to the 64. */
  lemma SizeCounts(n: nat)
    ensures 0 <= SizeAfter(n).hi < TWO_TO_32 && 0 <= SizeAfter(n).lo < TWO_TO_32
    ensures SizeAfter(n).hi * TWO_TO_32 + SizeAfter(n).lo == 8 * n % TWO_TO_64
  {
    var q := SizeSplits(n);
    var r := SizeAfter(n).hi * TWO_TO_32 + SizeAfter(n).lo;
    Remainder(8 * n, q, r);
  }

  /** The eight bytes that shaFinal takes out of the two counters are the length in bits. */
  function SizeBytes(hi: int, lo: int): seq<Byte> {
    [ByteOf(hi / 0x100_0000), ByteOf(hi / 0x1_0000), ByteOf(hi / 0x100), ByteOf(hi),
     ByteOf(lo / 0x100_0000), ByteOf(lo / 0x1_0000), ByteOf(lo / 0x100), ByteOf(lo)]
  }

  lemma SameByte(x: int, y: int, q: int)
    requires x == y + 256 * q
    ensures x % 256 == y % 256
  {
  }

  lemma SizeBytesAreLength(hi: int, lo: int)
    requires 0 <= hi < TWO_TO_32 && 0 <= lo < TWO_TO_32
    ensures SizeBytes(hi, lo) == LengthBytes(hi * TWO_TO_32 + lo)
  {
    var n := hi * TWO_TO_32 + lo;
    assert n / 0x100_0000_0000_0000 == hi / 0x100_0000;
    assert n / 0x1_0000_0000_0000 == hi / 0x1_0000;
    assert n / 0x100_0000_0000 == hi / 0x100;
    assert n / 0x1_0000_0000 == hi;
    SameByte(n / 0x100_0000, lo / 0x100_0000, hi);
    SameByte(n / 0x1_0000, lo / 0x1_0000, 0x100 * hi);
    SameByte(n / 0x100, lo / 0x100, 0x1_0000 * hi);
    SameByte(n, lo, 0x100_0000 * hi);
  }

  function Shl8(w: Word): Word { w << 8 }

  /** A word shifted left n times by one byte. */
  function Shifted(w: Word, n: nat): Word { if n == 0 then w else Shl8(Shifted(w, n - 1)) }

  /** How shaFinal takes the next byte out of a word. */
  function Top(w: Word): Byte { (w >> 24) as Byte }

  lemma TopOfShifted(w: Word, n: nat)
    requires n < 4
    ensures Top(Shifted(w, n)) == Bytes(w)[n]
  {
    ShiftFacts(w);
    Shifts(w);
  }

  lemma Shifts(w: Word)
    ensures Shifted(w, 0) == w && Shifted(w, 1) == Shl8(w) && Shifted(w, 2) == Shl8(Shl8(w))
            && Shifted(w, 3) == Shl8(Shl8(Shl8(w)))
  {
  }

  lemma ShiftFacts(w: Word)
    ensures w >> 24 == (w >> 24) & 0xff
    ensures Shl8(w) >> 24 == (w >> 16) & 0xff
    ensures Shl8(Shl8(w)) >> 24 == (w >> 8) & 0xff
    ensures Shl8(Shl8(Shl8(w))) >> 24 == w & 0xff
  {
  }

  lemma TurnedNext(i: nat, k: nat)
    ensures Turned(i + 1, k) == if k == i / 4 then Turned(i, k) + 1 else Turned(i, k)
    ensures Turned(i, i / 4) == i % 4
  {
  }

  lemma LengthOfTail(n: nat, t: nat)
    requires n % 64 == 0 && t < 64
    ensures (n + t) % 64 == t
  {
  }

  lemma PaddingStops(n: nat, z: nat)
    requires z <= ZeroCount(n)
    ensures (n + 1 + z) % 64 == 56 <==> z == ZeroCount(n)
  {
    var r := n % 64;
    assert (n + 1 + z) % 64 == (r + 1 + z) % 64;
  }

  lemma CountersAreLength(n: nat, hi: int, lo: int)
    requires Size(hi, lo) == SizeAfter(n)
    ensures SizeBytes(hi, lo) == LengthBytes(8 * n % TWO_TO_64)
  {
    SizeCounts(n);
    SizeBytesAreLength(hi, lo);
  }

  lemma WholeBlock<T>(full: seq<T>, tail: seq<T>)
    requires |full| % 64 == 0 && 0 < |tail| <= 64 && |tail| % 64 == 0
    ensures |tail| == 64 && |full + tail| % 64 == 0 && (full + tail) + [] == full + tail
  {
  }

  lemma PaddingGoesOn(n: nat, z: nat, full: nat, tail: nat)
    requires z <= ZeroCount(n) && full % 64 == 0 && tail < 64 && full + tail == n + 1 + z
    ensures tail == 56 <==> z == ZeroCount(n)
  {
    LengthOfTail(full, tail);
    PaddingStops(n, z);
  }

  function Output(h: Regs): (o: seq<Byte>)
    ensures |o| == 20
  {
    Bytes(h.a) + Bytes(h.b) + Bytes(h.c) + Bytes(h.d) + Bytes(h.e)
  }

  function Flat(pieces: seq<seq<Byte>>): seq<Byte> {
    if pieces == [] then [] else Flat(pieces[..|pieces| - 1]) + pieces[|pieces| - 1]
  }

  function Turned(i: nat, k: nat): nat { if i <= 4 * k then 0 else if i >= 4 * k + 4 then 4 else i - 4 * k }

  /** struct j_SHA_CTX. The ghost fields are the bytes hashed and the bytes pending. */
  class Context {
    var h: Regs
    const w: array<Word>
    var lenW: nat
    var sizeHi: int
    var sizeLo: int
    ghost var full: seq<Byte>
    ghost var tail: seq<Byte>

    ghost predicate Valid()
      reads this, w
    {
      && w.Length == 80 && lenW == |tail| < 64 && |full| % 64 == 0
      && h == HashBlocks(INITIAL, full)
      && Pending(w[..], tail)
      && Size(sizeHi, sizeLo) == SizeAfter(|full + tail|)
    }

    /** shaInit on a new context. */
    constructor ()
      ensures Valid() && full + tail == [] && fresh(w)
    {
      h, lenW, sizeHi, sizeLo, full, tail := INITIAL, 0, 0, 0, [], [];
      w := new Word[80](_ => 0);
    }

    /** shaInit. */
    method Reset()
      requires w.Length == 80
      modifies this, w
      ensures Valid() && full + tail == []
    {
      lenW, sizeHi, sizeLo := 0, 0, 0;
      h := INITIAL;
      full, tail := [], [];
      var i := 0;
      while i < 80
        modifies w
      {
        w[i] := 0;
        i := i + 1;
      }
    }

    /** shaHashBlock: the schedule, the eighty rounds, the sum. */
    method HashWords()
      requires w.Length == 80
      modifies this`h, w
      ensures h == HashBlock(old(h), old(w[..16]))
    {
      Expand(w);
      var r := FirstRounds(h, w);
      r := SecondRounds(r, w, h);
      r := ThirdRounds(r, w, h);
      r := FourthRounds(r, w, h);
      assert w[..80] == w[..];
      h := Sum(h, r);
    }

    method Load(b: Byte)
      requires w.Length == 80 && lenW == |tail| < 64 && Pending(w[..], tail)
      modifies this`lenW, this`tail, w
      ensures tail == old(tail) + [b] && lenW == |tail| && Pending(w[..], tail)
    {
      PendingExtends(w[..], tail, b);
      w[lenW / 4] := Push(w[lenW / 4], b);
      assert w[..] == old(w[..])[lenW / 4 := Push(old(w[..])[lenW / 4], b)];
      lenW, tail := lenW + 1, tail + [b];
    }

    /** One turn of the loop of shaUpdate. */
    method Take(b: Byte)
      requires Valid()
      modifies this, w
      ensures Valid() && full + tail == old(full + tail) + [b]
    {
      ghost var msg := full + tail;
      Load(b);
      assert full + tail == old(full + tail) + [b];
      Settle();
      Count(msg, b);
    }

    method Count(ghost msg: seq<Byte>, ghost b: Byte)
      requires Size(sizeHi, sizeLo) == SizeAfter(|msg|)
      modifies this`sizeHi, this`sizeLo
      ensures Size(sizeHi, sizeLo) == SizeAfter(|msg + [b]|)
    {
      sizeLo := (sizeLo + 8) % TWO_TO_32;
      sizeHi := (sizeHi + if sizeLo < 8 then 1 else 0) % TWO_TO_32;
    }

    /** A full block is hashed as soon as it is there. */
    method Settle()
      requires w.Length == 80 && |full| % 64 == 0 && h == HashBlocks(INITIAL, full)
      requires 0 < lenW == |tail| <= 64 && Pending(w[..], tail)
      modifies this`h, this`lenW, this`full, this`tail, w
      ensures |full| % 64 == 0 && h == HashBlocks(INITIAL, full)
      ensures full + tail == old(full + tail) && lenW == |tail| < 64 && Pending(w[..], tail)
    {
      if lenW % 64 == 0 {
        WholeBlock(full, tail);
        HashWhole();
      }
    }

    /** The step of shaUpdate at a block boundary. */
    method HashWhole()
      requires w.Length == 80 && |full| % 64 == 0 && h == HashBlocks(INITIAL, full)
      requires |tail| == 64 && Pending(w[..], tail)
      modifies this`h, this`lenW, this`full, this`tail, w
      ensures lenW == |tail| == 0 && full == old(full + tail) && h == HashBlocks(INITIAL, full)
    {
      PendingFull(w[..], tail);
      assert w[..16] == w[..][..16];
      HashBlocksConcat(INITIAL, full, tail);
      assert tail[..64] == tail && tail[64..] == [];
      ghost var more := full + tail;
      HashWords();
      assert HashBlocks(h, []) == h;
      lenW, full, tail := 0, more, [];
    }

    /** shaUpdate. */
    method Update(dataIn: seq<Byte>)
      requires Valid()
      modifies this, w
      ensures Valid() && full + tail == old(full + tail) + dataIn
    {
      var i := 0;
      while i < |dataIn|
        invariant 0 <= i <= |dataIn| && Valid() && full + tail == old(full + tail) + dataIn[..i]
      {
        Take(dataIn[i]);
        assert old(full + tail) + dataIn[..i] + [dataIn[i]] == old(full + tail) + dataIn[..i + 1];
        i := i + 1;
      }
      assert dataIn[..|dataIn|] == dataIn;
    }

    /** The one bit and the zeros that shaFinal feeds to shaUpdate. */
    method PadZeros()
      requires Valid()
      modifies this, w
      ensures Valid() && full + tail == old(full + tail) + [0x80] + Zeros(ZeroCount(old(|full + tail|)))
    {
      ghost var msg := full + tail;
      Update([0x80]);
      ghost var z: nat := 0;
      while lenW != 56
        invariant Valid() && z <= ZeroCount(|msg|)
        invariant full + tail == msg + [0x80] + Zeros(z)
        decreases ZeroCount(|msg|) - z
      {
        assert |full + tail| == |msg| + 1 + z;
        PaddingGoesOn(|msg|, z, |full|, |tail|);
        Update([0]);
        MoreZeros(msg, z);
        z := z + 1;
      }
      assert |full + tail| == |msg| + 1 + z;
      PaddingGoesOn(|msg|, z, |full|, |tail|);
    }

    /** The padding ends on a block boundary. */
    method Pad()
      requires Valid()
      modifies this, w
      ensures Valid() && lenW == 0 && full == old(full + tail) + Padding(old(|full + tail|))
    {
      ghost var msg := full + tail;
      var padlen := SizeBytes(sizeHi, sizeLo);
      CountersAreLength(|msg|, sizeHi, sizeLo);
      PadZeros();
      Update(padlen);
      Padded(msg, full, tail, padlen);
    }

    /** shaFinal. */
    method Final() returns (hashout: seq<Byte>)
      requires Valid()
      modifies this, w
      ensures hashout == Digest(old(full + tail))
      ensures Valid() && full + tail == []
    {
      Pad();
      hashout := Emit(h);
      Reset();
    }
  }

  lemma Padded(msg: seq<Byte>, full: seq<Byte>, tail: seq<Byte>, padlen: seq<Byte>)
    requires |full| % 64 == 0 && |tail| < 64 && padlen == LengthBytes(8 * |msg| % TWO_TO_64)
    requires full + tail == msg + [0x80] + Zeros(ZeroCount(|msg|)) + padlen
    ensures tail == [] && full == msg + Padding(|msg|)
  {
    LengthOfTail(|full|, |tail|);
    assert |full + tail| == |msg| + 1 + ZeroCount(|msg|) + 8;
    assert full + tail == full;
    Associates(msg, [0x80], Zeros(ZeroCount(|msg|)), LengthBytes(8 * |msg| % TWO_TO_64));
  }

  lemma Associates<T>(a: seq<T>, b: seq<T>, c: seq<T>, d: seq<T>)
    ensures a + b + c + d == a + (b + c + d)
    ensures a + b + c + d == a + b + (c + d)
  {
  }

  lemma MoreZeros(msg: seq<Byte>, z: nat)
    ensures msg + [0x80] + Zeros(z) + [0] == msg + [0x80] + Zeros(z + 1)
  {
    ZerosEnd(z);
    Associates(msg, [0x80], Zeros(z), [0]);
  }

  lemma TakeNext<T>(s: seq<T>, i: nat)
    requires i < |s|
    ensures s[..i] + [s[i]] == s[..i + 1]
  {
  }

  lemma {:induction false} ZerosEnd(n: nat)
    ensures Zeros(n) + [0] == Zeros(n + 1)
  {
    if n > 0 {
      ZerosEnd(n - 1);
      assert Zeros(n) + [0] == [0] + (Zeros(n - 1) + [0]);
    }
  }

  lemma AtOfFive<T>(p: seq<seq<T>>, j: nat)
    requires |p| == 5 && j < 20 && forall k :: 0 <= k < 5 ==> |p[k]| == 4
    ensures (p[0] + p[1] + p[2] + p[3] + p[4])[j] == p[j / 4][j % 4]
  {
  }

  /** The five words when i bytes have been shifted out. */
  function Left(start: seq<Word>, i: nat): (h: seq<Word>)
    requires |start| == 5
    ensures |h| == 5 && forall k :: 0 <= k < 5 ==> h[k] == Shifted(start[k], Turned(i, k))
  {
    seq(5, k requires 0 <= k < 5 => Shifted(start[k], Turned(i, k)))
  }

  lemma LeftNext(start: seq<Word>, i: nat)
    requires |start| == 5 && i < 20
    ensures Left(start, i)[i / 4 := Shl8(Left(start, i)[i / 4])] == Left(start, i + 1)
    ensures Top(Left(start, i)[i / 4]) == Bytes(start[i / 4])[i % 4]
  {
    TurnedNext(i, i / 4);
    TopOfShifted(start[i / 4], i % 4);
    forall k: nat | k < 5
      ensures Left(start, i + 1)[k] == if k == i / 4 then Shl8(Left(start, i)[k]) else Left(start, i)[k]
    {
      TurnedNext(i, k);
    }
  }

  lemma EmittedByte(regs: Regs, i: nat)
    requires i < 20
    ensures Top(Left([regs.a, regs.b, regs.c, regs.d, regs.e], i)[i / 4]) == Output(regs)[i]
  {
    var start := [regs.a, regs.b, regs.c, regs.d, regs.e];
    LeftNext(start, i);
    var p := [Bytes(regs.a), Bytes(regs.b), Bytes(regs.c), Bytes(regs.d), Bytes(regs.e)];
    AtOfFive(p, i);
    assert p[i / 4] == Bytes(start[i / 4]);
  }

  /** The output loop of shaFinal, on its own copy of the five words. */
  method Emit(regs: Regs) returns (hashout: seq<Byte>)
    ensures hashout == Output(regs)
  {
    var start := [regs.a, regs.b, regs.c, regs.d, regs.e];
    var h := start;
    hashout := [];
    var i := 0;
    while i < 20
      invariant 0 <= i <= 20 && h == Left(start, i) && hashout == Output(regs)[..i]
    {
      LeftNext(start, i);
      EmittedByte(regs, i);
      TakeNext(Output(regs), i);
      hashout := hashout + [Top(h[i / 4])];
      h := h[i / 4 := Shl8(h[i / 4])];
      i := i + 1;
    }
  }

  /** shaBlock. */
  method Block(dataIn: seq<Byte>) returns (hashout: seq<Byte>)
    ensures hashout == Digest(dataIn)
  {
    var ctx := new Context();
    ctx.Update(dataIn);
    assert [] + dataIn == dataIn;
    hashout := ctx.Final();
  }

  /** Whatever pieces a message is cut into, the digest is that of the whole message. */
  method HashPieces(pieces: seq<seq<Byte>>) returns (hashout: seq<Byte>)
    ensures hashout == Digest(Flat(pieces))
  {
    var ctx := new Context();
    var i := 0;
    while i < |pieces|
      invariant 0 <= i <= |pieces| && ctx.Valid() && ctx.full + ctx.tail == Flat(pieces[..i])
      invariant fresh(ctx) && fresh(ctx.w)
    {
      assert pieces[..i + 1][..i] == pieces[..i];
      ctx.Update(pieces[i]);
      i := i + 1;
    }
    assert pieces[..i] == pieces;
    hashout := ctx.Final();
  }

  /** The schedule loop of shaHashBlock. */
  method Expand(w: array<Word>)
    requires w.Length == 80
    modifies w
    ensures w[..] == Expanded(old(w[..16]))
  {
    ghost var block := w[..16];
    var t := 16;
    while t <= 79
      invariant 16 <= t <= 80 && forall k :: 0 <= k < t ==> w[k] == Schedule(block, k)
    {
      w[t] := Rotl(w[t - 3] ^ w[t - 8] ^ w[t - 14] ^ w[t - 16], 1);
      assert w[t] == Schedule(block, t);
      t := t + 1;
    }
  }

  /** One turn of a round loop, with the value f and the constant k that the loop uses. */
  method DoRound(r: Regs, f: Word, w: Word, k: Word, ghost start: Regs, ghost ws: seq<Word>) returns (r': Regs)
    requires r == Rounds(start, ws) && f == F(|ws|, r.b, r.c, r.d) && k == K(|ws|)
    ensures r' == Rounds(start, ws + [w])
  {
    assert (ws + [w])[..|ws|] == ws;
    r' := Turn(r, f, w, k);
  }

  /** The first round loop of shaHashBlock, with the code's own choose function. */
  method FirstRounds(start: Regs, w: array<Word>) returns (r: Regs)
    requires w.Length == 80
    ensures r == Rounds(start, w[..20])
  {
    r := start;
    var t := 0;
    while t <= 19
      invariant 0 <= t <= 20 && r == Rounds(start, w[..t])
    {
      CodeForms(t, r.b, r.c, r.d);
      r := DoRound(r, ((r.c ^ r.d) & r.b) ^ r.d, w[t], 0x5a827999, start, w[..t]);
      assert w[..t] + [w[t]] == w[..t + 1];
      t := t + 1;
    }
  }

  /** The second round loop. */
  method SecondRounds(from: Regs, w: array<Word>, ghost start: Regs) returns (r: Regs)
    requires w.Length == 80 && from == Rounds(start, w[..20])
    ensures r == Rounds(start, w[..40])
  {
    r := from;
    var t := 20;
    while t <= 39
      invariant 20 <= t <= 40 && r == Rounds(start, w[..t])
    {
      r := DoRound(r, r.b ^ r.c ^ r.d, w[t], 0x6ed9eba1, start, w[..t]);
      assert w[..t] + [w[t]] == w[..t + 1];
      t := t + 1;
    }
  }

  /** The third round loop, with the code's own majority function. */
  method ThirdRounds(from: Regs, w: array<Word>, ghost start: Regs) returns (r: Regs)
    requires w.Length == 80 && from == Rounds(start, w[..40])
    ensures r == Rounds(start, w[..60])
  {
    r := from;
    var t := 40;
    while t <= 59
      invariant 40 <= t <= 60 && r == Rounds(start, w[..t])
    {
      CodeForms(t, r.b, r.c, r.d);
      r := DoRound(r, (r.b & r.c) | (r.d & (r.b | r.c)), w[t], 0x8f1bbcdc, start, w[..t]);
      assert w[..t] + [w[t]] == w[..t + 1];
      t := t + 1;
    }
  }

  /** The fourth round loop. */
  method FourthRounds(from: Regs, w: array<Word>, ghost start: Regs) returns (r: Regs)
    requires w.Length == 80 && from == Rounds(start, w[..60])
    ensures r == Rounds(start, w[..80])
  {
    r := from;
    var t := 60;
    while t <= 79
      invariant 60 <= t <= 80 && r == Rounds(start, w[..t])
    {
      r := DoRound(r, r.b ^ r.c ^ r.d, w[t], 0xca62c1d6, start, w[..t]);
      assert w[..t] + [w[t]] == w[..t + 1];
      t := t + 1;
    }
  }
}
