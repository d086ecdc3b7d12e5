/** The CRC-32 loop of the chunkserver's checksum store (chunkserver/checksum.cpp),
    shown to be the textbook division of Gf2.dfy, and what follows from that.
    A uint8_t is its 8 bits and a uint32_t its 32 bits, lowest bit first. */
module Crc32 {
  import opened Gf2

  type Byte = b: Bits | |b| == 8 witness Zeros(8)
  type Word = w: Bits | |w| == 32 witness Zeros(32)

  // ---- Machine arithmetic ----

  /** Four bits from a hexadecimal digit. */
  function Nibble(d: nat): (r: Bits)
    ensures |r| == 4
  {
    [d % 2 == 1, d / 2 % 2 == 1, d / 4 % 2 == 1, d / 8 % 2 == 1]
  }

  /** A 32-bit constant from its hexadecimal digits, as written. */
  function Hex(d7: nat, d6: nat, d5: nat, d4: nat, d3: nat, d2: nat, d1: nat, d0: nat): Word {
    Nibble(d0) + Nibble(d1) + Nibble(d2) + Nibble(d3) + Nibble(d4) + Nibble(d5) + Nibble(d6) + Nibble(d7)
  }

  function And(a: Bits, b: Bits): (r: Bits)
    requires |a| == |b|
    ensures |r| == |a|
  {
    seq(|a|, i requires 0 <= i < |a| => a[i] && b[i])
  }

  /** Adding one, the last carry dropped. */
  function Increment(a: Bits): (r: Bits)
    ensures |r| == |a|
    decreases |a|
  {
    if a == [] then [] else if a[0] then [false] + Increment(a[1..]) else [true] + a[1..]
  }

  /** Unsigned negation: two's complement. */
  function Negate(a: Bits): (r: Bits)
    ensures |r| == |a|
  {
    Increment(Not(a))
  }

  function Widen(b: Byte): Word {
    b + Zeros(24)
  }

  const POLY: Word := Hex(0xE, 0xD, 0xB, 0x8, 0x8, 0x3, 0x2, 0x0)
  const BYTE_BITS: nat := 8
  const ONE: Word := [true] + Zeros(31)

  // ---- Messages ----

  /** The bits of a message in the order the loop consumes them. */
  function MessageBits(data: seq<Byte>): (m: Bits)
    ensures |m| == 8 * |data|
    decreases |data|
  {
    if data == [] then [] else MessageBits(data[..|data| - 1]) + data[|data| - 1]
  }

  function Checksum(data: seq<Byte>): Word {
    Not(Feed(Ones(32), MessageBits(data)))
  }

  lemma {:induction false} MessageBitsAppend(x: seq<Byte>, y: seq<Byte>)
    ensures MessageBits(x + y) == MessageBits(x) + MessageBits(y)
    decreases |y|
  {
    if y == [] {
      assert x + y == x;
    } else {
      assert (x + y)[..|x + y| - 1] == x + y[..|y| - 1];
      MessageBitsAppend(x, y[..|y| - 1]);
    }
  }

  // ---- The loop ----

  /** 0xEDB88320 is the generator with its bits in reverse order. */
  lemma PolyIsGenerator()
    ensures POLY == GENERATOR
  {
  }

  lemma {:induction false} NegateZeros(n: nat)
    ensures Increment(Ones(n)) == Zeros(n)
    decreases n
  {
    if n > 0 {
      assert Ones(n)[1..] == Ones(n - 1);
      NegateZeros(n - 1);
      assert Zeros(n) == [false] + Zeros(n - 1);
    }
  }

  /** Negating a lone low bit gives a mask of all ones, or of all zeros. */
  lemma NegateLowBit(a: Word)
    ensures Negate(And(a, ONE)) == if a[0] then Ones(32) else Zeros(32)
  {
    var low := And(a, ONE);
    if a[0] {
      assert low == ONE;
      assert Not(low) == [false] + Ones(31);
      assert Not(low)[1..] == Ones(31);
      assert Ones(32) == [true] + Ones(31);
    } else {
      assert Not(low) == Ones(32);
      NegateZeros(32);
    }
  }

  /** The branch-free round of the loop is one step of the shift register. */
  lemma RoundIsStep(crc: Word)
    ensures Xor(Shift(crc), And(POLY, Negate(And(crc, ONE)))) == Step(crc)
  {
    PolyIsGenerator();
    NegateLowBit(crc);
    if crc[0] {
      assert And(POLY, Ones(32)) == POLY;
    } else {
      assert Xor(Shift(crc), And(POLY, Zeros(32))) == Shift(crc);
    }
  }

  lemma StepOnZero(a: Word, n: nat)
    ensures Feed(a, Zeros(n + 1)) == Step(Feed(a, Zeros(n)))
  {
    var s := Feed(a, Zeros(n));
    assert Zeros(n + 1) == Zeros(n) + [false];
    FeedAppend(a, Zeros(n), [false]);
    assert s[0 := s[0] != false] == s && [false][1..] == [];
  }

  lemma MessageBitsNext(data: seq<Byte>, k: nat)
    requires k < |data|
    ensures MessageBits(data[..k + 1]) == MessageBits(data[..k]) + data[k]
  {
    assert data[..k + 1][..k] == data[..k];
  }

  lemma ByteAbsorbed(data: seq<Byte>, k: nat, before: Word, n: nat)
    requires k < |data| && n == 8
    requires before == Feed(Ones(32), MessageBits(data[..k]))
    ensures Feed(Xor(before, Widen(data[k])), Zeros(n)) == Feed(Ones(32), MessageBits(data[..k + 1]))
  {
    FeedAbsorbs(before, data[k]);
    MessageBitsNext(data, k);
    FeedAppend(Ones(32), MessageBits(data[..k]), data[k]);
  }

  /** chunkserver/checksum.cpp, compute: two nested loops over one register. */
  method Compute(data: seq<Byte>) returns (sum: Word)
    ensures sum == Checksum(data)
  {
    var crc: Word := Ones(32);
    for k := 0 to |data|
      invariant crc == Feed(Ones(32), MessageBits(data[..k]))
    {
      ByteAbsorbed(data, k, crc, BYTE_BITS);
      crc := Xor(crc, Widen(data[k]));
      ghost var start := crc;
      for i := 0 to BYTE_BITS
        invariant crc == Feed(start, Zeros(i))
      {
        RoundIsStep(crc);
        StepOnZero(start, i);
        crc := Xor(Shift(crc), And(POLY, Negate(And(crc, ONE))));
      }
    }
    assert data[..|data|] == data;
    sum := Not(crc);
  }

  // ---- The checksum is the textbook remainder ----

  /** The message times x^32, its first 32 coefficients complemented. */
  function Dividend(data: seq<Byte>): (d: Bits)
    ensures |d| == 8 * |data| + 32
  {
    AddToFront(MessageBits(data) + Zeros(32), Ones(32))
  }

  /** The checksum is the complemented remainder of a division by the generator, and
      every way to divide gives that remainder. */
  lemma ChecksumIsRemainder(data: seq<Byte>)
    ensures IsDivision(Dividend(data), Quotient(Dividend(data)), Not(Checksum(data)))
    ensures forall q, r :: IsDivision(Dividend(data), q, r) ==> Checksum(data) == Not(r)
  {
    var d := Dividend(data);
    DivisionHolds(d);
    FeedIsRemainder(Ones(32), MessageBits(data));
    assert Not(Not(Remainder(d))) == Remainder(d);
    forall q, r | IsDivision(d, q, r) ensures Checksum(data) == Not(r) {
      DivisionUnique(d, q, r);
    }
  }

  // ---- Checksums combine as blocks do ----

  function XorBytes(x: seq<Byte>, y: seq<Byte>): (r: seq<Byte>)
    requires |x| == |y|
    ensures |r| == |x|
  {
    seq(|x|, i requires 0 <= i < |x| => Xor(x[i], y[i]))
  }

  lemma XorConcat(a: Bits, b: Bits, p: Bits, q: Bits)
    requires |a| == |b| && |p| == |q|
    ensures Xor(a + p, b + q) == Xor(a, b) + Xor(p, q)
  {
  }

  lemma {:induction false} MessageBitsXor(x: seq<Byte>, y: seq<Byte>)
    requires |x| == |y|
    ensures MessageBits(XorBytes(x, y)) == Xor(MessageBits(x), MessageBits(y))
    decreases |x|
  {
    if x != [] {
      var n := |x| - 1;
      MessageBitsXor(x[..n], y[..n]);
      assert XorBytes(x, y)[..n] == XorBytes(x[..n], y[..n]);
      XorConcat(MessageBits(x[..n]), MessageBits(y[..n]), x[n], y[n]);
    }
  }

  lemma {:induction false} FeedOfThree(a: Bits, b: Bits, c: Bits)
    requires |a| == |b| == |c|
    ensures Feed(Ones(32), Xor(Xor(a, b), c)) == Xor(Xor(Feed(Ones(32), a), Feed(Ones(32), b)), Feed(Ones(32), c))
  {
    var o := Ones(32);
    FeedLinear(o, o, a, b);
    FeedLinear(Xor(o, o), o, Xor(a, b), c);
    assert Xor(Xor(o, o), o) == o;
  }

  lemma NotOfThree(a: Bits, b: Bits, c: Bits)
    requires |a| == |b| == |c|
    ensures Not(Xor(Xor(a, b), c)) == Xor(Xor(Not(a), Not(b)), Not(c))
  {
  }

  /** Checksums of equal-length blocks combine exactly as the blocks do. */
  lemma ChecksumAffine(x: seq<Byte>, y: seq<Byte>, z: seq<Byte>)
    requires |x| == |y| == |z|
    ensures Xor(Xor(Checksum(x), Checksum(y)), Checksum(z)) == Checksum(XorBytes(XorBytes(x, y), z))
  {
    var o, a, b, c := Ones(32), MessageBits(x), MessageBits(y), MessageBits(z);
    MessageBitsXor(x, y);
    MessageBitsXor(XorBytes(x, y), z);
    FeedOfThree(a, b, c);
    NotOfThree(Feed(o, a), Feed(o, b), Feed(o, c));
  }

  // ---- Bursts ----

  lemma {:induction false} MessageBitsInjective(x: seq<Byte>, y: seq<Byte>)
    requires |x| == |y| && MessageBits(x) == MessageBits(y)
    ensures x == y
    decreases |x|
  {
    if x != [] {
      var n := |x| - 1;
      var m := MessageBits(x);
      assert m[..8 * n] == MessageBits(x[..n]) == MessageBits(y[..n]);
      assert m[8 * n..] == x[n] == y[n];
      MessageBitsInjective(x[..n], y[..n]);
      assert x == x[..n] + [x[n]] && y == y[..n] + [y[n]];
    }
  }

  lemma Window(m: Bits, n: Bits, i: nat, j: nat)
    requires |m| == |n| && i <= j <= |m| && m[..i] == n[..i] && m[j..] == n[j..]
    ensures m == m[..i] + (m[i..j] + m[j..]) && n == m[..i] + (n[i..j] + m[j..])
  {
  }

  lemma {:induction false} WindowOfBits(m: Bits, n: Bits, i: nat, j: nat)
    requires |m| == |n| && i <= j <= |m| && j - i <= 32 && m[..i] == n[..i] && m[j..] == n[j..]
    requires Feed(Ones(32), m) == Feed(Ones(32), n)
    ensures m == n
  {
    var start, front, after := Ones(32), m[..i], m[j..];
    Window(m, n, i, j);
    FeedAppend(start, front, m[i..j] + after);
    FeedAppend(start, front, n[i..j] + after);
    BurstSeen(Feed(start, front), m[i..j], n[i..j], after);
  }

  /** Two different blocks of equal length whose bits differ only inside one window
      of 32 consecutive bits never share a checksum. Four consecutive bytes are the
      windows that start on a byte. */
  lemma {:induction false} BurstDetected(x: seq<Byte>, y: seq<Byte>, from: nat)
    requires |x| == |y| && x != y
    requires forall k :: 0 <= k < 8 * |x| && !(from <= k < from + 32) ==> MessageBits(x)[k] == MessageBits(y)[k]
    ensures Checksum(x) != Checksum(y)
  {
    if Checksum(x) == Checksum(y) {
      var a, b := Feed(Ones(32), MessageBits(x)), Feed(Ones(32), MessageBits(y));
      assert Not(Not(a)) == a && Not(Not(b)) == b;
      var m, n := MessageBits(x), MessageBits(y);
      var i := if from < |m| then from else |m|;
      var j := if i + 32 < |m| then i + 32 else |m|;
      assert m[..i] == n[..i] && m[j..] == n[j..];
      WindowOfBits(m, n, i, j);
      MessageBitsInjective(x, y);
    }
  }

  // ---- Stored words and the residue ----

  /** A word as its four little-endian bytes, the form the checksum file stores. */
  function WordBytes(w: Word): (u: seq<Byte>)
    ensures |u| == 4
  {
    [w[..8], w[8..16], w[16..24], w[24..]]
  }

  /** Four stored bytes read back as a word. */
  function BytesWord(u: seq<Byte>): Word
    requires |u| == 4
  {
    MessageBits(u)
  }

  lemma FourBytes(v: seq<Byte>)
    requires |v| == 4
    ensures BytesWord(v)[..8] == v[0] && BytesWord(v)[8..16] == v[1]
    ensures BytesWord(v)[16..24] == v[2] && BytesWord(v)[24..] == v[3]
  {
    MessageBitsNext(v, 0);
    MessageBitsNext(v, 1);
    MessageBitsNext(v, 2);
    MessageBitsNext(v, 3);
    assert v[..0] == [] && v[..4] == v;
  }

  lemma WordBytesInverse(w: Word)
    ensures BytesWord(WordBytes(w)) == w
  {
    FourBytes(WordBytes(w));
    var r := BytesWord(WordBytes(w));
    assert r == r[..8] + r[8..16] + r[16..24] + r[24..];
    assert w == w[..8] + w[8..16] + w[16..24] + w[24..];
  }

  lemma BytesWordInverse(u: seq<Byte>)
    requires |u| == 4
    ensures WordBytes(BytesWord(u)) == u
  {
    FourBytes(u);
  }

  lemma ResidueOf(data: seq<Byte>, n: nat)
    requires n == 32
    ensures Checksum(data + WordBytes(Checksum(data))) == Not(Feed(Ones(n), Zeros(n)))
  {
    var s := Feed(Ones(32), MessageBits(data));
    MessageBitsAppend(data, WordBytes(Not(s)));
    WordBytesInverse(Not(s));
    FeedAppend(Ones(32), MessageBits(data), Not(s));
    ComplementAbsorbed(s, Ones(n));
  }
}
