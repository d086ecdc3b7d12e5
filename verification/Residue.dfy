/** The number every block ends on when its own checksum is appended to it, computed
    round by round on hexadecimal digits. */
module Residue {
  import opened Gf2
  import opened Crc32

  /** The four bits of a digit, lowest first. */
  datatype Digit = Digit(a: bool, b: bool, c: bool, d: bool)

  datatype Number = Number(x7: Digit, x6: Digit, x5: Digit, x4: Digit, x3: Digit, x2: Digit, x1: Digit, x0: Digit)

  function Bits4(x: Digit): Bits {
    [x.a, x.b, x.c, x.d]
  }

  function Bits32(n: Number): Word {
    Bits4(n.x0)
      + (Bits4(n.x1) + (Bits4(n.x2) + (Bits4(n.x3) + (Bits4(n.x4) + (Bits4(n.x5) + (Bits4(n.x6) + Bits4(n.x7)))))))
  }

  /** A digit shifted right by one bit, `bit` coming in from the digit above. */
  function Half(x: Digit, bit: bool): Digit {
    Digit(x.b, x.c, x.d, bit)
  }

  function Sum(x: Digit, y: Digit): Digit {
    Digit(x.a != y.a, x.b != y.b, x.c != y.c, x.d != y.d)
  }

  function Halved(n: Number): Number {
    Number(Half(n.x7, false), Half(n.x6, n.x7.a), Half(n.x5, n.x6.a), Half(n.x4, n.x5.a),
           Half(n.x3, n.x4.a), Half(n.x2, n.x3.a), Half(n.x1, n.x2.a), Half(n.x0, n.x1.a))
  }

  function Plus(n: Number, m: Number): Number {
    Number(Sum(n.x7, m.x7), Sum(n.x6, m.x6), Sum(n.x5, m.x5), Sum(n.x4, m.x4),
           Sum(n.x3, m.x3), Sum(n.x2, m.x2), Sum(n.x1, m.x1), Sum(n.x0, m.x0))
  }

  function Round(n: Number): Number {
    if n.x0.a then Plus(Halved(n), POLYNOMIAL) else Halved(n)
  }

  // The digits as written in hexadecimal.
  const D0 := Digit(false, false, false, false)
  const D1 := Digit(true, false, false, false)
  const D2 := Digit(false, true, false, false)
  const D3 := Digit(true, true, false, false)
  const D4 := Digit(false, false, true, false)
  const D5 := Digit(true, false, true, false)
  const D6 := Digit(false, true, true, false)
  const D7 := Digit(true, true, true, false)
  const D8 := Digit(false, false, false, true)
  const D9 := Digit(true, false, false, true)
  const DA := Digit(false, true, false, true)
  const DB := Digit(true, true, false, true)
  const DC := Digit(false, false, true, true)
  const DD := Digit(true, false, true, true)
  const DE := Digit(false, true, true, true)
  const DF := Digit(true, true, true, true)

  // ---- A round on digits is a round on bits ----

  lemma ShiftConcat(x: Digit, s: Bits, t: Bits)
    requires |s| > 0 && t == s[1..] + [false]
    ensures (Bits4(x) + s)[1..] + [false] == Bits4(Half(x, s[0])) + t
  {
  }

  lemma HalvedBits(n: Number)
    ensures Bits32(Halved(n)) == Shift(Bits32(n))
  {
    var h := Halved(n);
    assert Bits4(h.x7) == Bits4(n.x7)[1..] + [false];
    var s7, t7 := Bits4(n.x7), Bits4(h.x7);
    ShiftConcat(n.x6, s7, t7);
    var s6, t6 := Bits4(n.x6) + s7, Bits4(h.x6) + t7;
    ShiftConcat(n.x5, s6, t6);
    var s5, t5 := Bits4(n.x5) + s6, Bits4(h.x5) + t6;
    ShiftConcat(n.x4, s5, t5);
    var s4, t4 := Bits4(n.x4) + s5, Bits4(h.x4) + t5;
    ShiftConcat(n.x3, s4, t4);
    var s3, t3 := Bits4(n.x3) + s4, Bits4(h.x3) + t4;
    ShiftConcat(n.x2, s3, t3);
    var s2, t2 := Bits4(n.x2) + s3, Bits4(h.x2) + t3;
    ShiftConcat(n.x1, s2, t2);
    var s1, t1 := Bits4(n.x1) + s2, Bits4(h.x1) + t2;
    ShiftConcat(n.x0, s1, t1);
  }

  lemma SumBits(x: Digit, y: Digit)
    ensures Xor(Bits4(x), Bits4(y)) == Bits4(Sum(x, y))
  {
  }

  lemma SumConcat(x: Digit, y: Digit, s: Bits, t: Bits, u: Bits)
    requires |s| == |t| && Xor(s, t) == u
    ensures Xor(Bits4(x) + s, Bits4(y) + t) == Bits4(Sum(x, y)) + u
  {
    SumBits(x, y);
    XorConcat(Bits4(x), Bits4(y), s, t);
  }

  lemma PlusBits(n: Number, m: Number)
    ensures Bits32(Plus(n, m)) == Xor(Bits32(n), Bits32(m))
  {
    var p := Plus(n, m);
    var s7, t7, u7 := Bits4(n.x7), Bits4(m.x7), Bits4(p.x7);
    assert Xor(s7, t7) == u7;
    SumConcat(n.x6, m.x6, s7, t7, u7);
    var s6, t6, u6 := Bits4(n.x6) + s7, Bits4(m.x6) + t7, Bits4(p.x6) + u7;
    SumConcat(n.x5, m.x5, s6, t6, u6);
    var s5, t5, u5 := Bits4(n.x5) + s6, Bits4(m.x5) + t6, Bits4(p.x5) + u6;
    SumConcat(n.x4, m.x4, s5, t5, u5);
    var s4, t4, u4 := Bits4(n.x4) + s5, Bits4(m.x4) + t5, Bits4(p.x4) + u5;
    SumConcat(n.x3, m.x3, s4, t4, u4);
    var s3, t3, u3 := Bits4(n.x3) + s4, Bits4(m.x3) + t4, Bits4(p.x3) + u4;
    SumConcat(n.x2, m.x2, s3, t3, u3);
    var s2, t2, u2 := Bits4(n.x2) + s3, Bits4(m.x2) + t3, Bits4(p.x2) + u3;
    SumConcat(n.x1, m.x1, s2, t2, u2);
    var s1, t1, u1 := Bits4(n.x1) + s2, Bits4(m.x1) + t2, Bits4(p.x1) + u2;
    SumConcat(n.x0, m.x0, s1, t1, u1);
  }

  const POLYNOMIAL := Number(DE, DD, DB, D8, D8, D3, D2, D0)

  lemma PolynomialBits()
    ensures Bits32(POLYNOMIAL) == GENERATOR
  {
  }

  lemma RoundBits(n: Number)
    ensures Bits32(Round(n)) == Step(Bits32(n))
  {
    HalvedBits(n);
    PolynomialBits();
    PlusBits(Halved(n), POLYNOMIAL);
  }

  function Rounds(n: Number, k: nat): Number
    decreases k
  {
    if k == 0 then n else Round(Rounds(n, k - 1))
  }

  lemma {:induction false} RoundsBits(n: Number, k: nat)
    ensures Bits32(Rounds(n, k)) == Feed(Bits32(n), Zeros(k))
    decreases k
  {
    if k > 0 {
      RoundsBits(n, k - 1);
      RoundBits(Rounds(n, k - 1));
      StepOnZero(Bits32(n), k - 1);
    }
  }

  lemma FourMore(n: Number, k: nat, a: Number, b: Number, c: Number, d: Number, e: Number)
    requires Rounds(n, k) == a && Round(a) == b && Round(b) == c && Round(c) == d && Round(d) == e
    ensures Rounds(n, k + 4) == e
  {
    assert Rounds(n, k + 1) == b && Rounds(n, k + 2) == c && Rounds(n, k + 3) == d;
  }

  lemma AllRounds(n: Number, k: nat)
    requires n == Number(DF, DF, DF, DF, DF, DF, DF, DF) && k == 0
    ensures Rounds(n, k + 32) == Number(DD, DE, DB, DB, D2, D0, DE, D3)
  {
    FourMore(n, k, Number(DF, DF, DF, DF, DF, DF, DF, DF), Number(D9, D2, D4, D7, D7, DC, DD, DF),
      Number(DA, D4, D9, DB, D3, DD, D4, DF), Number(DB, DF, DF, D5, D1, DD, D8, D7),
        Number(DB, D2, D4, D2, D0, DD, DE, D3));
    FourMore(n, k + 4, Number(DB, D2, D4, D2, D0, DD, DE, D3), Number(DB, D4, D9, D9, D8, D5, DD, D1),
      Number(DB, D7, DF, D4, D4, D1, DC, D8), Number(D5, DB, DF, DA, D2, D0, DE, D4),
        Number(D2, DD, DF, DD, D1, D0, D7, D2));
    FourMore(n, k + 8, Number(D2, DD, DF, DD, D1, D0, D7, D2), Number(D1, D6, DF, DE, D8, D8, D3, D9),
      Number(DE, D6, DC, D7, DC, D7, D3, DC), Number(D7, D3, D6, D3, DE, D3, D9, DE),
        Number(D3, D9, DB, D1, DF, D1, DC, DF));
    FourMore(n, k + 12, Number(D3, D9, DB, D1, DF, D1, DC, DF), Number(DF, D1, D6, D0, D7, DB, DC, D7),
      Number(D9, D5, D0, D8, DB, DE, DC, D3), Number(DA, D7, D3, DC, DD, DC, D4, D1),
        Number(DB, DE, D2, D6, DE, DD, D0, D0));
    FourMore(n, k + 16, Number(DB, DE, D2, D6, DE, DD, D0, D0), Number(D5, DF, D1, D3, D7, D6, D8, D0),
      Number(D2, DF, D8, D9, DB, DB, D4, D0), Number(D1, D7, DC, D4, DD, DD, DA, D0),
        Number(D0, DB, DE, D2, D6, DE, DD, D0));
    FourMore(n, k + 20, Number(D0, DB, DE, D2, D6, DE, DD, D0), Number(D0, D5, DF, D1, D3, D7, D6, D8),
      Number(D0, D2, DF, D8, D9, DB, DB, D4), Number(D0, D1, D7, DC, D4, DD, DD, DA),
        Number(D0, D0, DB, DE, D2, D6, DE, DD));
    FourMore(n, k + 24, Number(D0, D0, DB, DE, D2, D6, DE, DD), Number(DE, DD, DE, D7, D9, D0, D5, D6),
      Number(D7, D6, DF, D3, DC, D8, D2, DB), Number(DD, D6, DC, D1, D6, D7, D3, D5),
        Number(D8, D6, DD, D8, D3, D0, DB, DA));
    FourMore(n, k + 28, Number(D8, D6, DD, D8, D3, D0, DB, DA), Number(D4, D3, D6, DC, D1, D8, D5, DD),
      Number(DC, DC, D0, DE, D8, DF, D0, DE), Number(D6, D6, D0, D7, D4, D7, D8, D7),
        Number(DD, DE, DB, DB, D2, D0, DE, D3));
  }

  lemma AllOnes(n: Number)
    requires n == Number(DF, DF, DF, DF, DF, DF, DF, DF)
    ensures Bits32(n) == Ones(32)
  {
  }

  lemma NotHex(n: Number)
    requires n == Number(DD, DE, DB, DB, D2, D0, DE, D3)
    ensures Not(Bits32(n)) == Hex(0x2, 0x1, 0x4, 0x4, 0xD, 0xF, 0x1, 0xC)
  {
  }

  lemma ResidueBits(data: seq<Byte>, n: Number, k: nat)
    requires Bits32(n) == Ones(32) && k == 32
    ensures Checksum(data + WordBytes(Checksum(data))) == Not(Bits32(Rounds(n, k)))
  {
    ResidueOf(data, k);
    RoundsBits(n, k);
  }

  /** Data followed by its own stored checksum always sums to 0x2144DF1C. */
  lemma ResidueValue(data: seq<Byte>)
    ensures Checksum(data + WordBytes(Checksum(data))) == Hex(0x2, 0x1, 0x4, 0x4, 0xD, 0xF, 0x1, 0xC)
  {
    var n, k: nat := Number(DF, DF, DF, DF, DF, DF, DF, DF), 0;
    AllOnes(n);
    AllRounds(n, k);
    ResidueBits(data, n, k + 32);
    NotHex(Rounds(n, k + 32));
  }
}
