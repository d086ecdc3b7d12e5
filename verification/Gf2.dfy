/** Polynomials over GF(2) as bit sequences, highest power first: schoolbook long
    division by the CRC-32 generator, and the shift register that computes its
    remainder one bit at a time. */
module Gf2 {

  type Bits = seq<bool>

  function Xor(a: Bits, b: Bits): (r: Bits)
    requires |a| == |b|
    ensures |r| == |a|
  {
    seq(|a|, i requires 0 <= i < |a| => a[i] != b[i])
  }

  function Not(a: Bits): (r: Bits)
    ensures |r| == |a|
  {
    seq(|a|, i requires 0 <= i < |a| => !a[i])
  }

  function Zeros(n: nat): (r: Bits)
    ensures |r| == n
  {
    seq(n, _ => false)
  }

  function Ones(n: nat): (r: Bits)
    ensures |r| == n
  {
    seq(n, _ => true)
  }

  /** The generator without its leading term x^32: 0x04C11DB7, that is, x^26 + x^23 +
      x^22 + x^16 + x^12 + x^11 + x^10 + x^8 + x^7 + x^5 + x^4 + x^2 + x + 1. */
  const GENERATOR: Bits :=
    [false, false, false, false, false, true,  false, false,
     true,  true,  false, false, false, false, false, true,
     false, false, false, true,  true,  true,  false, true,
     true,  false, true,  true,  false, true,  true,  true]

  /** The dividend `d` with `r` added to its 32 leading coefficients. */
  function AddToFront(d: Bits, r: Bits): (s: Bits)
    requires |r| == 32 <= |d|
    ensures |s| == |d|
  {
    Xor(d, r + Zeros(|d| - 32))
  }

  // ---- Schoolbook long division ----

  /** The remainder of `d` by x^32 + GENERATOR. */
  function Remainder(d: Bits): (r: Bits)
    requires |d| >= 32
    ensures |r| == 32
    decreases |d|
  {
    if |d| == 32 then d
    else if d[0] then Remainder(AddToFront(d[1..], GENERATOR))
    else Remainder(d[1..])
  }

  function Quotient(d: Bits): (q: Bits)
    requires |d| >= 32
    ensures |q| == |d| - 32
    decreases |d|
  {
    if |d| == 32 then []
    else if d[0] then [true] + Quotient(AddToFront(d[1..], GENERATOR))
    else [false] + Quotient(d[1..])
  }

  /** The product of `q` and x^32 + GENERATOR. */
  function Product(q: Bits): (p: Bits)
    ensures |p| == |q| + 32
    decreases |q|
  {
    if q == [] then Zeros(32)
    else if q[0] then [true] + AddToFront(Product(q[1..]), GENERATOR)
    else [false] + Product(q[1..])
  }

  /** `r` is the remainder of `d`: some multiple of the divisor plus `r` is `d`. */
  ghost predicate IsDivision(d: Bits, q: Bits, r: Bits)
  {
    |r| == 32 && |d| == |q| + 32 && d == Xor(Product(q), Zeros(|q|) + r)
  }

  lemma AddingFrontTwice(a: Bits, b: Bits, g: Bits)
    requires |g| == 32 <= |a| == |b|
    requires AddToFront(a, g) == b
    ensures AddToFront(b, g) == a
  {
    assert AddToFront(AddToFront(a, g), g) == a;
  }

  lemma AddToFrontOfSum(a: Bits, b: Bits, g: Bits)
    requires |g| == 32 <= |a| == |b|
    ensures AddToFront(Xor(a, b), g) == Xor(AddToFront(a, g), b)
  {
  }

  lemma XorCons(x: bool, a: Bits, y: bool, b: Bits)
    requires |a| == |b|
    ensures Xor([x] + a, [y] + b) == [x != y] + Xor(a, b)
  {
  }

  lemma ZerosCons(n: nat, r: Bits)
    ensures Zeros(n + 1) + r == [false] + (Zeros(n) + r)
  {
  }

  lemma {:induction false} DivisionHolds(d: Bits)
    requires |d| >= 32
    ensures IsDivision(d, Quotient(d), Remainder(d))
    decreases |d|
  {
    if |d| > 32 {
      var q, r, rest := Quotient(d), Remainder(d), d[1..];
      var next := if d[0] then AddToFront(rest, GENERATOR) else rest;
      DivisionHolds(next);
      var p, low := Product(q[1..]), Zeros(|q| - 1) + r;
      assert q[1..] == Quotient(next);
      ZerosCons(|q| - 1, r);
      if d[0] {
        AddingFrontTwice(rest, next, GENERATOR);
        AddToFrontOfSum(p, low, GENERATOR);
        XorCons(true, AddToFront(p, GENERATOR), false, low);
      } else {
        XorCons(false, p, false, low);
      }
      assert d == [d[0]] + rest;
    } else {
      assert d == Xor(Product([]), Zeros(0) + d);
    }
  }

  lemma {:induction false} DivisionUnique(d: Bits, q: Bits, r: Bits)
    requires |d| >= 32
    requires IsDivision(d, q, r)
    ensures q == Quotient(d) && r == Remainder(d)
    decreases |d|
  {
    if |d| > 32 {
      assert d[0] == q[0];
      assert Zeros(|q|) + r == [false] + (Zeros(|q| - 1) + r);
      var next := if d[0] then AddToFront(d[1..], GENERATOR) else d[1..];
      assert next == Xor(Product(q[1..]), Zeros(|q| - 1) + r);
      DivisionUnique(next, q[1..], r);
      assert q == [q[0]] + q[1..];
    } else {
      assert Xor(Product([]), Zeros(0) + r) == r;
    }
  }

  // ---- The shift register ----

  function Shift(r: Bits): (s: Bits)
    requires |r| == 32
    ensures |s| == 32
  {
    r[1..] + [false]
  }

  function Step(r: Bits): (s: Bits)
    requires |r| == 32
    ensures |s| == 32
  {
    if r[0] then Xor(Shift(r), GENERATOR) else Shift(r)
  }

  /** The register after the message bits `m`, starting from `r`. */
  function Feed(r: Bits, m: Bits): (s: Bits)
    requires |r| == 32
    ensures |s| == 32
    decreases |m|
  {
    if m == [] then r else Feed(Step(r[0 := r[0] != m[0]]), m[1..])
  }

  lemma {:induction false} FeedAppend(r: Bits, m: Bits, n: Bits)
    requires |r| == 32
    ensures Feed(r, m + n) == Feed(Feed(r, m), n)
    decreases |m|
  {
    if m == [] {
      assert m + n == n;
    } else {
      assert (m + n)[1..] == m[1..] + n;
      FeedAppend(Step(r[0 := r[0] != m[0]]), m[1..], n);
    }
  }

  lemma FrontOfDividend(m: Bits, r: Bits)
    requires |r| == 32 && m != []
    ensures var d, r1 := AddToFront(m + Zeros(32), r), r[0 := r[0] != m[0]];
      d[0] == r1[0] && d[1..] == AddToFront(m[1..] + Zeros(32), Shift(r1))
  {
  }

  lemma AddTwoToFront(d: Bits, a: Bits, b: Bits)
    requires |a| == |b| == 32 <= |d|
    ensures AddToFront(AddToFront(d, a), b) == AddToFront(d, Xor(a, b))
  {
  }

  /** Feeding `m` leaves the remainder of m * x^32 with the start value added in front. */
  lemma {:induction false} FeedIsRemainder(r: Bits, m: Bits)
    requires |r| == 32
    ensures Feed(r, m) == Remainder(AddToFront(m + Zeros(32), r))
    decreases |m|
  {
    if m == [] {
      assert m + Zeros(32) == Zeros(32);
      assert AddToFront(Zeros(32), r) == r;
    } else {
      var r1 := r[0 := r[0] != m[0]];
      FrontOfDividend(m, r);
      AddTwoToFront(m[1..] + Zeros(32), Shift(r1), GENERATOR);
      FeedIsRemainder(Step(r1), m[1..]);
    }
  }

  // ---- Linearity ----

  lemma StepLinear(a: Bits, b: Bits)
    requires |a| == |b| == 32
    ensures Step(Xor(a, b)) == Xor(Step(a), Step(b))
  {
    assert Shift(Xor(a, b)) == Xor(Shift(a), Shift(b));
    assert forall i :: 0 <= i < 32 ==> Step(Xor(a, b))[i] == Xor(Step(a), Step(b))[i];
  }

  lemma {:induction false} FeedLinear(a: Bits, b: Bits, m: Bits, n: Bits)
    requires |a| == |b| == 32 && |m| == |n|
    ensures Feed(Xor(a, b), Xor(m, n)) == Xor(Feed(a, m), Feed(b, n))
    decreases |m|
  {
    if m != [] {
      var a1, b1 := a[0 := a[0] != m[0]], b[0 := b[0] != n[0]];
      assert Xor(a, b)[0 := Xor(a, b)[0] != Xor(m, n)[0]] == Xor(a1, b1);
      assert Xor(m, n)[1..] == Xor(m[1..], n[1..]);
      StepLinear(a1, b1);
      FeedLinear(Step(a1), Step(b1), m[1..], n[1..]);
    }
  }

  // ---- Injectivity and absorption ----

  lemma StepInjective(a: Bits, b: Bits)
    requires |a| == |b| == 32
    requires Step(a) == Step(b)
    ensures a == b
  {
    assert Step(a)[31] == a[0] && Step(b)[31] == b[0];
    assert Shift(a) == Shift(b) by {
      forall i | 0 <= i < 32 ensures Shift(a)[i] == Shift(b)[i] {
        assert Step(a)[i] == Step(b)[i];
      }
    }
    forall i | 1 <= i < 32 ensures a[i] == b[i] {
      assert Shift(a)[i - 1] == Shift(b)[i - 1];
    }
  }

  lemma {:induction false} FeedInjective(a: Bits, b: Bits, m: Bits)
    requires |a| == |b| == 32
    requires Feed(a, m) == Feed(b, m)
    ensures a == b
    decreases |m|
  {
    if m != [] {
      var a1, b1 := a[0 := a[0] != m[0]], b[0 := b[0] != m[0]];
      FeedInjective(Step(a1), Step(b1), m[1..]);
      StepInjective(a1, b1);
      forall i | 0 <= i < 32 ensures a[i] == b[i] {
        assert a1[i] == b1[i];
      }
    }
  }

  lemma AbsorbOne(r: Bits, pad: Bits)
    requires |r| == |pad| == 32
    ensures Step(Xor(r, pad)) == Xor(Step(r[0 := r[0] != pad[0]]), Shift(pad))
  {
    var r1, tail := r[0 := r[0] != pad[0]], pad[0 := false];
    assert Xor(r, pad) == Xor(r1, tail);
    StepLinear(r1, tail);
    assert Step(tail) == Shift(pad);
  }

  /** The message bits and the zeros that fill the register. */
  function Padded(m: Bits): (p: Bits)
    requires |m| <= 32
    ensures |p| == 32
  {
    m + Zeros(32 - |m|)
  }

  lemma {:induction false} ShiftPadded(m: Bits)
    requires 0 < |m| <= 32
    ensures Shift(Padded(m)) == Padded(m[1..]) && Padded(m)[0] == m[0]
  {
  }

  lemma {:induction false} FeedZero(x: Bits, n: nat)
    requires |x| == 32 && n > 0
    ensures Feed(x, Zeros(n)) == Feed(Step(x), Zeros(n - 1))
  {
    assert x[0 := x[0] != false] == x;
    assert Zeros(n)[1..] == Zeros(n - 1);
  }

  /** At most 32 message bits may be added to the register first and then shifted out. */
  lemma {:induction false} FeedAbsorbs(r: Bits, m: Bits)
    requires |r| == 32 && |m| <= 32
    ensures Feed(r, m) == Feed(Xor(r, Padded(m)), Zeros(|m|))
    decreases |m|
  {
    if m == [] {
      assert Xor(r, Padded(m)) == r;
    } else {
      AbsorbOne(r, Padded(m));
      ShiftPadded(m);
      FeedAbsorbs(Step(r[0 := r[0] != m[0]]), m[1..]);
      FeedZero(Xor(r, Padded(m)), |m|);
    }
  }

  /** A burst: two different fillings of a window of at most 32 bits leave different
      registers, whatever follows. */
  lemma {:induction false} BurstSeen(r: Bits, u: Bits, v: Bits, after: Bits)
    requires |r| == 32 && |u| == |v| <= 32
    requires Feed(r, u + after) == Feed(r, v + after)
    ensures u == v
  {
    FeedAppend(r, u, after);
    FeedAppend(r, v, after);
    FeedInjective(Feed(r, u), Feed(r, v), after);
    FeedAbsorbs(r, u);
    FeedAbsorbs(r, v);
    var up, vp := Padded(u), Padded(v);
    FeedInjective(Xor(r, up), Xor(r, vp), Zeros(|u|));
    forall i | 0 <= i < |u| ensures u[i] == v[i] {
      assert Xor(r, up)[i] == Xor(r, vp)[i];
      assert up[i] == u[i] && vp[i] == v[i];
    }
  }

  lemma {:induction false} AbsorbWord(r: Bits, m: Bits, none: Bits)
    requires |r| == |m| == 32 && none == []
    ensures Feed(r, m) == Feed(Xor(r, m), Zeros(|m|))
  {
    FeedAbsorbs(r, m);
    assert Zeros(32 - |m|) == none && Padded(m) == m;
  }

  lemma XorComplement(r: Bits)
    ensures Xor(r, Not(r)) == Ones(|r|)
  {
  }

  /** Feeding a register its own complement always leaves the same register. */
  lemma {:induction false} ComplementAbsorbed(r: Bits, ones: Bits)
    requires |r| == 32 && ones == Ones(|r|)
    ensures Feed(r, Not(r)) == Feed(ones, Zeros(|r|))
  {
    XorComplement(r);
    AbsorbWord(r, Not(r), []);
  }
}
