/** Numbers as decimal text, and keys made of two numbers. */
module Text {

  function Digit(d: int): char
    requires 0 <= d < 10
  {
    "0123456789"[d]
  }

  function Digits(n: nat): (s: string)
    ensures s != []
    ensures '_' !in s && '-' !in s
    decreases n
  {
    if n < 10 then [Digit(n)] else Digits(n / 10) + [Digit(n % 10)]
  }

  /** Decimal digits, as Python's str and C++'s std::to_string write them. */
  function Decimal(n: int): (s: string)
    ensures '_' !in s
  {
    if n < 0 then "-" + Digits(-n) else Digits(n)
  }

  /** The last digit of a number and the digits before it. */
  lemma LastDigit(n: nat)
    ensures var s := Digits(n);
      s[|s| - 1] == Digit(n % 10) && s[..|s| - 1] == if n < 10 then [] else Digits(n / 10)
  {
  }

  lemma DigitInjective(a: int, b: int)
    requires 0 <= a < 10 && 0 <= b < 10 && Digit(a) == Digit(b)
    ensures a == b
  {
  }

  lemma {:induction false} DigitsInjective(a: nat, b: nat)
    requires Digits(a) == Digits(b)
    ensures a == b
    decreases a
  {
    LastDigit(a);
    LastDigit(b);
    DigitInjective(a % 10, b % 10);
    if a >= 10 && b >= 10 { DigitsInjective(a / 10, b / 10); }
  }

  lemma DecimalInjective(a: int, b: int)
    requires Decimal(a) == Decimal(b)
    ensures a == b
  {
    var s, t := Decimal(a), Decimal(b);
    assert s[0] == t[0];
    if a < 0 {
      assert s[1..] == Digits(-a) && t[1..] == Digits(-b);
      DigitsInjective(-a, -b);
    } else {
      DigitsInjective(a, b);
    }
  }

  predicate IsDigit(c: char) {
    '0' <= c <= '9'
  }

  /** The number a row of decimal digits stands for. */
  function Value(s: string): int
    requires forall i :: 0 <= i < |s| ==> IsDigit(s[i])
    decreases |s|
  {
    if s == "" then 0 else 10 * Value(s[..|s| - 1]) + (s[|s| - 1] as int - '0' as int)
  }

  /** The digits of a number stand for it, and only zero begins with a zero. */
  lemma {:induction false} DigitsMean(n: nat)
    ensures var s := Digits(n);
      && (forall i :: 0 <= i < |s| ==> IsDigit(s[i]))
      && Value(s) == n && (s[0] == '0' ==> n == 0)
    decreases n
  {
    LastDigit(n);
    if n >= 10 {
      DigitsMean(n / 10);
      assert Digits(n)[0] == Digits(n / 10)[0];
    } else {
      assert Digits(n)[..0] == "";
    }
  }

  /** The write buffer's key for a chunk and a serial number. */
  function BufferKey(handle: int, serial: int): string {
    Decimal(handle) + "_" + Decimal(serial)
  }

  lemma FirstSeparator(s: string, t: string, u: string, v: string)
    requires '_' !in s && '_' !in u
    requires s + "_" + t == u + "_" + v
    ensures s == u && t == v
  {
    var x := s + "_" + t;
    assert x == u + "_" + v;
    assert x[|s|] == '_' && x[|u|] == '_';
    assert forall i :: 0 <= i < |s| ==> x[i] == s[i] && s[i] in s;
    assert forall i :: 0 <= i < |u| ==> x[i] == u[i] && u[i] in u;
    assert s == x[..|s|] && u == x[..|u|];
    assert t == x[|s| + 1..] && v == x[|u| + 1..];
  }

  lemma LastSeparator(s: string, t: string, u: string, v: string)
    requires '_' !in t && '_' !in v
    requires s + "_" + t == u + "_" + v
    ensures s == u && t == v
  {
    var x := s + "_" + t;
    assert x == u + "_" + v;
    assert x[|s|] == '_' && x[|u|] == '_';
    assert forall i :: |s| < i < |x| ==> x[i] == t[i - |s| - 1] && x[i] in t;
    assert forall i :: |u| < i < |x| ==> x[i] == v[i - |u| - 1] && x[i] in v;
    assert s == x[..|s|] && u == x[..|u|];
    assert t == x[|s| + 1..] && v == x[|u| + 1..];
  }

  /** Two writes share a buffer entry only if they share chunk and serial number. */
  lemma BufferKeyInjective(h: int, s: int, h': int, s': int)
    requires BufferKey(h, s) == BufferKey(h', s')
    ensures h == h' && s == s'
  {
    FirstSeparator(Decimal(h), Decimal(s), Decimal(h'), Decimal(s'));
    DecimalInjective(h, h');
    DecimalInjective(s, s');
  }
}
