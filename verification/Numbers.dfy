/** Powers of two, division with remainder, positional numbers, and decimal printing. */
module Numbers {
  function Pow2(n: nat): (r: nat)
    ensures 1 <= r
  {
    if n == 0 then 1 else 2 * Pow2(n - 1)
  }

  lemma SmallPowers()
    ensures Pow2(0) == 1 && Pow2(1) == 2 && Pow2(2) == 4 && Pow2(3) == 8 && Pow2(4) == 16 && Pow2(5) == 32
    ensures Pow2(6) == 64 && Pow2(7) == 128 && Pow2(8) == 256
  {
    assert Pow2(4) == 16;
    assert Pow2(8) == 256;
  }

  lemma DivModUnique(a: int, d: int, q: int, r: int)
    requires 0 < d && 0 <= r < d && a == d * q + r
    ensures a / d == q && a % d == r
  {
    QuotientsAgree(d, q, r, a / d, a % d);
  }

  lemma QuotientsAgree(d: int, q: int, r: int, p: int, s: int)
    requires 0 < d && 0 <= r < d && 0 <= s < d && d * q + r == d * p + s
    ensures q == p && r == s
  {
    assert d * (q - p) == s - r;
    if q < p {
      AtLeastOnce(d, p - q);
    } else if p < q {
      AtLeastOnce(d, q - p);
    }
  }

  lemma AtLeastOnce(d: int, k: int)
    requires 0 < d && 1 <= k
    ensures d <= d * k
  {
    assert d * k == d + d * (k - 1);
    assert 0 <= d * (k - 1);
  }

  lemma DivIsNat(v: nat, p: nat)
    requires 0 < p
    ensures 0 <= v / p
  {
    assert v == p * (v / p) + v % p;
    if v / p < 0 {
      NegativeProduct(p, v / p);
    }
  }

  lemma NegativeProduct(p: int, q: int)
    requires 0 < p && q < 0
    ensures p * q <= -p
  {
    AtLeastOnce(p, -q);
    assert p * -q == -(p * q);
  }

  /** Doubling divisor and number: the last bit joins the remainder. */
  lemma ModDouble(a: nat, p: nat)
    requires 0 < p
    ensures a % (2 * p) == 2 * (a / 2 % p) + a % 2
  {
    var h := a / 2;
    var q, r := h / p, h % p;
    assert h == p * q + r;
    assert 2 * h == (2 * p) * q + 2 * r;
    DivModUnique(a, 2 * p, q, 2 * r + a % 2);
  }

  // ---------- Positional numbers ----------

  ghost predicate AllBelow(digits: seq<nat>, base: nat) {
    forall i | 0 <= i < |digits| :: digits[i] < base
  }

  /** The number written by digits, most significant first. */
  function Value(digits: seq<nat>, base: nat): nat {
    if digits == [] then 0 else Value(digits[..|digits| - 1], base) * base + digits[|digits| - 1]
  }

  lemma ValueOfAppended(digits: seq<nat>, d: nat, base: nat)
    ensures Value(digits + [d], base) == Value(digits, base) * base + d
  {
    assert (digits + [d])[..|digits|] == digits;
  }

  /** Digit sequences of one length write different numbers. */
  lemma {:induction false} ValueIsInjective(a: seq<nat>, b: seq<nat>, base: nat)
    requires |a| == |b| && AllBelow(a, base) && AllBelow(b, base) && 0 < base
    requires Value(a, base) == Value(b, base)
    ensures a == b
  {
    if a != [] {
      var n := |a| - 1;
      DivModUnique(Value(a, base), base, Value(a[..n], base), a[n]);
      DivModUnique(Value(a, base), base, Value(b[..n], base), b[n]);
      ValueIsInjective(a[..n], b[..n], base);
      assert a == a[..n] + [a[n]] && b == b[..n] + [b[n]];
    }
  }

  // ---------- Decimal printing ----------

  function DigitChar(d: nat): char
    requires d < 10
  {
    '0' + d as char
  }

  predicate IsDigit(c: char) {
    '0' <= c <= '9'
  }

  /** The decimal numeral of n, without leading zeros. */
  function Decimal(n: nat): (s: string)
    ensures s != "" && forall i | 0 <= i < |s| :: IsDigit(s[i])
  {
    if n < 10 then [DigitChar(n)] else Decimal(n / 10) + [DigitChar(n % 10)]
  }

  /** The number a digit string reads as. */
  function Parse(s: string): nat
    requires forall i | 0 <= i < |s| :: IsDigit(s[i])
  {
    if s == "" then 0 else
    assert IsDigit(s[|s| - 1]);
    Parse(s[..|s| - 1]) * 10 + (s[|s| - 1] as int - '0' as int)
  }

  lemma {:induction false} ParseOfDecimal(n: nat)
    ensures Parse(Decimal(n)) == n
  {
    if n < 10 {
      assert Decimal(n)[..0] == "";
    } else {
      ParseOfDecimal(n / 10);
      assert Decimal(n)[..|Decimal(n)| - 1] == Decimal(n / 10);
    }
  }

  lemma DecimalIsInjective(a: nat, b: nat)
    requires Decimal(a) == Decimal(b)
    ensures a == b
  {
    ParseOfDecimal(a);
    ParseOfDecimal(b);
  }

  function Zeros(n: nat): (s: string)
    ensures |s| == n && forall i | 0 <= i < n :: s[i] == '0'
  {
    if n == 0 then "" else "0" + Zeros(n - 1)
  }

  /** Left padding with zeros up to a width. */
  function PadStart(s: string, width: nat): (r: string)
    ensures |r| == if |s| < width then width else |s|
  {
    if |s| < width then Zeros(width - |s|) + s else s
  }

  lemma {:induction false} ParseOfPadded(zeros: nat, s: string)
    requires forall i | 0 <= i < |s| :: IsDigit(s[i])
    ensures forall i | 0 <= i < |Zeros(zeros) + s| :: IsDigit((Zeros(zeros) + s)[i])
    ensures Parse(Zeros(zeros) + s) == Parse(s)
    decreases |s|, zeros
  {
    var padded := Zeros(zeros) + s;
    if s != "" {
      ParseOfPadded(zeros, s[..|s| - 1]);
      assert padded[..|padded| - 1] == Zeros(zeros) + s[..|s| - 1];
    } else if zeros != 0 {
      ParseOfPadded(zeros - 1, "");
      assert padded == Zeros(zeros);
      assert padded[..zeros - 1] == Zeros(zeros - 1) + "";
    }
  }

  lemma {:induction false} DecimalLength(n: nat, width: nat, bound: nat)
    requires n < bound && bound == Pow10(width) && 0 < width
    ensures |Decimal(n)| <= width
  {
    if 10 <= n {
      DecimalLength(n / 10, width - 1, Pow10(width - 1));
    }
  }

  function Pow10(n: nat): nat {
    if n == 0 then 1 else 10 * Pow10(n - 1)
  }
}
