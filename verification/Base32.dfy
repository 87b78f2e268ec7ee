/** The base32 codec of TOTP secrets, with the 32-bit accumulator that is never masked. */
module Base32 {
  import opened Wrappers
  import opened Numbers

  // ---------- 32-bit integer operators, on the unsigned reading of the word ----------

  const WORD: nat := 0x1_0000_0000

  /** v << n: the word is cut to 32 bits. */
  function Shl(v: nat, n: nat): nat {
    (v * Pow2(n)) % WORD
  }

  /** v >>> n. */
  function Ushr(v: nat, n: nat): nat {
    DivIsNat(v, Pow2(n));
    v / Pow2(n)
  }

  function BitOr(a: nat, b: nat): nat
    decreases a + b
  {
    if a == 0 && b == 0 then 0
    else 2 * BitOr(a / 2, b / 2) + (if a % 2 == 1 || b % 2 == 1 then 1 else 0)
  }

  function BitAnd(a: nat, b: nat): nat {
    if a == 0 || b == 0 then 0
    else 2 * BitAnd(a / 2, b / 2) + (if a % 2 == 1 && b % 2 == 1 then 1 else 0)
  }

  /** Or-ing bits below the lowest set bit is adding them. */
  lemma {:induction false} OrAdds(q: nat, k: nat, b: nat)
    requires b < Pow2(k)
    ensures BitOr(q * Pow2(k), b) == q * Pow2(k) + b
    decreases k
  {
    if k == 0 {
      OrWithZero(q);
    } else {
      var half := q * Pow2(k - 1);
      assert q * Pow2(k) == 2 * half;
      OrAdds(q, k - 1, b / 2);
      if half == 0 && b == 0 {
      } else {
        assert (2 * half) / 2 == half && (2 * half) % 2 == 0;
      }
    }
  }

  lemma {:induction false} OrWithZero(a: nat)
    ensures BitOr(a, 0) == a
  {
    if a != 0 {
      OrWithZero(a / 2);
    }
  }

  /** And-ing with k one-bits keeps the remainder modulo Pow2(k). */
  lemma {:induction false} AndMasks(a: nat, k: nat)
    ensures BitAnd(a, Pow2(k) - 1) == a % Pow2(k)
    decreases k
  {
    if k == 0 {
      assert a % 1 == 0;
    } else {
      hide BitAnd;
      var p := Pow2(k - 1);
      AndMasks(a / 2, k - 1);
      AndStep(a, p - 1);
      ModDouble(a, p);
      assert Pow2(k) == 2 * p;
    }
  }

  lemma AndStep(a: nat, mask: nat)
    ensures BitAnd(a, 2 * mask + 1) == 2 * BitAnd(a / 2, mask) + a % 2
  {
    assert (2 * mask + 1) / 2 == mask && (2 * mask + 1) % 2 == 1;
  }

  // ---------- Alphabet ----------

  type Byte = b: nat | b < 256

  /** A to Z, then 2 to 7. */
  function Symbol(d: nat): char
    requires d < 32
  {
    if d < 26 then 'A' + d as char else '2' + (d - 26) as char
  }

  const ALPHABET := "ABCDEFGHIJKLMNOPQRSTUVWXYZ234567"

  /** The symbols are those of section 6 of RFC 4648, in its order. */
  lemma SymbolsAreStandard(d: nat)
    requires d < 32
    ensures |ALPHABET| == 32 && Symbol(d) == ALPHABET[d]
  {
    assert ALPHABET == LETTERS + FIGURES;
    assert |LETTERS| == 26 && |FIGURES| == 6;
  }

  const LETTERS := "ABCDEFGHIJKLMNOPQRSTUVWXYZ"
  const FIGURES := "234567"

  predicate InAlphabet(c: char) {
    'A' <= c <= 'Z' || '2' <= c <= '7'
  }

  function IndexOf(c: char): (d: nat)
    requires InAlphabet(c)
    ensures d < 32 && Symbol(d) == c
  {
    if 'A' <= c <= 'Z' then c as int - 'A' as int else c as int - '2' as int + 26
  }

  predicate AllInAlphabet(s: string) {
    forall i | 0 <= i < |s| :: InAlphabet(s[i])
  }

  function Spell(digits: seq<nat>): (s: string)
    requires AllBelow(digits, 32)
    ensures |s| == |digits| && forall i | 0 <= i < |s| :: InAlphabet(s[i]) && IndexOf(s[i]) == digits[i]
  {
    if digits == [] then "" else
    assert digits[|digits| - 1] < 32;
    Spell(digits[..|digits| - 1]) + [Symbol(digits[|digits| - 1])]
  }

  function Digits(s: string): (digits: seq<nat>)
    requires AllInAlphabet(s)
    ensures |digits| == |s| && AllBelow(digits, 32) && forall i | 0 <= i < |s| :: digits[i] == IndexOf(s[i])
  {
    if s == "" then [] else Digits(s[..|s| - 1]) + [IndexOf(s[|s| - 1])]
  }

  // ---------- The encoding of section 6 of RFC 4648, without padding ----------

  /** Zero bits appended to reach a whole number of 5-bit groups. */
  function PadBits(bytes: nat): nat {
    (5 - (8 * bytes) % 5) % 5
  }

  /** The digits are the base-32 numeral, of fixed length, of the bytes followed by the zero bits. */
  ghost predicate IsEncoding(bytes: seq<Byte>, digits: seq<nat>) {
    && AllBelow(digits, 32)
    && 5 * |digits| == 8 * |bytes| + PadBits(|bytes|)
    && Value(digits, 32) == Value(bytes, 256) * Pow2(PadBits(|bytes|))
  }

  const FOOBAR: seq<Byte> := [0x66, 0x6f, 0x6f, 0x62, 0x61, 0x72]

  const FOOBAR_DIGITS: seq<nat> := [12, 25, 23, 22, 30, 24, 19, 1, 14, 8]

  lemma ValueOfPrefix(x: seq<nat>, n: nat, base: nat, v: nat)
    requires n < |x| && Value(x[..n], base) == v
    ensures Value(x[..n + 1], base) == v * base + x[n]
  {
    assert x[..n + 1][..n] == x[..n];
  }

  lemma ValueOfFoobar()
    ensures Value(FOOBAR, 256) == 0x666f_6f62_6172
  {
    var x: seq<nat> := FOOBAR;
    assert x[..0] == [] && Value(x[..0], 256) == 0;
    ValueOfPrefix(x, 0, 256, 0);
    ValueOfPrefix(x, 1, 256, 102);
    ValueOfPrefix(x, 2, 256, 26223);
    ValueOfPrefix(x, 3, 256, 6713199);
    ValueOfPrefix(x, 4, 256, 1718579042);
    ValueOfPrefix(x, 5, 256, 439956234849);
    assert x[..6] == x;
  }

  lemma ValueOfDigits()
    ensures Value(FOOBAR_DIGITS, 32) == 4 * 0x666f_6f62_6172
  {
    var x: seq<nat> := FOOBAR_DIGITS;
    assert x[..0] == [] && Value(x[..0], 32) == 0;
    ValueOfPrefix(x, 0, 32, 0);
    ValueOfPrefix(x, 1, 32, 12);
    ValueOfPrefix(x, 2, 32, 409);
    ValueOfPrefix(x, 3, 32, 13111);
    ValueOfPrefix(x, 4, 32, 419574);
    ValueOfPrefix(x, 5, 32, 13426398);
    ValueOfPrefix(x, 6, 32, 429644760);
    ValueOfPrefix(x, 7, 32, 13748632339);
    ValueOfPrefix(x, 8, 32, 439956234849);
    ValueOfPrefix(x, 9, 32, 14078599515182);
    assert x[..10] == x;
  }

  lemma SpellingOfDigits()
    ensures AllBelow(FOOBAR_DIGITS, 32)
    ensures Spell(FOOBAR_DIGITS) == "MZXW6YTBOI"
  {
    var spelled := Spell(FOOBAR_DIGITS);
    forall i | 0 <= i < 10 ensures spelled[i] == "MZXW6YTBOI"[i] {
      assert IndexOf(spelled[i]) == FOOBAR_DIGITS[i];
      assert Symbol(IndexOf(spelled[i])) == spelled[i];
    }
  }

  /** The test vector of section 10 of RFC 4648: "foobar" is written MZXW6YTBOI, without the padding. */
  lemma ExampleOfTheStandard()
    ensures IsEncoding(FOOBAR, FOOBAR_DIGITS) && Spell(FOOBAR_DIGITS) == "MZXW6YTBOI"
  {
    hide Value, Spell;
    ValueOfFoobar();
    ValueOfDigits();
    SpellingOfDigits();
    assert Pow2(2) == 4;
  }

  /** The bytes are the whole bytes written by the digits; up to seven left-over bits are dropped. */
  ghost predicate IsDecoding(digits: seq<nat>, bytes: seq<Byte>) {
    && |bytes| == 5 * |digits| / 8
    && Value(bytes, 256) == Value(digits, 32) / Pow2(5 * |digits| % 8)
  }

  lemma EncodingIsUnique(bytes: seq<Byte>, a: seq<nat>, b: seq<nat>)
    requires IsEncoding(bytes, a) && IsEncoding(bytes, b)
    ensures a == b
  {
    ValueIsInjective(a, b, 32);
  }

  lemma DecodingIsUnique(digits: seq<nat>, a: seq<Byte>, b: seq<Byte>)
    requires IsDecoding(digits, a) && IsDecoding(digits, b)
    ensures a == b
  {
    BytesAreBelow(a);
    BytesAreBelow(b);
    ValueIsInjective(a, b, 256);
  }

  lemma BytesAreBelow(bytes: seq<Byte>)
    ensures AllBelow(bytes, 256)
  {
    forall i | 0 <= i < |bytes| ensures bytes[i] < 256 {
      var b: Byte := bytes[i];
    }
  }

  lemma LengthIsCeiling(n: nat)
    ensures (8 * n + PadBits(n)) % 5 == 0
    ensures (8 * n + PadBits(n)) / 5 == (8 * n + 4) / 5
    ensures (8 * n + PadBits(n)) / 8 == n && (8 * n + PadBits(n)) % 8 == PadBits(n)
  {
  }

  /** Decoding an encoding gives back the bytes. */
  lemma DecodingInvertsEncoding(bytes: seq<Byte>, digits: seq<nat>, decoded: seq<Byte>)
    requires IsEncoding(bytes, digits) && IsDecoding(digits, decoded)
    ensures decoded == bytes
  {
    LengthIsCeiling(|bytes|);
    assert |decoded| == |bytes| && 5 * |digits| % 8 == PadBits(|bytes|);
    ScaledBack(Value(bytes, 256), Pow2(PadBits(|bytes|)));
    BytesAreBelow(bytes);
    BytesAreBelow(decoded);
    ValueIsInjective(decoded, bytes, 256);
  }

  lemma ScaledBack(v: nat, p: nat)
    requires 0 < p
    ensures v * p / p == v && v * p % p == 0
  {
    DivModUnique(v * p, p, v, 0);
  }

  lemma EncodedAgain(digits: seq<nat>, bytes: seq<Byte>)
    requires IsDecoding(digits, bytes) && IsEncoding(bytes, digits)
    ensures 5 * |digits| % 8 == PadBits(|bytes|) < 5 && Value(digits, 32) % Pow2(5 * |digits| % 8) == 0
  {
    LengthIsCeiling(|bytes|);
    ScaledBack(Value(bytes, 256), Pow2(PadBits(|bytes|)));
  }

  lemma NothingDropped(digits: seq<nat>, bytes: seq<Byte>)
    requires AllBelow(digits, 32) && IsDecoding(digits, bytes)
    requires 5 * |digits| % 8 < 5 && Value(digits, 32) % Pow2(5 * |digits| % 8) == 0
    ensures IsEncoding(bytes, digits)
  {
    PadFillsTheGroup(|bytes|, |digits|);
    ExactMultiple(Value(digits, 32), Pow2(5 * |digits| % 8));
  }

  /**
   * The other way round: what was decoded encodes to the same digits exactly when no set bit, and no whole digit, was
   * dropped.
   */
  lemma EncodingInvertsDecodingIff(digits: seq<nat>, bytes: seq<Byte>, encoded: seq<nat>)
    ensures AllBelow(digits, 32) && IsDecoding(digits, bytes) && IsEncoding(bytes, encoded) ==>
              (encoded == digits <==> 5 * |digits| % 8 < 5 && Value(digits, 32) % Pow2(5 * |digits| % 8) == 0)
  {
    if !(AllBelow(digits, 32) && IsDecoding(digits, bytes) && IsEncoding(bytes, encoded)) {
    } else if encoded == digits {
      EncodedAgain(digits, bytes);
    } else if 5 * |digits| % 8 < 5 && Value(digits, 32) % Pow2(5 * |digits| % 8) == 0 {
      NothingDropped(digits, bytes);
      EncodingIsUnique(bytes, encoded, digits);
    }
  }

  lemma PadFillsTheGroup(n: nat, m: nat)
    requires n == 5 * m / 8 && 5 * m % 8 < 5
    ensures PadBits(n) == 5 * m % 8
  {
  }

  // ---------- Reading the accumulator ----------

  lemma ModOfSum(m: nat, x: nat, y: nat)
    requires 0 < m
    ensures (m * x + y) % m == y % m
  {
    assert y == m * (y / m) + y % m;
    assert m * x + y == m * (x + y / m) + y % m;
    DivModUnique(m * x + y, m, x + y / m, y % m);
  }

  lemma ShiftInFive(n: nat, b: nat)
    requires b < 32
    ensures ((n % WORD) * 32) % WORD + b == (n * 32 + b) % WORD
    ensures ((n % WORD) * 32) % WORD % 32 == 0
  {
    var q, r := n / WORD, n % WORD;
    var a, c := r * 32 / WORD, r * 32 % WORD;
    var t := r - 0x800_0000 * a;
    assert c == 32 * t;
    DivModUnique(c, 32, t, 0);
    DivModUnique(n * 32 + b, WORD, q * 32 + a, c + b);
  }

  lemma ShiftInEight(n: nat, b: nat)
    requires b < 256
    ensures ((n % WORD) * 256) % WORD + b == (n * 256 + b) % WORD
    ensures ((n % WORD) * 256) % WORD % 256 == 0
  {
    var q, r := n / WORD, n % WORD;
    var a, c := r * 256 / WORD, r * 256 % WORD;
    var t := r - 0x100_0000 * a;
    assert c == 256 * t;
    DivModUnique(c, 256, t, 0);
    DivModUnique(n * 256 + b, WORD, q * 256 + a, c + b);
  }

  lemma OrFresh(shifted: nat, k: nat, b: nat)
    requires shifted % Pow2(k) == 0 && b < Pow2(k)
    ensures BitOr(shifted, b) == shifted + b
  {
    ExactMultiple(shifted, Pow2(k));
    OrAdds(shifted / Pow2(k), k, b);
  }

  /** Shifting in a fresh group of k bits, cut to 32 bits, follows the unbounded number modulo the word. */
  lemma ShiftIn(n: nat, k: nat, b: nat)
    requires k in {5, 8} && b < Pow2(k)
    ensures BitOr(Shl(n % WORD, k), b) == (n * Pow2(k) + b) % WORD
  {
    hide BitOr, Pow2;
    SmallPowers();
    if k == 5 {
      ShiftInFive(n, b);
      OrFresh(Shl(n % WORD, 5), 5, b);
    } else {
      ShiftInEight(n, b);
      OrFresh(Shl(n % WORD, 8), 8, b);
    }
  }

  lemma ExactMultiple(a: nat, p: nat)
    requires 0 < p && a % p == 0
    ensures a == a / p * p && 0 <= a / p
  {
    DivIsNat(a, p);
  }

  /** A group of k bits, starting at most 7 bits up, is the same in the word as in the unbounded number. */
  lemma ReadOut(n: nat, shift: nat, k: nat)
    requires shift <= 7 && k in {5, 8}
    ensures BitAnd(Ushr(n % WORD, shift), Pow2(k) - 1) == (n / Pow2(shift)) % Pow2(k)
  {
    AndMasks(Ushr(n % WORD, shift), k);
    SmallPowers();
    var q, r := n / WORD, n % WORD;
    assert n == WORD * q + r;
    var p := Pow2(shift);
    var times := if shift == 0 then WORD else if shift == 1 then 0x8000_0000 else if shift == 2 then 0x4000_0000
                 else if shift == 3 then 0x2000_0000 else if shift == 4 then 0x1000_0000
                     else if shift == 5 then 0x800_0000
                 else if shift == 6 then 0x400_0000 else 0x200_0000;
    assert p * times == WORD && times % Pow2(k) == 0;
    LowBits(WORD, q, r, p, times, Pow2(k));
  }

  lemma LowBits(w: nat, q: nat, r: nat, p: nat, times: nat, m: nat)
    requires 0 < p && 0 < m && p * times == w && times % m == 0
    ensures ((w * q + r) / p) % m == (r / p) % m
  {
    var t := times / m;
    ExactMultiple(times, m);
    assert r == p * (r / p) + r % p;
    assert w * q == p * (times * q);
    assert w * q + r == p * (times * q + r / p) + r % p;
    DivModUnique(w * q + r, p, times * q + r / p, r % p);
    assert times * q == m * (t * q);
    ModOfSum(m, t * q, r / p);
  }

  /** Masking the accumulator to its low 12 bits would emit the same group: higher bits are never read. */
  lemma MaskedReadOut(value: nat, shift: nat, k: nat)
    requires (k == 5 && shift <= 7) || (k == 8 && shift <= 4)
    ensures BitAnd(Ushr(value, shift), Pow2(k) - 1) == BitAnd(Ushr(value % 4096, shift), Pow2(k) - 1)
  {
    SmallPowers();
    var q, r := value / 4096, value % 4096;
    AndMasks(Ushr(value, shift), k);
    AndMasks(Ushr(r, shift), k);
    var p := Pow2(shift);
    var times := if shift == 0 then 4096 else if shift == 1 then 2048 else if shift == 2 then 1024
        else if shift == 3 then 512
                 else if shift == 4 then 256 else if shift == 5 then 128 else if shift == 6 then 64 else 32;
    assert p * times == 4096 && times % Pow2(k) == 0;
    assert value == 4096 * q + r;
    LowBits(4096, q, r, p, times, Pow2(k));
  }

  /** The masked accumulator stays the mask of the unmasked one. */
  lemma MaskedShiftIn(value: nat, k: nat, b: nat)
    requires k in {5, 8} && b < Pow2(k) && value < WORD
    ensures BitOr(Shl(value, k), b) % 4096 == BitOr(Shl(value % 4096, k), b) % 4096
  {
    LowBitsAfterShift(value, k, b);
    LowBitsAfterShift(value % 4096, k, b);
    MaskedScale(value, Pow2(k), b);
  }

  lemma LowBitsAfterShift(value: nat, k: nat, b: nat)
    requires k in {5, 8} && b < Pow2(k) && value < WORD
    ensures BitOr(Shl(value, k), b) % 4096 == (value * Pow2(k) + b) % 4096
  {
    hide Shl, BitOr;
    var n := value * Pow2(k) + b;
    assert BitOr(Shl(value, k), b) == n % WORD by {
      DivModUnique(value, WORD, 0, value);
      ShiftIn(value, k, b);
    }
    WordKeepsLowBits(n);
  }

  lemma MaskedScale(value: nat, p: nat, b: nat)
    ensures (value * p + b) % 4096 == (value % 4096 * p + b) % 4096
  {
    var q, r := value / 4096, value % 4096;
    assert value == 4096 * q + r;
    assert value * p + b == 4096 * (q * p) + (r * p + b);
    ModOfSum(4096, q * p, r * p + b);
  }

  lemma WordKeepsLowBits(n: nat)
    ensures n % WORD % 4096 == n % 4096
  {
    assert n == 4096 * (n / WORD * 0x10_0000) + n % WORD;
    ModOfSum(4096, n / WORD * 0x10_0000, n % WORD);
  }

  // ---------- The codec as it runs ----------

  /** Dividing by a product pm is dividing by one factor after the other. */
  lemma DivDiv(n: nat, p: nat, m: nat, pm: nat)
    requires 0 < p && 0 < m && pm == p * m
    ensures 0 < pm && n / pm == n / p / m
  {
    var x := n / p;
    var a, b := x % m, n % p;
    assert n == p * x + b;
    assert x == m * (x / m) + a;
    assert p * x == pm * (x / m) + p * a;
    WithinGroup(p, m, a, b);
    AtLeastOnce(p, m);
    DivModUnique(n, pm, x / m, p * a + b);
  }

  lemma DropGroup(n: nat, shift: nat, k: nat)
    ensures n / Pow2(shift) == n / Pow2(shift + k) * Pow2(k) + (n / Pow2(shift)) % Pow2(k)
  {
    PowersAdd(shift, k);
    DivDiv(n, Pow2(shift), Pow2(k), Pow2(shift + k));
  }

  lemma WithinGroup(p: nat, m: nat, a: nat, b: nat)
    requires a < m && b < p
    ensures p * a + b < p * m
  {
    assert p * m == p * a + p * (m - a);
    AtLeastOnce(p, m - a);
  }

  lemma {:induction false} PowersAdd(a: nat, b: nat)
    ensures Pow2(a + b) == Pow2(a) * Pow2(b)
    decreases b
  {
    if b != 0 {
      PowersAdd(a, b - 1);
    }
  }

  /** Bringing in k more bits does not change the part above the pending ones. */
  lemma PendingGrows(n: nat, b: nat, bits: nat, k: nat)
    requires b < Pow2(k)
    ensures (n * Pow2(k) + b) / Pow2(bits + k) == n / Pow2(bits)
  {
    PowersAdd(k, bits);
    DivModUnique(n * Pow2(k) + b, Pow2(k), n, b);
    DivDiv(n * Pow2(k) + b, Pow2(k), Pow2(bits), Pow2(bits + k));
  }

  /** The digits emitted so far are the number read so far without its pending bits. */
  ghost predicate Emitted(digits: seq<nat>, base: nat, n: nat, bits: nat) {
    AllBelow(digits, base) && Value(digits, base) == n / Pow2(bits)
  }

  /** Reading one group of k bits and taking it off the pending ones. */
  lemma EmitGroup(digits: seq<nat>, n: nat, bits: nat, k: nat)
    requires k in {5, 8} && k <= bits <= k + 7 && Emitted(digits, Pow2(k), n, bits)
    ensures var d := BitAnd(Ushr(n % WORD, bits - k), Pow2(k) - 1);
            d < Pow2(k) && Emitted(digits + [d], Pow2(k), n, bits - k)
  {
    hide Shl, Ushr, BitAnd, Pow2;
    ReadOut(n, bits - k, k);
    DropGroup(n, bits - k, k);
    ValueOfAppended(digits, BitAnd(Ushr(n % WORD, bits - k), Pow2(k) - 1), Pow2(k));
  }

  /** Shifting in one group of k bits. */
  lemma FeedGroup(digits: seq<nat>, base: nat, n: nat, b: nat, bits: nat, k: nat)
    requires k in {5, 8} && b < Pow2(k) && Emitted(digits, base, n, bits)
    ensures BitOr(Shl(n % WORD, k), b) == (n * Pow2(k) + b) % WORD
    ensures Emitted(digits, base, n * Pow2(k) + b, bits + k)
  {
    ShiftIn(n, k, b);
    PendingGrows(n, b, bits, k);
  }

  /** The pending bits of the last byte and the new byte, in groups of five. */
  method EmitGroups(before: seq<nat>, value: nat, pending: nat, ghost n: nat) returns (digits: seq<nat>, bits: nat)
    requires value == n % WORD && pending <= 12 && Emitted(before, 32, n, pending)
    ensures bits < 5 && 5 * |digits| + bits == 5 * |before| + pending
    ensures Emitted(digits, 32, n, bits)
  {
    SmallPowers();
    digits, bits := before, pending;
    while 5 <= bits
      invariant bits <= 12 && 5 * |digits| + bits == 5 * |before| + pending
      invariant Emitted(digits, 32, n, bits)
    {
      EmitGroup(digits, n, bits, 5);
      digits := digits + [BitAnd(Ushr(value, bits - 5), 31)];
      bits := bits - 5;
    }
  }

  /** value = (value << k) | group. */
  method Feed(
      value: nat, group: nat, k: nat, ghost n: nat, ghost digits: seq<nat>, ghost base: nat, ghost bits: nat)
    returns (next: nat)
    requires k in {5, 8} && group < Pow2(k) && value == n % WORD && Emitted(digits, base, n, bits)
    ensures next == (n * Pow2(k) + group) % WORD
    ensures Emitted(digits, base, n * Pow2(k) + group, bits + k)
  {
    FeedGroup(digits, base, n, group, bits, k);
    next := BitOr(Shl(value, k), group);
  }

  method EncodeBytes(buffer: seq<Byte>) returns (digits: seq<nat>, value: nat, bits: nat)
    ensures value == Value(buffer, 256) % WORD && bits < 5 && 5 * |digits| + bits == 8 * |buffer|
    ensures Emitted(digits, 32, Value(buffer, 256), bits)
  {
    digits, value, bits := [], 0, 0;
    ghost var n: nat := 0;
    for i := 0 to |buffer|
      invariant n == Value(buffer[..i], 256) && value == n % WORD
      invariant bits < 5 && 5 * |digits| + bits == 8 * i
      invariant Emitted(digits, 32, n, bits)
    {
      assert Pow2(8) == 256 by { SmallPowers(); }
      assert buffer[..i + 1][..i] == buffer[..i];
      value := Feed(value, buffer[i], 8, n, digits, 32, bits);
      n := n * 256 + buffer[i];
      digits, bits := EmitGroups(digits, value, bits + 8, n);
    }
    assert buffer[..|buffer|] == buffer;
  }

  lemma PadFromPending(n: nat, m: nat, bits: nat)
    requires bits < 5 && 5 * m + bits == 8 * n
    ensures PadBits(n) == if bits == 0 then 0 else 5 - bits
  {
  }

  method EncodeDigits(buffer: seq<Byte>) returns (digits: seq<nat>)
    ensures IsEncoding(buffer, digits)
  {
    var value, bits;
    digits, value, bits := EncodeBytes(buffer);
    PadFromPending(|buffer|, |digits|, bits);
    if 0 < bits {
      var last := EmitLast(digits, value, bits, Value(buffer, 256));
      digits := digits + [last];
    }
  }

  method EmitLast(ghost before: seq<nat>, value: nat, bits: nat, ghost n: nat) returns (digit: nat)
    requires value == n % WORD && 0 < bits < 5 && Emitted(before, 32, n, bits)
    ensures AllBelow(before + [digit], 32) && Value(before + [digit], 32) == n * Pow2(5 - bits)
  {
    LastGroup(before, n, bits);
    digit := BitAnd(Shl(value, 5 - bits), 31);
  }

  method ToBase32(buffer: seq<Byte>) returns (output: string)
    ensures AllInAlphabet(output) && IsEncoding(buffer, Digits(output))
    ensures |output| == (8 * |buffer| + 4) / 5
  {
    var digits := EncodeDigits(buffer);
    output := Spell(digits);
    assert Digits(output) == digits;
    LengthIsCeiling(|buffer|);
  }

  lemma WordKeepsGroup(n: nat)
    ensures n % WORD % 32 == n % 32
  {
    assert n == 32 * (n / WORD * 0x800_0000) + n % WORD;
    ModOfSum(32, n / WORD * 0x800_0000, n % WORD);
  }

  /** The last group is the pending bits followed by zeros. */
  lemma LastGroup(digits: seq<nat>, n: nat, bits: nat)
    requires 0 < bits < 5 && Emitted(digits, 32, n, bits)
    ensures var d := BitAnd(Shl(n % WORD, 5 - bits), 31);
            AllBelow(digits + [d], 32) && Value(digits + [d], 32) == n * Pow2(5 - bits)
  {
    SmallPowers();
    var scale, p := Pow2(5 - bits), Pow2(bits);
    var d := BitAnd(Shl(n % WORD, 5 - bits), 31);
    assert scale * p == 32;
    AndMasks(Shl(n % WORD, 5 - bits), 5);
    WordKeepsGroup(n % WORD * scale);
    ScaledGroup(n, scale, p);
    ValueOfAppended(digits, d, 32);
  }

  lemma ScaledGroup(n: nat, scale: nat, p: nat)
    requires scale * p == 32
    ensures (n % WORD * scale) % 32 == (n * scale) % 32
    ensures n / p * 32 + (n * scale) % 32 == n * scale
  {
    var q, r := n / WORD, n % WORD;
    assert n == WORD * q + r;
    assert n * scale == 32 * (0x800_0000 * (q * scale)) + r * scale;
    ModOfSum(32, 0x800_0000 * (q * scale), r * scale);
    var a, b := n / p, n % p;
    assert n == p * a + b;
    assert n * scale == 32 * a + scale * b;
    WithinGroup(scale, p, b, 0);
    DivModUnique(n * scale, 32, a, scale * b);
  }

  datatype AuthError = InvalidFormat | TooShort

  /** Trailing '=' removed. */
  function StripPadding(s: string): string {
    if s != "" && s[|s| - 1] == '=' then StripPadding(s[..|s| - 1]) else s
  }

  function Upper(c: char): char {
    if 'a' <= c <= 'z' then (c as int - 32) as char else c
  }

  function UpperAll(s: string): (r: string)
    ensures |r| == |s| && forall i | 0 <= i < |s| :: r[i] == Upper(s[i])
  {
    if s == "" then "" else UpperAll(s[..|s| - 1]) + [Upper(s[|s| - 1])]
  }

  function Sanitized(secret: string): string {
    UpperAll(StripPadding(secret))
  }

  method EmitByte(ghost before: seq<nat>, value: nat, bits: nat, ghost n: nat) returns (byte: Byte)
    requires value == n % WORD && 8 <= bits <= 12 && Emitted(before, 256, n, bits)
    ensures Emitted(before + [byte], 256, n, bits - 8)
  {
    SmallPowers();
    EmitGroup(before, n, bits, 8);
    byte := BitAnd(Ushr(value, bits - 8), 0xff);
  }

  method DecodeDigits(digits: seq<nat>) returns (bytes: seq<Byte>)
    requires AllBelow(digits, 32)
    ensures IsDecoding(digits, bytes)
  {
    var bits, value := 0, 0;
    bytes := [];
    ghost var n: nat := 0;
    for i := 0 to |digits|
      invariant n == Value(digits[..i], 32) && value == n % WORD
      invariant bits < 8 && 8 * |bytes| + bits == 5 * i
      invariant Emitted(bytes, 256, n, bits)
    {
      assert Pow2(5) == 32 && Pow2(8) == 256 by { SmallPowers(); }
      assert digits[..i + 1][..i] == digits[..i];
      value := Feed(value, digits[i], 5, n, bytes, 256, bits);
      bits := bits + 5;
      n := n * 32 + digits[i];
      if 8 <= bits {
        var byte := EmitByte(bytes, value, bits, n);
        bytes := bytes + [byte];
        bits := bits - 8;
      }
    }
    assert digits[..|digits|] == digits;
  }

  method FromBase32(secret: string) returns (r: Result<seq<Byte>, AuthError>)
    ensures var s := Sanitized(secret);
            match r
            case Ok(bytes) => AllInAlphabet(s) && 32 <= |s| && IsDecoding(Digits(s), bytes)
            case Err(InvalidFormat) => s == "" || !AllInAlphabet(s)
            case Err(TooShort) => AllInAlphabet(s) && 0 < |s| < 32
  {
    var s := Sanitized(secret);
    if s == "" || exists i | 0 <= i < |s| :: !InAlphabet(s[i]) { return Err(InvalidFormat); }
    if |s| < 32 { return Err(TooShort); }
    var bytes := DecodeDigits(Digits(s));
    return Ok(bytes);
  }

  // ---------- Round trip ----------

  function Pads(n: nat): string {
    if n == 0 then "" else Pads(n - 1) + "="
  }

  lemma {:induction false} StrippedPadding(s: string, pads: nat)
    requires s == "" || s[|s| - 1] != '='
    ensures StripPadding(s + Pads(pads)) == s
    decreases pads
  {
    var padded := s + Pads(pads);
    if pads == 0 {
      assert padded == s;
    } else {
      StrippedPadding(s, pads - 1);
      assert padded == (s + Pads(pads - 1)) + "=";
      assert padded[..|padded| - 1] == s + Pads(pads - 1);
    }
  }

  /** The same secret in any mixture of cases, followed by any number of '=' signs, is sanitized back to itself. */
  lemma SpellingIsIrrelevant(output: string, typed: string, pads: nat)
    requires AllInAlphabet(output) && UpperAll(typed) == output
    ensures Sanitized(typed + Pads(pads)) == output
  {
    assert forall i | 0 <= i < |typed| :: Upper(typed[i]) == output[i];
    StrippedPadding(typed, pads);
  }

  /** A secret survives being written and typed back, however it is spelled, exactly when it has at least 20 bytes. */
  method WriteAndTypeBack(
      buffer: seq<Byte>, typed: string, pads: nat) returns (output: string, r: Result<seq<Byte>, AuthError>)
    ensures AllInAlphabet(output) && IsEncoding(buffer, Digits(output))
    ensures UpperAll(typed) == output ==>
              r == if 20 <= |buffer| then Ok(buffer) else if buffer == [] then Err(InvalidFormat) else Err(TooShort)
  {
    hide IsEncoding, IsDecoding, Sanitized, Value, Digits;
    output := ToBase32(buffer);
    r := FromBase32(typed + Pads(pads));
    if UpperAll(typed) == output {
      SpellingIsIrrelevant(output, typed, pads);
      if r.Ok? {
        DecodingInvertsEncoding(buffer, Digits(output), r.value);
      }
    }
  }
}
