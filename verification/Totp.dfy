/** Time-based one-time passwords: dynamic truncation and the acceptance window. */
module Totp {
  import opened Wrappers
  import opened Numbers
  import opened Base32

  /** An HMAC-SHA-1 value; the function that computes it is a parameter of the model. */
  type Digest = d: seq<Byte> | |d| == 20 witness seq(20, _ => 0)

  const STEP_MS: nat := 30000
  const CODES: nat := 1000000
  const COUNTERS: nat := 0x1_0000_0000_0000_0000

  // ---------- The moving factor ----------

  /** Big-endian bytes of a number, low bytes last. */
  function BytesOf(v: nat, length: nat): (r: seq<Byte>)
    ensures |r| == length
    decreases length, v
  {
    if length == 0 then [] else
    DivIsNat(v, 256);
    BytesOf(v / 256, length - 1) + [v % 256]
  }

  lemma {:induction false} BytesOfWrite(v: nat, length: nat)
    requires v < Pow2(8 * length)
    ensures Value(BytesOf(v, length), 256) == v
    decreases length
  {
    if length != 0 {
      PowersAdd(8 * (length - 1), 8);
      SmallPowers();
      BytesOfWrite(v / 256, length - 1);
      ValueOfAppended(BytesOf(v / 256, length - 1), v % 256, 256);
    }
  }

  /** Distinct time steps are hashed as distinct messages. */
  lemma CountersDiffer(a: nat, b: nat)
    requires a < COUNTERS && b < COUNTERS && BytesOf(a, 8) == BytesOf(b, 8)
    ensures a == b
  {
    hide BytesOf;
    assert Pow2(64) == COUNTERS by {
      SmallPowers();
      PowersAdd(8, 8);
      PowersAdd(16, 16);
      PowersAdd(32, 32);
    }
    BytesOfWrite(a, 8);
    BytesOfWrite(b, 8);
  }

  // ---------- Truncation ----------

  /** The truncation of section 5.3 of RFC 4226: 31 bits of the four bytes at the offset in the last nibble. */
  function TruncatedWord(digest: Digest): nat {
    var offset := digest[19] % 16;
    Value(digest[offset..offset + 4], 256) % 0x8000_0000
  }

  /** The same with the bit operators of the program. */
  function Truncate(digest: Digest): nat {
    var offset := BitAnd(digest[19], 0xf);
    OffsetInBounds(digest[19]);
    Assemble(digest[offset], digest[offset + 1], digest[offset + 2], digest[offset + 3])
  }

  lemma OffsetInBounds(last: Byte)
    ensures BitAnd(last, 0xf) == last % 16 <= 15
  {
    SmallPowers();
    AndMasks(last, 4);
  }

  lemma BytePowers()
    ensures Pow2(8) == 0x100 && Pow2(16) == 0x1_0000 && Pow2(24) == 0x100_0000
  {
    SmallPowers();
    PowersAdd(8, 8);
    PowersAdd(16, 8);
  }

  lemma OrOfBytes(a: nat, b: nat, c: nat, d: nat)
    requires a < 128 && b < 256 && c < 256 && d < 256
    ensures BitOr(BitOr(BitOr(a * 0x100_0000, b * 0x1_0000), c * 0x100), d)
        == a * 0x100_0000 + b * 0x1_0000 + c * 0x100 + d
  {
    BytePowers();
    OrAdds(a, 24, b * 0x1_0000);
    OrAdds(a * 0x100 + b, 16, c * 0x100);
    OrAdds(a * 0x1_0000 + b * 0x100 + c, 8, d);
  }

  lemma LowSevenBits(b: Byte)
    ensures BitAnd(b, 0x7f) == b % 128
  {
    SmallPowers();
    AndMasks(b, 7);
  }

  lemma AllEightBits(b: Byte)
    ensures BitAnd(b, 0xff) == b
  {
    SmallPowers();
    AndMasks(b, 8);
    DivModUnique(b, 256, 0, b);
  }

  lemma ShiftedBytes(a: nat, b: nat, c: nat)
    requires a < 128 && b < 256 && c < 256
    ensures Shl(a, 24) == a * 0x100_0000 && Shl(b, 16) == b * 0x1_0000 && Shl(c, 8) == c * 0x100
  {
    BytePowers();
    DivModUnique(a * 0x100_0000, WORD, 0, a * 0x100_0000);
    DivModUnique(b * 0x1_0000, WORD, 0, b * 0x1_0000);
    DivModUnique(c * 0x100, WORD, 0, c * 0x100);
  }

  lemma FourBytes(bytes: seq<nat>)
    requires |bytes| == 4
    ensures Value(bytes, 256) == bytes[0] * 0x100_0000 + bytes[1] * 0x1_0000 + bytes[2] * 0x100 + bytes[3]
  {
    assert bytes[..3][..2] == bytes[..2] && bytes[..2][..1] == bytes[..1] && bytes[..1][..0] == [];
    assert Value(bytes[..1], 256) == bytes[0];
    assert Value(bytes[..2], 256) == bytes[0] * 256 + bytes[1];
    assert Value(bytes[..3], 256) == (bytes[0] * 256 + bytes[1]) * 256 + bytes[2];
  }

  lemma TopBitOff(a: nat, rest: nat)
    requires a < 256 && rest < 0x100_0000
    ensures (a * 0x100_0000 + rest) % 0x8000_0000 == a % 128 * 0x100_0000 + rest
  {
  }

  /** Four bytes, the first without its top bit, put together by shifts and ors. */
  function Assemble(a: Byte, b: Byte, c: Byte, d: Byte): nat {
    BitOr(BitOr(BitOr(Shl(BitAnd(a, 0x7f), 24), Shl(BitAnd(b, 0xff), 16)), Shl(BitAnd(c, 0xff), 8)), BitAnd(d, 0xff))
  }

  lemma AssembledSum(a: Byte, b: Byte, c: Byte, d: Byte)
    ensures Assemble(a, b, c, d) == a % 128 * 0x100_0000 + b as nat * 0x1_0000 + c as nat * 0x100 + d as nat
  {
    LowSevenBits(a);
    AllEightBits(b);
    AllEightBits(c);
    AllEightBits(d);
    ShiftedBytes(a % 128, b, c);
    OrOfBytes(a % 128, b, c, d);
  }

  lemma AssembledValue(a: Byte, b: Byte, c: Byte, d: Byte)
    ensures Assemble(a, b, c, d) == Value([a, b, c, d], 256) % 0x8000_0000
  {
    AssembledSum(a, b, c, d);
    FourBytes([a, b, c, d]);
    TopBitOff(a, b * 0x1_0000 + c * 0x100 + d);
  }

  /** The bit operators compute the standard's truncation; every read stays inside the digest. */
  lemma TruncateIsStandard(digest: Digest)
    ensures digest[19] % 16 + 4 <= 20
    ensures Truncate(digest) == TruncatedWord(digest)
  {
    OffsetInBounds(digest[19]);
    var o := digest[19] % 16;
    var a, b, c, d := digest[o], digest[o + 1], digest[o + 2], digest[o + 3];
    assert Truncate(digest) == Assemble(a, b, c, d);
    assert TruncatedWord(digest) == Value([a, b, c, d], 256) % 0x8000_0000 by {
      assert digest[o..o + 4] == [a, b, c, d];
    }
    AssembledValue(a, b, c, d);
  }

  // ---------- Codes ----------

  function CodeOf(word: nat): string {
    PadStart(Decimal(word % CODES), 6)
  }

  /** Six digits that read as the word modulo 10^6. */
  lemma CodeIsSixDigits(word: nat)
    ensures var code := CodeOf(word);
            && |code| == 6
            && (forall i | 0 <= i < |code| :: IsDigit(code[i]))
            && Parse(code) == word % 1000000
  {
    var numeral := Decimal(word % CODES);
    assert Pow10(6) == CODES;
    DecimalLength(word % CODES, 6, CODES);
    ParseOfPadded(6 - |numeral|, numeral);
    ParseOfDecimal(word % CODES);
    assert CodeOf(word) == Zeros(6 - |numeral|) + numeral;
  }

  /** Two words have the same code exactly when they agree modulo 10^6. */
  lemma SameCodeIff(a: nat, b: nat)
    ensures CodeOf(a) == CodeOf(b) <==> a % 1000000 == b % 1000000
  {
    CodeIsSixDigits(a);
    CodeIsSixDigits(b);
  }

  /** The digest in the example of section 5.4 of RFC 4226. */
  const EXAMPLE_DIGEST: seq<Byte> :=
    [0x1f, 0x86, 0x98, 0x69, 0x0e, 0x02, 0xca, 0x16, 0x61, 0x85, 0x50, 0xef, 0x7f, 0x19, 0xda, 0x8e, 0x94, 0x5b, 0x55,
     0x5a]

  /** The example of the standard: the word is 0x50ef7f19 and the code reads 872921. */
  lemma ExampleOfTheStandard()
    ensures |EXAMPLE_DIGEST| == 20
    ensures TruncatedWord(EXAMPLE_DIGEST) == 0x50ef7f19
    ensures |CodeOf(0x50ef7f19)| == 6 && Parse(CodeOf(0x50ef7f19)) == 872921
  {
    var d := EXAMPLE_DIGEST[10..14];
    assert d == [0x50, 0xef, 0x7f, 0x19];
    assert d[..3] == [0x50, 0xef, 0x7f] && d[..3][..2] == [0x50, 0xef] && d[..2][..1] == [0x50] && d[..1][..0] == [];
    assert Value([0x50], 256) == 0x50;
    assert Value([0x50, 0xef], 256) == 0x50ef;
    assert Value([0x50, 0xef, 0x7f], 256) == 0x50ef7f;
    assert Value(d, 256) == 0x50ef7f19;
    CodeIsSixDigits(0x50ef7f19);
  }

  /** The code of a time step, by the standards (sections 5.3 of RFC 4226 and 4.2 of RFC 6238). */
  function StandardCode(hmac: (seq<Byte>, seq<Byte>) -> Digest, secret: seq<Byte>, step: nat): string {
    CodeOf(TruncatedWord(hmac(secret, BytesOf(step, 8))))
  }

  function StandardCodes(hmac: (seq<Byte>, seq<Byte>) -> Digest, secret: seq<Byte>): nat -> string {
    (step: nat) => StandardCode(hmac, secret, step)
  }

  datatype TotpError = BadSecret(error: AuthError) | TimeOutOfRange

  /** The code for a timestamp under a decoded secret; a time step that does not fit eight bytes is an error. */
  method GenerateTotpCode(
      hmac: (seq<Byte>, seq<Byte>) -> Digest, secret: seq<Byte>, timestamp: int) returns (r: Result<string, TotpError>)
    ensures 0 <= timestamp / 30000 < 0x1_0000_0000_0000_0000 ==>
              r == Ok(StandardCodes(hmac, secret)(timestamp / 30000))
    ensures !(0 <= timestamp / 30000 < 0x1_0000_0000_0000_0000) ==> r == Err(TimeOutOfRange)
  {
    var step := timestamp / STEP_MS;
    if step < 0 || COUNTERS <= step { return Err(TimeOutOfRange); }
    var digest := hmac(secret, BytesOf(step, 8));
    TruncateIsStandard(digest);
    r := Ok(PadStart(Decimal(Truncate(digest) % CODES), 6));
  }

  /** The code is that of the current, the previous or the next time step. */
  ghost predicate InWindow(codes: nat -> string, code: string, step: nat)
    requires 1 <= step
  {
    exists near: nat | step - 1 <= near <= step + 1 :: code == codes(near)
  }

  lemma WindowOfThree(codes: nat -> string, code: string, step: nat)
    requires 1 <= step
    ensures InWindow(codes, code, step) <==> code == codes(step) || code == codes(step - 1) || code == codes(step + 1)
  {
  }

  lemma NeighbouringSteps(now: int)
    ensures (now - 30000) / STEP_MS == now / STEP_MS - 1 && (now + 30000) / STEP_MS == now / STEP_MS + 1
  {
  }

  /** Under a decoded secret, one timestamp: the three codes are compared with the submitted one. */
  method MatchesNow(
      hmac: (seq<Byte>, seq<Byte>) -> Digest, secret: seq<Byte>, code: string, now: int)
    returns (r: Result<bool, TotpError>)
    ensures 1 <= now / 30000 < 0xFFFF_FFFF_FFFF_FFFF ==>
              r == Ok(InWindow(StandardCodes(hmac, secret), code, now / 30000))
    ensures !(1 <= now / 30000 < 0xFFFF_FFFF_FFFF_FFFF) ==> r == Err(TimeOutOfRange)
  {
    hide StandardCodes, StandardCode;
    NeighbouringSteps(now);
    var current := GenerateTotpCode(hmac, secret, now);
    if current.Err? { return Err(current.error); }
    var previous := GenerateTotpCode(hmac, secret, now - 30000);
    if previous.Err? { return Err(previous.error); }
    var next := GenerateTotpCode(hmac, secret, now + 30000);
    if next.Err? { return Err(next.error); }
    WindowOfThree(StandardCodes(hmac, secret), code, now / STEP_MS);
    r := Ok(code == current.value || code == previous.value || code == next.value);
  }

  /**
   * The window is one step either side (section 5.2 of RFC 6238); a clock within the first step of the epoch is an
   * error.
   */
  method ValidateTotp(hmac: (seq<Byte>, seq<Byte>) -> Digest, secret: string, code: string, now: int)
    returns (r: Result<bool, TotpError>, ghost bytes: seq<Byte>)
    ensures r.Ok? <==>
            && AllInAlphabet(Sanitized(secret)) && 32 <= |Sanitized(secret)|
            && 1 <= now / 30000 < 0xFFFF_FFFF_FFFF_FFFF
    ensures r.Ok? ==>
              && AllInAlphabet(Sanitized(secret)) && IsDecoding(Digits(Sanitized(secret)), bytes)
              && (r.value <==> InWindow(StandardCodes(hmac, bytes), code, now / 30000))
  {
    bytes := [];
    var decoded := FromBase32(secret);
    if decoded.Err? { return Err(BadSecret(decoded.error)), bytes; }
    bytes := decoded.value;
    r := MatchesNow(hmac, decoded.value, code, now);
  }
}
