/**
 * `generateUserId()`: `user_${Date.now()}_${crypto.randomBytes(4).toString('hex')}`,
 * with the clock reading and the four random bytes passed in. Besides the shape of the
 * result, the module proves that the id determines both of its inputs.
 */
module UserIds {
  import opened Wrappers

  newtype byte = x: int | 0 <= x < 256

  /** What `crypto.randomBytes(4)` returns. */
  type Random4 = s: seq<byte> | |s| == 4 witness [0, 0, 0, 0]

  /** `\d` in a JavaScript pattern. */
  predicate IsDigit(c: char) {
    '0' <= c <= '9'
  }

  /** `[a-f0-9]` */
  predicate IsLowerHex(c: char) {
    IsDigit(c) || 'a' <= c <= 'f'
  }

  predicate AllDigits(s: string) {
    forall k :: 0 <= k < |s| ==> IsDigit(s[k])
  }

  predicate AllLowerHex(s: string) {
    forall k :: 0 <= k < |s| ==> IsLowerHex(s[k])
  }

  /** The digit for `d` in base 10 or 16, lower case. */
  function DigitChar(d: int): (c: char)
    requires 0 <= d < 16
    ensures IsLowerHex(c) && (d < 10 <==> IsDigit(c))
  {
    if d < 10 then ('0' as int + d) as char else ('a' as int + d - 10) as char
  }

  /** The value of a lower-case hexadecimal (or decimal) digit. */
  function DigitValue(c: char): (d: int)
    requires IsLowerHex(c)
    ensures 0 <= d < 16 && DigitChar(d) == c
  {
    if IsDigit(c) then c as int - '0' as int else c as int - 'a' as int + 10
  }

  /** `String(n)` for a non-negative integer: decimal digits, no leading zero unless `n == 0`. */
  function DecimalString(n: nat): (r: string)
    ensures |r| > 0 && AllDigits(r)
    ensures |r| > 1 ==> r[0] != '0'
  {
    if n < 10 then [DigitChar(n)] else DecimalString(n / 10) + [DigitChar(n % 10)]
  }

  /** The number a string of decimal digits denotes. */
  function DecimalValue(s: string): nat
    requires AllDigits(s)
  {
    if s == [] then 0 else DecimalValue(s[..|s| - 1]) * 10 + DigitValue(s[|s| - 1])
  }

  /** Reading back the decimal rendering of `n` gives `n`. */
  lemma {:induction false} DecimalRoundTrip(n: nat)
    ensures DecimalValue(DecimalString(n)) == n
  {
    var r := DecimalString(n);
    if n >= 10 {
      DecimalRoundTrip(n / 10);
      assert r[..|r| - 1] == DecimalString(n / 10);
    }
  }

  /** `Buffer.toString('hex')`: two lower-case digits per byte, high nibble first. */
  function HexString(bs: seq<byte>): (r: string)
    ensures |r| == 2 * |bs| && AllLowerHex(r)
  {
    if bs == [] then ""
    else [DigitChar(bs[0] as int / 16), DigitChar(bs[0] as int % 16)] + HexString(bs[1..])
  }

  /** The bytes an even-length string of lower-case hexadecimal digits denotes. */
  function HexBytes(h: string): (bs: seq<byte>)
    requires |h| % 2 == 0 && AllLowerHex(h)
    ensures |bs| == |h| / 2
  {
    if h == [] then [] else [(DigitValue(h[0]) * 16 + DigitValue(h[1])) as byte] + HexBytes(h[2..])
  }

  /** Reading back the hexadecimal rendering of `bs` gives `bs`. */
  lemma {:induction false} HexRoundTrip(bs: seq<byte>)
    ensures HexBytes(HexString(bs)) == bs
  {
    if bs != [] {
      var h := HexString(bs);
      assert h[2..] == HexString(bs[1..]);
      HexRoundTrip(bs[1..]);
      assert DigitValue(h[0]) == bs[0] as int / 16;
      assert DigitValue(h[1]) == bs[0] as int % 16;
    }
  }

  const IdPrefix := "user_"

  /** `^user_\d+_[a-f0-9]{8}$` */
  predicate MatchesIdPattern(s: string) {
    && |s| >= 15
    && s[..5] == IdPrefix
    && s[|s| - 9] == '_'
    && (forall k :: 5 <= k < |s| - 9 ==> IsDigit(s[k]))
    && (forall k :: |s| - 8 <= k < |s| ==> IsLowerHex(s[k]))
  }

  /** The id built from a clock reading in milliseconds and four random bytes. */
  function GenerateUserId(nowMillis: nat, random: Random4): (id: string)
    ensures MatchesIdPattern(id)
  {
    var digits, hex := DecimalString(nowMillis), HexString(random);
    var id := IdPrefix + digits + "_" + hex;
    assert id[|id| - 8..] == hex;
    assert id[5..|id| - 9] == digits;
    id
  }

  /** The two inputs an id was built from. */
  datatype IdParts = IdParts(nowMillis: nat, random: Random4)

  /** Splits an id of the generated shape back into its timestamp and random bytes. */
  function ParseUserId(s: string): Option<IdParts> {
    if MatchesIdPattern(s) then
      var digits, hex := s[5..|s| - 9], s[|s| - 8..];
      assert AllDigits(digits) by {
        forall k | 0 <= k < |digits| ensures IsDigit(digits[k]) {
          assert digits[k] == s[5 + k];
        }
      }
      assert AllLowerHex(hex) by {
        forall k | 0 <= k < |hex| ensures IsLowerHex(hex[k]) {
          assert hex[k] == s[|s| - 8 + k];
        }
      }
      Some(IdParts(DecimalValue(digits), HexBytes(hex)))
    else
      None
  }

  /** Parsing a generated id recovers the clock reading and the random bytes. */
  lemma ParseGeneratedUserId(nowMillis: nat, random: Random4)
    ensures ParseUserId(GenerateUserId(nowMillis, random)) == Some(IdParts(nowMillis, random))
  {
    var digits, hex := DecimalString(nowMillis), HexString(random);
    var id := GenerateUserId(nowMillis, random);
    assert id == IdPrefix + digits + "_" + hex;
    assert id[|id| - 8..] == hex;
    assert id[5..|id| - 9] == digits;
    DecimalRoundTrip(nowMillis);
    HexRoundTrip(random);
  }

  /** Distinct (timestamp, random bytes) pairs give distinct ids. */
  lemma GenerateUserIdInjective(n1: nat, r1: Random4, n2: nat, r2: Random4)
    requires GenerateUserId(n1, r1) == GenerateUserId(n2, r2)
    ensures n1 == n2 && r1 == r2
  {
    ParseGeneratedUserId(n1, r1);
    ParseGeneratedUserId(n2, r2);
  }
}
