/**
 * Base-36 encoding of non-negative integers with the digits `0-9A-Z`,
 * as `TrackingNumberGenerator._to_base36` does it, together with the
 * decoder that it is proved against.
 */
module Base36 {
  import opened Ascii

  const Digits: string := "0123456789ABCDEFGHIJKLMNOPQRSTUVWXYZ"

  /** The `d`-th base-36 digit, written by arithmetic on code points. */
  function DigitChar(d: nat): (c: char)
    requires d < 36
    ensures IsUpperAlnum(c)
  {
    if d < 10 then ('0' as int + d) as char else ('A' as int + d - 10) as char
  }

  /** The value of a base-36 digit character. */
  function DigitValue(c: char): (d: nat)
    requires IsUpperAlnum(c)
    ensures d < 36
  {
    if IsDigit(c) then c as int - '0' as int else c as int - 'A' as int + 10
  }

  lemma DigitsTable()
    ensures |Digits| == 36
    ensures forall d :: 0 <= d < 36 ==> Digits[d] == DigitChar(d)
  {
  }

  lemma DigitRoundTrip(d: nat)
    requires d < 36
    ensures DigitValue(DigitChar(d)) == d
  {
  }

  lemma CharRoundTrip(c: char)
    requires IsUpperAlnum(c)
    ensures DigitChar(DigitValue(c)) == c
  {
  }

  function Pow(b: nat, k: nat): nat
  {
    if k == 0 then 1 else b * Pow(b, k - 1)
  }

  /**
   * The digits of `n`, most significant first, as the loop prepends them:
   * none for 0, otherwise base-36 digits with no leading '0'.
   */
  function DigitsOf(n: nat): (r: string)
    ensures r == [] <==> n == 0
    ensures forall i :: 0 <= i < |r| ==> IsUpperAlnum(r[i])
    ensures n > 0 ==> r[0] != '0'
    decreases n
  {
    if n == 0 then ""
    else
      DigitsTable();
      DigitsOf(n / 36) + [Digits[n % 36]]
  }

  /** `_to_base36`: 0 is "0", every other value its digits; always canonical. */
  function Encode(n: nat): (r: string)
    ensures Canonical(r)
    ensures r == "0" <==> n == 0
  {
    if n == 0 then "0" else DigitsOf(n)
  }

  /** Positional value of a string of base-36 digits, most significant first. */
  function Decode(s: string): nat
    requires forall i :: 0 <= i < |s| ==> IsUpperAlnum(s[i])
  {
    if s == [] then 0 else 36 * Decode(s[..|s| - 1]) + DigitValue(s[|s| - 1])
  }

  /** A string `Encode` can produce: "0", or digits with no leading '0'. */
  predicate Canonical(s: string)
  {
    && |s| > 0
    && (forall i :: 0 <= i < |s| ==> IsUpperAlnum(s[i]))
    && (s[0] == '0' ==> s == "0")
  }

  lemma {:induction false} DecodeDigitsOf(n: nat)
    ensures Decode(DigitsOf(n)) == n
    decreases n
  {
    if n > 0 {
      DecodeDigitsOf(n / 36);
      DigitsTable();
      DigitRoundTrip(n % 36);
      var s := DigitsOf(n);
      assert s[..|s| - 1] == DigitsOf(n / 36);
    }
  }

  /** Decoding an encoding gives the number back. */
  lemma DecodeEncode(n: nat)
    ensures Decode(Encode(n)) == n
  {
    if n > 0 {
      DecodeDigitsOf(n);
    }
  }

  lemma {:induction false} DecodePositive(s: string)
    requires Canonical(s) && s != "0"
    ensures Decode(s) > 0
    decreases |s|
  {
    var p := s[..|s| - 1];
    if p == [] {
      assert s[|s| - 1] == s[0];
    } else {
      assert p[0] == s[0];
      DecodePositive(p);
    }
  }

  /** Encoding the value of a canonical string gives the string back. */
  lemma {:induction false} EncodeDecode(s: string)
    requires Canonical(s)
    ensures Encode(Decode(s)) == s
    decreases |s|
  {
    if s != "0" {
      DecodePositive(s);
      var p, c := s[..|s| - 1], s[|s| - 1];
      var n := Decode(s);
      DigitsTable();
      CharRoundTrip(c);
      assert n / 36 == Decode(p) && n % 36 == DigitValue(c);
      if p == [] {
        assert DigitsOf(n) == DigitsOf(0) + [c];
      } else {
        assert p[0] == s[0];
        EncodeDecode(p);
        DecodePositive(p);
      }
      assert s == p + [c];
    }
  }

  /** A value below 36^k has at most k base-36 digits. */
  lemma {:induction false} DigitsOfLength(n: nat, k: nat)
    requires n < Pow(36, k)
    ensures |DigitsOf(n)| <= k
    decreases n
  {
    if n > 0 {
      assert k > 0;
      assert n / 36 < Pow(36, k - 1);
      DigitsOfLength(n / 36, k - 1);
    }
  }

  lemma EncodeLength(n: nat, k: nat)
    requires 0 < k && n < Pow(36, k)
    ensures 1 <= |Encode(n)| <= k
  {
    DigitsOfLength(n, k);
  }

  /** The values the source's tests fix. */
  lemma KnownEncodings()
    ensures Encode(0) == "0"
    ensures Encode(35) == "Z"
    ensures Encode(36) == "10"
    ensures Encode(1295) == "ZZ"
  {
    assert DigitsOf(1) == "1";
    assert DigitsOf(35) == "Z";
    assert DigitsOf(36) == DigitsOf(1) + "0";
    assert DigitsOf(1295) == DigitsOf(35) + "Z";
  }

  /**
   * `_to_base36` as the source runs it: a loop that prepends the digit of
   * `number % 36` and divides by 36 until nothing is left.
   */
  method ToBase36(number: nat) returns (result: string)
    ensures result == Encode(number)
    ensures Canonical(result) && Decode(result) == number
    ensures number > 0 ==> result[0] != '0'
  {
    if number == 0 {
      return "0";
    }
    result := "";
    var n := number;
    while n > 0
      invariant DigitsOf(n) + result == DigitsOf(number)
      decreases n
    {
      result := [Digits[n % 36]] + result;
      n := n / 36;
    }
    DecodeEncode(number);
  }
}
