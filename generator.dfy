/**
 * `TrackingNumberGenerator.generate_tracking_number`: a straight-line
 * composition of two SHA-256 digests, a hex read, base-36 and slicing.
 * The digest is a parameter: any function whose every output is 64
 * lowercase hex characters, so each property below holds whatever
 * SHA-256 returns.
 */
module Generator {
  import opened Ascii
  import Base36
  import Serializers

  predicate IsLowerHexDigit(c: char) { IsDigit(c) || 'a' <= c <= 'f' }

  /** What `hashlib.sha256(...).hexdigest()` returns: 64 lowercase hex characters. */
  predicate IsHexDigest(h: string)
  {
    |h| == 64 && forall i :: 0 <= i < |h| ==> IsLowerHexDigit(h[i])
  }

  /** A digest as `hexdigest()` renders it. */
  type HexDigest = h: string | IsHexDigest(h) witness seq(64, _ => '0')

  /** SHA-256 over the encoded text, known only by the shape of its output. */
  type Hasher = string -> HexDigest

  function HexValue(c: char): (d: nat)
    requires IsLowerHexDigit(c)
    ensures d < 16
  {
    if IsDigit(c) then c as int - '0' as int else c as int - 'a' as int + 10
  }

  /** `int(s, 16)` on lowercase hex digits: k digits stand for a value below 16^k. */
  function ParseHex(s: string): (v: nat)
    requires forall i :: 0 <= i < |s| ==> IsLowerHexDigit(s[i])
    ensures v < Base36.Pow(16, |s|)
    decreases |s|
  {
    if s == [] then 0 else 16 * ParseHex(s[..|s| - 1]) + HexValue(s[|s| - 1])
  }

  /** Python's `s[:n]`. */
  function Take(s: string, n: nat): (r: string)
    ensures |r| <= n && r <= s
    ensures |s| <= n ==> r == s
    ensures |s| > n ==> r == s[..n]
  {
    if |s| <= n then s else s[..n]
  }

  /**
   * `s.replace('-', '')`: no hyphen is left, nothing is added, and a text
   * without hyphens is kept; `StripHyphensAppend` says the other characters
   * keep their order.
   */
  function StripHyphens(s: string): (r: string)
    ensures forall i :: 0 <= i < |r| ==> r[i] != '-'
    ensures |r| <= |s|
    ensures (forall i :: 0 <= i < |s| ==> s[i] != '-') ==> r == s
  {
    if s == [] then []
    else if s[0] == '-' then StripHyphens(s[1..])
    else [s[0]] + StripHyphens(s[1..])
  }

  /** The number that the first 12 hex characters of the second digest stand for. */
  function BaseNumber(hash: Hasher, origin: string, destination: string, weightText: string,
                      timestampText: string, customerId: string, customerSlug: string,
                      correlationId: string): (n: nat)
    ensures n < Base36.Pow(16, 12)
  {
    // The first seed, `f"{origin}{destination}{weight}{customer_id}{customer_slug}"`.
    var firstDigest := hash(origin + destination + weightText + customerId + customerSlug);
    var secondDigest := hash(firstDigest + timestampText + StripHyphens(correlationId));
    ParseHex(secondDigest[..12])
  }

  /**
   * `generate_tracking_number`. `weightText` is the text of the weight in the
   * seed and `timestampText` the decimal microsecond timestamp of `created_at`;
   * both are computed in floating point by the caller's runtime and are taken
   * here as given. `customerName` is accepted and not used, as in the source.
   */
  function TrackingNumber(hash: Hasher, origin: string, destination: string, weightText: string,
                          timestampText: string, customerId: string, customerName: string,
                          customerSlug: string, correlationId: string): (r: string)
    ensures |r| <= 16
    ensures forall i :: 0 <= i < |r| ==> !IsLowerLetter(r[i])
    ensures |origin + destination| <= 16 ==> Upper(origin + destination) <= r
  {
    var n := BaseNumber(hash, origin, destination, weightText, timestampText, customerId,
                        customerSlug, correlationId);
    var trackingBase := Take(Base36.Encode(n), 10);
    Upper(Take(origin + destination + trackingBase, 16))
  }

  /** The tracking-number format `^[A-Z0-9]{1,16}$`. */
  predicate IsTrackingNumberFormat(s: string)
  {
    1 <= |s| <= 16 && forall i :: 0 <= i < |s| ==> IsUpperAlnum(s[i])
  }

  /** Twelve hex digits hold less than 2^48, and 36^10 exceeds that. */
  lemma PowerBounds()
    ensures Base36.Pow(16, 12) == 281474976710656
    ensures 281474976710656 < Base36.Pow(36, 10)
  {
  }

  /** The base number is below 2^48, so its base-36 form has 1 to 10 digits. */
  lemma BaseNumberFitsTenDigits(hash: Hasher, origin: string, destination: string,
                                weightText: string, timestampText: string, customerId: string,
                                customerSlug: string, correlationId: string)
    ensures BaseNumber(hash, origin, destination, weightText, timestampText, customerId,
                       customerSlug, correlationId) < 281474976710656
    ensures 1 <= |Base36.Encode(BaseNumber(hash, origin, destination, weightText,
                  timestampText, customerId, customerSlug, correlationId))| <= 10
  {
    PowerBounds();
    Base36.EncodeLength(BaseNumber(hash, origin, destination, weightText, timestampText, customerId,
                                   customerSlug, correlationId), 10);
  }

  /**
   * With validated country codes the `[:10]` and `[:16]` cuts and the
   * upper-casing change nothing: the number is the two codes followed by the
   * whole base-36 encoding, 5 to 14 characters from `[A-Z0-9]`.
   */
  lemma TrackingNumberShape(hash: Hasher, origin: string, destination: string, weightText: string,
                            timestampText: string, customerId: string, customerName: string,
                            customerSlug: string, correlationId: string)
    requires Serializers.IsCountryCode(origin) && Serializers.IsCountryCode(destination)
    ensures var r := TrackingNumber(hash, origin, destination, weightText, timestampText,
                                    customerId, customerName, customerSlug, correlationId);
            && r == origin + destination + Base36.Encode(BaseNumber(hash, origin, destination,
                      weightText, timestampText, customerId, customerSlug, correlationId))
            && r[..4] == origin + destination
            && 5 <= |r| <= 14
            && IsTrackingNumberFormat(r)
  {
    var n := BaseNumber(hash, origin, destination, weightText, timestampText, customerId,
                        customerSlug, correlationId);
    BaseNumberFitsTenDigits(hash, origin, destination, weightText, timestampText, customerId,
                            customerSlug, correlationId);
    var s := origin + destination + Base36.Encode(n);
    assert forall i :: 0 <= i < |s| ==> IsUpperAlnum(s[i]);
    UpperFixesNonLower(s);
  }

  /** The customer name is not an input of the algorithm. */
  lemma CustomerNameIgnored(hash: Hasher, origin: string, destination: string, weightText: string,
                            timestampText: string, customerId: string, name1: string, name2: string,
                            customerSlug: string, correlationId: string)
    ensures TrackingNumber(hash, origin, destination, weightText, timestampText, customerId,
                           name1, customerSlug, correlationId)
         == TrackingNumber(hash, origin, destination, weightText, timestampText, customerId,
                           name2, customerSlug, correlationId)
  {
  }

  /**
   * Removing hyphens works character by character: it distributes over
   * concatenation, dropping each '-' and keeping every other character, so
   * the other characters keep their order.
   */
  lemma {:induction false} StripHyphensAppend(a: string, b: string)
    ensures StripHyphens(a + b) == StripHyphens(a) + StripHyphens(b)
    decreases |a|
  {
    if a == [] {
      assert a + b == b;
    } else {
      assert (a + b)[0] == a[0];
      assert (a + b)[1..] == a[1..] + b;
      StripHyphensAppend(a[1..], b);
    }
  }

  /** On one character: a '-' is dropped, anything else kept. */
  lemma StripHyphensChar(c: char)
    ensures StripHyphens([c]) == if c == '-' then [] else [c]
  {
    assert [c][1..] == [];
  }

  lemma {:induction false} StripHyphensIdempotent(s: string)
    ensures StripHyphens(StripHyphens(s)) == StripHyphens(s)
    decreases |s|
  {
    if s != [] {
      StripHyphensIdempotent(s[1..]);
      if s[0] != '-' {
        var t := StripHyphens(s[1..]);
        assert ([s[0]] + t)[1..] == t;
      }
    }
  }

  /**
   * Only the hyphen-free form of the correlation id matters: ids that
   * differ only in their hyphens give the same number, and an id gives the
   * same number as its hyphen-free form.
   */
  lemma CorrelationHyphensIgnored(hash: Hasher, origin: string, destination: string,
                                  weightText: string, timestampText: string, customerId: string,
                                  customerName: string, customerSlug: string,
                                  id1: string, id2: string)
    requires StripHyphens(id1) == StripHyphens(id2)
    ensures TrackingNumber(hash, origin, destination, weightText, timestampText, customerId,
                           customerName, customerSlug, id1)
         == TrackingNumber(hash, origin, destination, weightText, timestampText, customerId,
                           customerName, customerSlug, id2)
    ensures TrackingNumber(hash, origin, destination, weightText, timestampText, customerId,
                           customerName, customerSlug, id1)
         == TrackingNumber(hash, origin, destination, weightText, timestampText, customerId,
                           customerName, customerSlug, StripHyphens(id1))
  {
    StripHyphensIdempotent(id1);
  }
}
