/**
 * The request validators of `TrackingNumberRequestSerializer`: the declared
 * field bounds and the three regular-expression checks. Each text field
 * strips the raw value itself (`CharField`, `Strip`) before its validators
 * run; parsing of `created_at`, `customer_id` and of the weight's text is
 * not modelled.
 */
module Serializers {
  import opened Ascii
  import opened Wrappers

  datatype FieldError =
    | Blank                     // "This field may not be blank."
    | TooLong(maxLength: nat)
    | TooShort(minLength: nat)
    | MaxDigitsExceeded(maxDigits: nat)
    | MaxDecimalPlacesExceeded(decimalPlaces: nat)
    | MaxWholeDigitsExceeded(maxWholeDigits: nat)
    | NullCharacter             // "Null characters are not allowed."
    | BelowMinimum
    | Format(message: string)   // a ValidationError raised by a validate_<field> method

  const OriginMessage := "Origin country ID must be ISO 3166-1 alpha-2 format (e.g., 'MY')"
  const DestinationMessage := "Destination country ID must be ISO 3166-1 alpha-2 format (e.g., 'ID')"
  const SlugMessage := "customer_slug must be kebab-case format (e.g., 'redbox-logistics')"

  // ---------------------------------------------------------------------
  // `CharField`: the text is stripped of surrounding whitespace first; a
  // blank result is refused at once; otherwise every validator of the field
  // runs and the errors of all that fail are reported together.

  /** `str.isspace()`: the characters `str.strip()` removes. */
  predicate IsSpace(c: char)
  {
    || '\t' <= c <= '\r'
    || '\U{1C}' <= c <= ' '
    || c == '\U{85}' || c == '\U{A0}' || c == '\U{1680}'
    || '\U{2000}' <= c <= '\U{200A}'
    || c == '\U{2028}' || c == '\U{2029}' || c == '\U{202F}' || c == '\U{205F}' || c == '\U{3000}'
  }

  /** The end of the run of whitespace that starts at `i`. */
  function SkipSpaces(s: string, i: nat): (j: nat)
    requires i <= |s|
    ensures i <= j <= |s|
    ensures forall k :: i <= k < j ==> IsSpace(s[k])
    ensures j < |s| ==> !IsSpace(s[j])
    decreases |s| - i
  {
    if i < |s| && IsSpace(s[i]) then SkipSpaces(s, i + 1) else i
  }

  /** The start of the run of whitespace that ends at `j`, not going below `lo`. */
  function SkipSpacesBack(s: string, lo: nat, j: nat): (i: nat)
    requires lo <= j <= |s|
    ensures lo <= i <= j
    ensures forall k :: i <= k < j ==> IsSpace(s[k])
    ensures i > lo ==> !IsSpace(s[i - 1])
    decreases j
  {
    if j > lo && IsSpace(s[j - 1]) then SkipSpacesBack(s, lo, j - 1) else j
  }

  /** `str.strip()`. */
  function Strip(s: string): (r: string)
    ensures |r| <= |s|
    ensures r != [] ==> !IsSpace(r[0]) && !IsSpace(r[|r| - 1])
    ensures s == [] || (!IsSpace(s[0]) && !IsSpace(s[|s| - 1])) ==> r == s
  {
    var i := SkipSpaces(s, 0);
    var j := SkipSpacesBack(s, i, |s|);
    s[i..j]
  }

  /** `strip()` removes exactly a whitespace prefix and a whitespace suffix. */
  lemma StripIsSlice(s: string)
    ensures exists i, j :: 0 <= i <= j <= |s| && Strip(s) == s[i..j]
                           && (forall k :: 0 <= k < i ==> IsSpace(s[k]))
                           && (forall k :: j <= k < |s| ==> IsSpace(s[k]))
  {
    var i := SkipSpaces(s, 0);
    var j := SkipSpacesBack(s, i, |s|);
    assert Strip(s) == s[i..j];
  }

  /** `strip()` leaves nothing exactly when the text is all whitespace. */
  lemma StripBlank(s: string)
    ensures Strip(s) == [] <==> forall k :: 0 <= k < |s| ==> IsSpace(s[k])
  {
    var i := SkipSpaces(s, 0);
    var j := SkipSpacesBack(s, i, |s|);
  }

  /** A stripped text never ends in "\n", so a trailing `$` can only match at its end. */
  lemma StrippedHasNoFinalNewline(s: string)
    ensures WithoutFinalNewline(Strip(s)) == Strip(s)
    ensures WithoutFinalNewline(Upper(Strip(s))) == Upper(Strip(s))
  {
    var t := Strip(s);
    if t != [] {
      assert Upper(t)[|t| - 1] == UpperChar(t[|t| - 1]);
    }
  }

  /**
   * `CharField(min_length=.., max_length=..)` with its default settings: it
   * strips the text, refuses a blank one, then runs the length validators and
   * the null-character validator and reports the errors of all that fail.
   */
  function CharField(value: string, minLength: nat, maxLength: nat): (r: Result<string, seq<FieldError>>)
    ensures r.Ok? <==> Strip(value) != [] && minLength <= |Strip(value)| <= maxLength && '\0' !in Strip(value)
    ensures r.Ok? ==> r.value == Strip(value)
    ensures Strip(value) == [] ==> r == Err([Blank])
    ensures r.Err? && Strip(value) != [] ==>
              && r.error != []
              && (TooLong(maxLength) in r.error <==> |Strip(value)| > maxLength)
              && (TooShort(minLength) in r.error <==> |Strip(value)| < minLength)
              && (NullCharacter in r.error <==> '\0' in Strip(value))
              && Blank !in r.error
  {
    var t := Strip(value);
    if t == [] then Err([Blank])
    else
      var errors := (if |t| > maxLength then [TooLong(maxLength)] else [])
                  + (if |t| < minLength then [TooShort(minLength)] else [])
                  + (if '\0' in t then [NullCharacter] else []);
      if errors == [] then Ok(t) else Err(errors)
  }

  // ---------------------------------------------------------------------
  // Regular-expression matching as `re.match` does it. A `$` at the end of
  // a pattern matches at the end of the text or just before a final "\n".

  predicate EndsAt(s: string, i: nat)
  {
    i == |s| || (i == |s| - 1 && s[i] == '\n')
  }

  /** The text without one final "\n", the part a pattern ending in `$` must cover. */
  function WithoutFinalNewline(s: string): (t: string)
    ensures t <= s
    ensures forall i :: 0 <= i <= |t| ==> (EndsAt(s, i) <==> i == |t|)
  {
    if |s| > 0 && s[|s| - 1] == '\n' then s[..|s| - 1] else s
  }

  /** `re.match(r'^[A-Z]{2}$', s)`. */
  function MatchesCountryPattern(s: string): (b: bool)
    ensures b <==> IsCountryCode(WithoutFinalNewline(s))
  {
    |s| >= 2 && IsUpperLetter(s[0]) && IsUpperLetter(s[1]) && EndsAt(s, 2)
  }

  /** Exactly two letters `A-Z`. */
  predicate IsCountryCode(s: string)
  {
    |s| == 2 && IsUpperLetter(s[0]) && IsUpperLetter(s[1])
  }

  /** The shared body of the two country-code validators. */
  function ValidateCountryId(value: string, message: string): (r: Result<string, FieldError>)
    ensures r.Ok? <==> IsCountryCode(WithoutFinalNewline(Upper(value)))
    ensures r.Ok? ==> r.value == Upper(value)
    ensures r.Err? ==> r.error == Format(message)
  {
    var upper := Upper(value);
    if !MatchesCountryPattern(upper) then Err(Format(message)) else Ok(upper)
  }

  /** `validate_origin_country_id`. */
  function ValidateOriginCountryId(value: string): (r: Result<string, FieldError>)
    ensures r.Ok? <==> IsCountryCode(WithoutFinalNewline(Upper(value)))
    ensures r.Ok? ==> r.value == Upper(value)
    ensures r.Err? ==> r.error == Format(OriginMessage)
  {
    ValidateCountryId(value, OriginMessage)
  }

  /** `validate_destination_country_id`. */
  function ValidateDestinationCountryId(value: string): (r: Result<string, FieldError>)
    ensures r.Ok? <==> IsCountryCode(WithoutFinalNewline(Upper(value)))
    ensures r.Ok? ==> r.value == Upper(value)
    ensures r.Err? ==> r.error == Format(DestinationMessage)
  {
    ValidateCountryId(value, DestinationMessage)
  }

  /** The `origin_country_id` field: the stripped text, the declared 2..2 bounds, then the validator. */
  function OriginCountryField(value: string): (r: Result<string, seq<FieldError>>)
    ensures r.Ok? <==> IsCountryCode(Upper(Strip(value)))
    ensures r.Ok? ==> r.value == Upper(Strip(value))
  {
    StrippedHasNoFinalNewline(value);
    match CharField(value, 2, 2)
    case Err(e) => Err(e)
    case Ok(v) => match ValidateOriginCountryId(v) { case Ok(u) => Ok(u) case Err(e) => Err([e]) }
  }

  /** The `destination_country_id` field. */
  function DestinationCountryField(value: string): (r: Result<string, seq<FieldError>>)
    ensures r.Ok? <==> IsCountryCode(Upper(Strip(value)))
    ensures r.Ok? ==> r.value == Upper(Strip(value))
  {
    StrippedHasNoFinalNewline(value);
    match CharField(value, 2, 2)
    case Err(e) => Err(e)
    case Ok(v) => match ValidateDestinationCountryId(v) { case Ok(u) => Ok(u) case Err(e) => Err([e]) }
  }

  /** The two country validators accept the same values and return the same result. */
  lemma CountryValidatorsAgree(value: string)
    ensures ValidateOriginCountryId(value).Ok? <==> ValidateDestinationCountryId(value).Ok?
    ensures ValidateOriginCountryId(value).Ok? ==>
              ValidateOriginCountryId(value) == ValidateDestinationCountryId(value)
    ensures OriginCountryField(value).Ok? <==> DestinationCountryField(value).Ok?
  {
  }

  /** Re-validating an accepted country code accepts it and returns it unchanged. */
  lemma CountryValidationIdempotent(value: string)
    requires OriginCountryField(value).Ok?
    ensures OriginCountryField(OriginCountryField(value).value) == OriginCountryField(value)
    ensures ValidateOriginCountryId(OriginCountryField(value).value) == Ok(OriginCountryField(value).value)
  {
    var u := Upper(Strip(value));
    assert IsCountryCode(u);
    assert Strip(u) == u;
    UpperIdempotent(Strip(value));
  }

  /** 'my' is accepted and upper-cased. */
  lemma CountryAcceptedExample()
    ensures OriginCountryField("my") == Ok("MY")
  {
    assert Strip("my") == "my";
    assert Upper("my") == "MY";
  }

  /** 'USA' is too long for the field. */
  lemma CountryTooLongExample()
    ensures OriginCountryField("USA") == Err([TooLong(2)])
  {
    assert Strip("USA") == "USA";
    assert [TooLong(2)] + [] + [] == [TooLong(2)];
  }

  /** 'M1' has the right length but fails the format check. */
  lemma CountryFormatExample()
    ensures OriginCountryField("M1") == Err([Format(OriginMessage)])
  {
    assert Strip("M1") == "M1";
    assert Upper("M1") == "M1";
  }

  /**
   * Because `$` also matches before a final newline, the validator called on
   * its own accepts "my\n" and returns "MY\n". Through the field the newline
   * is stripped first, so the request value "my\n" gives "MY".
   */
  lemma CountryTrailingNewline()
    ensures ValidateOriginCountryId("my\n") == Ok("MY\n")
    ensures OriginCountryField("my\n") == Ok("MY")
  {
    assert Upper("my\n") == "MY\n";
    assert Strip("my\n") == "my" by {
      assert SkipSpaces("my\n", 0) == 0;
      assert SkipSpacesBack("my\n", 0, 2) == 2;
    }
    assert Upper("my") == "MY";
  }

  // ---------------------------------------------------------------------
  // The customer slug, `^[a-z0-9]+(-[a-z0-9]+)*$`.

  /** End of the longest run of `[a-z0-9]` that starts at `i`. */
  function RunEnd(s: string, i: nat): (j: nat)
    requires i <= |s|
    ensures i <= j <= |s|
    ensures forall k :: i <= k < j ==> IsLowerAlnum(s[k])
    ensures j < |s| ==> !IsLowerAlnum(s[j])
    decreases |s| - i
  {
    if i < |s| && IsLowerAlnum(s[i]) then RunEnd(s, i + 1) else i
  }

  /**
   * `[a-z0-9]+(-[a-z0-9]+)*$` matched from position `i`. Taking the longest
   * run is the only choice that can succeed: what follows a run must be '-'
   * or the end, and neither is in `[a-z0-9]`.
   */
  predicate MatchRuns(s: string, i: nat)
    requires i <= |s|
    decreases |s| - i
  {
    var j := RunEnd(s, i);
    j > i && (EndsAt(s, j) || (j < |s| && s[j] == '-' && MatchRuns(s, j + 1)))
  }

  /**
   * `re.match(r'^[a-z0-9]+(-[a-z0-9]+)*$', s)`: it matches exactly the
   * kebab-case texts, up to a final "\n".
   */
  function MatchesSlugPattern(s: string): (b: bool)
    ensures b <==> IsKebab(WithoutFinalNewline(s))
  {
    MatchRunsKebab(s, 0);
    MatchRuns(s, 0)
  }

  /**
   * Kebab case: one or more non-empty runs of `[a-z0-9]` joined by single
   * hyphens, i.e. only those characters, no leading, trailing or doubled '-'.
   */
  predicate IsKebab(u: string)
  {
    && |u| > 0
    && (forall k :: 0 <= k < |u| ==> IsLowerAlnum(u[k]) || u[k] == '-')
    && u[0] != '-'
    && u[|u| - 1] != '-'
    && (forall k :: 0 <= k < |u| - 1 ==> u[k] == '-' ==> u[k + 1] != '-')
  }

  /** A kebab string is its first run, then either nothing or '-' and a kebab string. */
  lemma KebabUnfold(u: string, k: nat)
    requires k <= |u|
    requires forall m :: 0 <= m < k ==> IsLowerAlnum(u[m])
    requires k < |u| ==> !IsLowerAlnum(u[k])
    ensures IsKebab(u) <==> k > 0 && (k == |u| || (u[k] == '-' && IsKebab(u[k + 1..])))
  {
    if IsKebab(u) {
      assert k > 0;
      if k < |u| {
        assert u[k] == '-';
        var rest := u[k + 1..];
        assert |rest| > 0;
        assert forall m :: 0 <= m < |rest| ==> rest[m] == u[k + 1 + m];
        assert rest[0] != '-';
        assert forall m :: 0 <= m < |rest| - 1 ==> rest[m] == '-' ==> rest[m + 1] != '-';
      }
    }
    if k > 0 && k < |u| && u[k] == '-' && IsKebab(u[k + 1..]) {
      var rest := u[k + 1..];
      assert forall m :: k + 1 <= m < |u| ==> u[m] == rest[m - (k + 1)];
      assert u[|u| - 1] == rest[|rest| - 1];
      forall m | 0 <= m < |u| - 1 && u[m] == '-'
        ensures u[m + 1] != '-'
      {
        if m == k {
          assert u[m + 1] == rest[0];
        } else {
          assert rest[m - k - 1] == '-';
        }
      }
    }
  }

  /** A run never takes in a final "\n", so it ends inside the text `$` leaves. */
  lemma RunEndWithinText(s: string, i: nat)
    requires i <= |WithoutFinalNewline(s)|
    ensures RunEnd(s, i) <= |WithoutFinalNewline(s)|
  {
    var t := WithoutFinalNewline(s);
    if |t| < |s| {
      assert s[|s| - 1] == '\n';
    }
  }

  lemma {:induction false} MatchRunsKebab(s: string, i: nat)
    requires i <= |WithoutFinalNewline(s)|
    ensures MatchRuns(s, i) <==> IsKebab(WithoutFinalNewline(s)[i..])
    decreases |s| - i
  {
    var t := WithoutFinalNewline(s);
    var j := RunEnd(s, i);
    RunEndWithinText(s, i);
    var u := t[i..];
    forall m | 0 <= m < j - i ensures IsLowerAlnum(u[m]) {
      assert u[m] == s[i + m];
    }
    if j < |t| {
      assert u[j - i] == s[j];
    }
    KebabUnfold(u, j - i);
    if j < |t| {
      MatchRunsKebab(s, j + 1);
      assert u[j - i + 1..] == t[j + 1..];
    }
  }

  /** `validate_customer_slug`: the value itself when it matches, otherwise a format error. */
  function ValidateCustomerSlug(value: string): (r: Result<string, FieldError>)
    ensures r.Ok? <==> IsKebab(WithoutFinalNewline(value))
    ensures r.Ok? ==> r.value == value
    ensures r.Err? ==> r.error == Format(SlugMessage)
  {
    if !MatchesSlugPattern(value) then Err(Format(SlugMessage)) else Ok(value)
  }

  /** The `customer_slug` field: the stripped text, 1..255 characters, then the validator. */
  function CustomerSlugField(value: string): (r: Result<string, seq<FieldError>>)
    ensures r.Ok? <==> |Strip(value)| <= 255 && IsKebab(Strip(value))
    ensures r.Ok? ==> r.value == Strip(value)
  {
    StrippedHasNoFinalNewline(value);
    match CharField(value, 1, 255)
    case Err(e) => Err(e)
    case Ok(v) => match ValidateCustomerSlug(v) { case Ok(u) => Ok(u) case Err(e) => Err([e]) }
  }

  /** Slugs the source's tests accept. */
  lemma SlugAcceptedExamples()
    ensures ValidateCustomerSlug("redbox-logistics") == Ok("redbox-logistics")
    ensures ValidateCustomerSlug("a-b-c") == Ok("a-b-c")
  {
    assert IsKebab("redbox-logistics");
    assert IsKebab("a-b-c");
  }

  /** Slugs that are rejected: upper case and underscore, leading, trailing or doubled '-'. */
  lemma SlugRejectedExamples()
    ensures ValidateCustomerSlug("Invalid_Slug") == Err(Format(SlugMessage))
    ensures ValidateCustomerSlug("-a") == Err(Format(SlugMessage))
    ensures ValidateCustomerSlug("a-") == Err(Format(SlugMessage))
    ensures ValidateCustomerSlug("a--b") == Err(Format(SlugMessage))
  {
    assert "Invalid_Slug"[0] == 'I';
    assert "-a"[0] == '-';
    assert "a-"[1] == '-';
    assert "a--b"[1] == '-' && "a--b"[2] == '-';
  }

  /** The `customer_name` field: the stripped text, 1..255 characters, no null character. */
  function CustomerNameField(value: string): (r: Result<string, seq<FieldError>>)
    ensures r.Ok? <==> 1 <= |Strip(value)| <= 255 && '\0' !in Strip(value)
    ensures r.Ok? ==> r.value == Strip(value)
  {
    CharField(value, 1, 255)
  }

  /** Surrounding whitespace is stripped from a name. */
  lemma CustomerNameStripped()
    ensures CustomerNameField(" Ab\t") == Ok("Ab")
  {
    assert Strip(" Ab\t") == "Ab" by {
      assert SkipSpaces(" Ab\t", 0) == 1;
      assert SkipSpacesBack(" Ab\t", 1, 4) == 3;
    }
  }

  /** A name holding a null character is refused. */
  lemma CustomerNameNullCharacter()
    ensures CustomerNameField("a\0b") == Err([NullCharacter])
  {
    assert Strip("a\0b") == "a\0b";
    assert "a\0b"[1] == '\0';
    assert [] + [] + [NullCharacter] == [NullCharacter];
  }

  /** A name of whitespace only is blank. */
  lemma CustomerNameBlank()
    ensures CustomerNameField(" \n") == Err([Blank])
  {
    StripBlank(" \n");
  }

  // ---------------------------------------------------------------------
  // The weight, `DecimalField(max_digits=10, decimal_places=3, min_value=0.001)`.

  /** A Python `Decimal` by its tuple: the value is (-1)^negative * coefficient * 10^exponent. */
  datatype Decimal = Decimal(negative: bool, coefficient: nat, exponent: int)

  const MaxDigits: nat := 10
  const DecimalPlaces: nat := 3
  const MaxWholeDigits: nat := MaxDigits - DecimalPlaces

  function Pow10(k: nat): (p: nat)
    ensures p >= 1
  {
    if k == 0 then 1 else 10 * Pow10(k - 1)
  }

  /** Length of the digit tuple of a coefficient; 0 has the one digit 0. */
  function NumDigits(c: nat): (n: nat)
    ensures n >= 1
  {
    if c < 10 then 1 else 1 + NumDigits(c / 10)
  }

  datatype Precision = Precision(totalDigits: nat, wholeDigits: nat, decimalPlaces: nat)

  /** The three counts the precision check of the field compares against its bounds. */
  function PrecisionOf(d: Decimal): (p: Precision)
    ensures p.decimalPlaces == if d.exponent >= 0 then 0 else -d.exponent
    ensures p.totalDigits == p.wholeDigits + p.decimalPlaces
    ensures p.totalDigits >= NumDigits(d.coefficient)
  {
    var n := NumDigits(d.coefficient);
    if d.exponent >= 0 then Precision(n + d.exponent, n + d.exponent, 0)
    else if n > -d.exponent then Precision(n, n + d.exponent, -d.exponent)
    else Precision(-d.exponent, 0, -d.exponent)
  }

  predicate WithinPrecision(d: Decimal)
  {
    var p := PrecisionOf(d);
    p.totalDigits <= MaxDigits && p.decimalPlaces <= DecimalPlaces && p.wholeDigits <= MaxWholeDigits
  }

  /** A positive coefficient has at most k digits exactly when it is below 10^k. */
  lemma {:induction false} NumDigitsBelow(c: nat, k: nat)
    requires c > 0
    ensures NumDigits(c) <= k <==> c < Pow10(k)
  {
    if k > 0 {
      if c >= 10 {
        NumDigitsBelow(c / 10, k - 1);
        assert c / 10 < Pow10(k - 1) <==> c < 10 * Pow10(k - 1);
      } else {
        Pow10AtLeastTen(k);
      }
    }
  }

  lemma {:induction false} Pow10AtLeastTen(k: nat)
    requires k > 0
    ensures Pow10(k) >= 10
  {
    if k > 1 {
      Pow10AtLeastTen(k - 1);
    }
  }

  lemma {:induction false} Pow10Add(a: nat, b: nat)
    ensures Pow10(a + b) == Pow10(a) * Pow10(b)
  {
    if a > 0 {
      Pow10Add(a - 1, b);
      assert Pow10(a + b) == 10 * Pow10(a - 1 + b);
    }
  }

  /** Multiplying both sides by a positive factor keeps a strict order. */
  lemma MulKeepsOrder(x: nat, y: nat, p: nat)
    requires p > 0
    ensures x < y <==> x * p < y * p
  {
    if x < y {
      assert y * p - x * p == (y - x) * p;
    } else {
      assert x * p - y * p == (x - y) * p;
    }
  }

  /** Scaling a positive coefficient by 10^a keeps it below 10^m exactly when it was below 10^(m-a). */
  lemma ScaledBelow(c: nat, a: nat, m: nat)
    requires c > 0
    ensures a <= m ==> (c * Pow10(a) < Pow10(m) <==> c < Pow10(m - a))
    ensures a > m ==> c * Pow10(a) >= Pow10(m)
  {
    if a <= m {
      Pow10Add(m - a, a);
      MulKeepsOrder(c, Pow10(m - a), Pow10(a));
    } else {
      Pow10Add(a - m, m);
      assert c * Pow10(a) >= 1 * Pow10(a) by {
        MulKeepsOrder(c, 1, Pow10(a));
      }
      assert Pow10(a - m) * Pow10(m) >= 1 * Pow10(m) by {
        MulKeepsOrder(Pow10(a - m), 1, Pow10(m));
      }
    }
  }

  /** The magnitude in thousandths, exact when there are at most three decimal places. */
  function Thousandths(d: Decimal): nat
    requires d.exponent >= -3
  {
    d.coefficient * Pow10(d.exponent + 3)
  }

  /**
   * What the precision check means for a nonzero weight: at most three
   * decimal places and a magnitude below 10^7, that is below 10^10 thousandths.
   */
  lemma PrecisionAsValue(d: Decimal)
    requires d.coefficient > 0
    ensures WithinPrecision(d) <==> d.exponent >= -3 && Thousandths(d) < Pow10(10)
  {
    var c, e := d.coefficient, d.exponent;
    var n := NumDigits(c);
    if e >= 0 {
      ScaledBelow(c, e + 3, 10);
      if e + 3 <= 10 {
        NumDigitsBelow(c, 7 - e);
      }
    } else if e >= -3 {
      ScaledBelow(c, e + 3, 10);
      NumDigitsBelow(c, 7 - e);
    }
  }

  /** Quantization to three decimal places; exact once the precision check has passed. */
  function Quantize(d: Decimal): (q: Decimal)
    requires d.exponent >= -3
    ensures q.exponent == -3 && q.negative == d.negative
    ensures Thousandths(q) == Thousandths(d)
  {
    Decimal(d.negative, Thousandths(d), -3)
  }

  /** The precision check, in the order the field reports its errors. */
  function CheckPrecision(d: Decimal): (r: Result<Decimal, FieldError>)
    ensures r.Ok? <==> WithinPrecision(d)
    ensures r.Ok? ==> r.value == d
  {
    var p := PrecisionOf(d);
    if p.totalDigits > MaxDigits then Err(MaxDigitsExceeded(MaxDigits))
    else if p.decimalPlaces > DecimalPlaces then Err(MaxDecimalPlacesExceeded(DecimalPlaces))
    else if p.wholeDigits > MaxWholeDigits then Err(MaxWholeDigitsExceeded(MaxWholeDigits))
    else Ok(d)
  }

  /** The exact value a decimal stands for. */
  function Value(d: Decimal): real
  {
    var magnitude := if d.exponent >= 0 then (d.coefficient * Pow10(d.exponent)) as real
                     else d.coefficient as real / Pow10(-d.exponent) as real;
    if d.negative then -magnitude else magnitude
  }

  /** A decimal with three places is its coefficient in thousandths. */
  lemma ValueInThousandths(q: Decimal)
    requires q.exponent == -3
    ensures Value(q) == if q.negative then -(q.coefficient as real / 1000.0) else q.coefficient as real / 1000.0
  {
    assert Pow10(3) == 1000;
  }

  /** `min_value=0.001` read as the decimal 0.001, tested on a quantized value. */
  function AtLeastMinimum(q: Decimal): (b: bool)
    requires q.exponent == -3
    ensures b <==> Value(q) >= 0.001
  {
    ValueInThousandths(q);
    !q.negative && q.coefficient >= 1
  }

  /**
   * The weight field: precision check, quantization to three places, then the
   * lower bound 0.001. The result keeps the value and has exactly three places.
   */
  function WeightField(d: Decimal): (r: Result<Decimal, FieldError>)
    ensures r.Ok? <==> WithinPrecision(d) && !d.negative && Thousandths(d) >= 1
    ensures r.Ok? ==> r.value.exponent == -3 && !r.value.negative
                      && Thousandths(r.value) == Thousandths(d)
  {
    match CheckPrecision(d)
    case Err(e) => Err(e)
    case Ok(v) =>
      var q := Quantize(v);
      if !AtLeastMinimum(q) then Err(BelowMinimum) else Ok(q)
  }

  /** The exact value of the binary double nearest to 0.001 is FloatMinNumerator / 2^60. */
  const FloatMinNumerator: nat := 1152921504606847
  const TwoTo60: nat := 1152921504606846976
  const FloatMinimum: real := FloatMinNumerator as real / TwoTo60 as real

  /** The float bound lies strictly between 0.001 and 0.002. */
  lemma FloatMinimumValue()
    ensures 0.001 < FloatMinimum < 0.002
  {
  }

  /**
   * The lower bound as the source has it: `min_value` is the float 0.001 and
   * a Decimal is compared with a float exactly, so the bound is the double
   * nearest to 0.001, which lies slightly above it.
   */
  function AtLeastFloatMinimum(q: Decimal): (b: bool)
    requires q.exponent == -3
    ensures b <==> Value(q) >= FloatMinimum
  {
    ValueInThousandths(q);
    !q.negative && q.coefficient * TwoTo60 >= 1000 * FloatMinNumerator
  }

  /** The weight field as written, with the float lower bound. */
  function WeightFieldAsWritten(d: Decimal): (r: Result<Decimal, FieldError>)
    ensures r.Ok? ==> WithinPrecision(d) && !d.negative && Thousandths(d) >= 2
  {
    match CheckPrecision(d)
    case Err(e) => Err(e)
    case Ok(v) =>
      var q := Quantize(v);
      if !AtLeastFloatMinimum(q) then Err(BelowMinimum) else Ok(q)
  }

  /** As written, exactly the weights equal to 0.001 are lost: 0.001 is rejected, 0.002 accepted. */
  lemma FloatMinimumRejectsOneThousandth(d: Decimal)
    ensures WeightFieldAsWritten(d).Ok? <==>
              WeightField(d).Ok? && Thousandths(d) != 1
    ensures WeightFieldAsWritten(Decimal(false, 1, -3)) == Err(BelowMinimum)
    ensures WeightFieldAsWritten(Decimal(false, 2, -3)).Ok?
  {
    if WithinPrecision(d) && !d.negative {
      var c := Thousandths(d);
      assert c * TwoTo60 >= 1000 * FloatMinNumerator <==> c >= 2;
    }
    assert Thousandths(Decimal(false, 2, -3)) == 2;
  }

  /** Zero and negative weights are rejected; 1.234 is accepted unchanged. */
  lemma WeightExamples(d: Decimal)
    requires d.coefficient == 0 || d.negative
    ensures WeightField(d).Err?
    ensures WeightField(Decimal(false, 1234, -3)) == Ok(Decimal(false, 1234, -3))
    ensures WeightField(Decimal(false, 1, -3)).Ok?
  {
    if WithinPrecision(d) && !d.negative {
      assert Thousandths(d) == 0;
    }
  }

  /**
   * A weight the field accepts is at least 0.001, has at most three decimal
   * places, at most ten digits and at most seven digits before the point.
   */
  lemma AcceptedWeightBounds(d: Decimal)
    requires WeightField(d).Ok?
    ensures PrecisionOf(d).decimalPlaces <= 3
    ensures PrecisionOf(d).totalDigits <= 10
    ensures PrecisionOf(d).wholeDigits <= 7
    ensures d.coefficient * Pow10(d.exponent + 3) >= 1
  {
  }

  /** 12345678.9 has nine digits in all but eight before the point. */
  lemma WholeDigitsBound()
    ensures WeightField(Decimal(false, 123456789, -1)) == Err(MaxWholeDigitsExceeded(7))
  {
    assert NumDigits(123456789) == 9;
  }
}
