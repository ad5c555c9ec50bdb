# Tracking-number API core, modelled in Dafny

This project models the core of a Django REST service that issues parcel
tracking numbers (`tracking/services.py`, `tracking/serializers.py`,
`tracking/middleware.py`, `tracking/exceptions.py`), and proves properties of
that model.

- `ascii.dfy`: ASCII character classes and `str.upper()` on ASCII text.
- `base36.dfy`: `TrackingNumberGenerator._to_base36`.
  - The loop is a method proved against a recursive `Encode`.
  - `Decode` is a reference inverse, with both round trips proved.
- `generator.dfy`: `generate_tracking_number`.
  - SHA-256 is a parameter of type `Hasher`, a function into 64-character lowercase hex strings.
  - Every property holds for any such function.
  - The main result: for valid country codes, the number is the two codes followed by 1 to 10 base-36 digits, so it has 5 to 14 characters and matches `^[A-Z0-9]{1,16}$`.
- `serializers.dfy`: `TrackingNumberRequestSerializer`.
  - Covers the CharField length bounds, the three regex validators and the weight's `DecimalField`.
  - `re.match` with a trailing `$` is modelled exactly: `$` also matches just before a final `"\n"`.
  - The slug regex is proved equivalent to a plain definition of kebab case.
- `service.dfy`: `TrackingService.create_tracking_number` and `_log_tracking_request`.
  - The retry loop is a method.
  - It is proved equal to a recursive specification `Run`.
  - `Run` is proved equal to a loop-free description, `Expected`.
  - The behaviour lemmas are read off `Expected`: how many attempts, which ids, the result and the audit rows.
- `exceptions.dfy`: the three exception classes and `custom_exception_handler`.
- `middleware.dfy`: `RequestLoggingMiddleware`, with `Request` as a class whose attributes the middleware sets.
- `http.dfy`: a `Response` class whose body the exception handler replaces.
- `wrappers.dfy`: `Option` and `Result`.

Inputs from outside the program are parameters of the model:

- the SHA-256 function;
- the clock (`now`);
- the fresh UUIDs (`freshId`, `freshIds`);
- how each database insert and each generator call turns out (`AttemptEnv`);
- whether the metrics write raises (`storeFails`).

Where the code's docstrings and the parameter list documented in `tracking/views.py:20-28` promise something the code does not do, the model follows the code. The exceptions are the two places listed under "## Findings". There, the code as written and the evidently intended behaviour are both modelled, and the rest of the model uses the intended one. The places where the code and its documentation differ:

- The two country validators and the slug validator accept a value with one trailing `"\n"`, because that is what `re.match` with `$` does. A country validator called directly returns `"my\n"` as `"MY\n"`. A request value never reaches a validator that way: `CharField` strips surrounding whitespace first, so the field turns `"my\n"` into `"MY"`.
- The weight field allows at most 7 digits before the point, which is `max_digits - decimal_places`. The view documents only "up to 3 decimal places".
- The view documents weights of up to three decimal places, but the float lower bound at `tracking/serializers.py:13` refuses 0.001 as written. The model records this as a finding and its weight field uses the bound 0.001.
- The docstring at `tracking/services.py:103-105` promises a retry on collision, but the collision branch cannot be reached as written. The model records this as a finding and uses the evidently intended behaviour.

## Model

| member | source | states |
|---|---|---|
| Ascii.Upper | tracking/serializers.py:21 | `value.upper()` on ASCII text: same length, each `a-z` letter raised, every other character unchanged |
| Ascii.UpperFixesNonLower | tracking/services.py:59 | upper-casing text that has no lowercase letter leaves it unchanged |
| Ascii.UpperIdempotent | tracking/serializers.py:25 | upper-casing twice is the same as once |
| Base36.DigitChar | tracking/services.py:86 | every digit value below 36 is written as an upper alphanumeric |
| Base36.DigitValue | tracking/services.py:86 | the position of an upper alphanumeric in the digit alphabet, below 36 |
| Base36.DigitsTable | tracking/services.py:86 | the alphabet string has 36 characters, and its d-th is the digit written for d |
| Base36.DigitRoundTrip | tracking/services.py:90 | looking a digit up and back gives the digit |
| Base36.CharRoundTrip | tracking/services.py:90 | looking a character up and back gives the character |
| Base36.DigitsOf | tracking/services.py:89-91 | the digits the loop prepends: none exactly for 0, otherwise upper alphanumerics with no leading `0` |
| Base36.Encode | tracking/services.py:81-93 | `_to_base36(n)` is canonical (non-empty, upper alphanumeric, no leading zero unless it is `"0"`), and is `"0"` exactly for 0 |
| Base36.DecodeDigitsOf | tracking/services.py:89-91 | reading the produced digits in base 36 gives the number back |
| Base36.DecodeEncode | tracking/services.py:81-93 | decoding `_to_base36(n)` gives `n` |
| Base36.DecodePositive | tracking/services.py:89-91 | a canonical numeral other than `"0"` denotes a positive number |
| Base36.EncodeDecode | tracking/services.py:81-93 | every canonical base-36 numeral is `_to_base36` of its value |
| Base36.DigitsOfLength | tracking/services.py:89-91 | a number below 36^k has at most k digits |
| Base36.EncodeLength | tracking/services.py:81-93 | `_to_base36(n)` has at most k characters when n < 36^k |
| Base36.KnownEncodings | tracking/services.py:83-93 | 0, 35, 36 and 1295 encode as `0`, `Z`, `10` and `ZZ` |
| Base36.ToBase36 | tracking/services.py:81-93 | the loop computes the encoding: a canonical numeral whose value is the input, with no leading zero for positive input |
| Generator.HexValue | tracking/services.py:52 | a lowercase hex digit has a value below 16 |
| Generator.ParseHex | tracking/services.py:52 | `int(h, 16)` of k lowercase hex digits is below 16^k |
| Generator.BaseNumber | tracking/services.py:37-52 | the number read from the first 12 hex characters of the second digest is below 16^12 |
| Generator.Take | tracking/services.py:53 | Python slicing `s[:n]`: the whole text when it has at most n characters, otherwise its first n |
| Generator.StripHyphens | tracking/services.py:45 | `replace('-', '')` leaves no hyphen, never lengthens the text, and keeps a text without hyphens |
| Generator.StripHyphensAppend | tracking/services.py:45 | removing hyphens distributes over concatenation, so the other characters keep their order |
| Generator.StripHyphensChar | tracking/services.py:45 | on one character, a `-` is dropped and anything else kept |
| Generator.TrackingNumber | tracking/services.py:16-78 | the number has at most 16 characters and no lowercase letter, and starts with the upper-cased codes when they fit |
| Generator.PowerBounds | tracking/services.py:52-53 | 16^12 < 36^10, so twelve hex digits fit in ten base-36 digits |
| Generator.BaseNumberFitsTenDigits | tracking/services.py:52-53 | the base number's encoding has 1 to 10 characters, so the `[:10]` cut never removes a digit |
| Generator.TrackingNumberShape | tracking/services.py:37-59 | for two valid country codes, the number is the codes followed by the full encoding of the base number: 5 to 14 characters matching `^[A-Z0-9]{1,16}$` |
| Generator.CustomerNameIgnored | tracking/services.py:37 | the customer name does not affect the number |
| Generator.StripHyphensIdempotent | tracking/services.py:45 | removing hyphens twice is the same as once |
| Generator.CorrelationHyphensIgnored | tracking/services.py:45 | correlation ids that differ only in hyphens give the same number |
| Serializers.Strip | tracking/serializers.py:11 | `str.strip()`, which `CharField` applies first: never longer, keeps a text with no whitespace at either end, and leaves none at either end |
| Serializers.StripIsSlice | tracking/serializers.py:11 | the stripped text is the input with a whitespace prefix and a whitespace suffix removed, and nothing else |
| Serializers.StripBlank | tracking/serializers.py:11 | stripping leaves nothing exactly when the text is all whitespace |
| Serializers.StrippedHasNoFinalNewline | tracking/serializers.py:21 | a stripped text, and its upper-casing, never end in `"\n"`, so the `$` quirk cannot arise behind a field |
| Serializers.CharField | tracking/serializers.py:11 | `CharField(min_length, max_length)`: a blank stripped text gives the blank error alone; otherwise it accepts exactly a stripped text of allowed length with no null character, and returns it; on failure the error list holds too-long, too-short and null-character errors exactly when each applies |
| Serializers.WithoutFinalNewline | tracking/serializers.py:21 | where a trailing `$` can match: only at the end of the text with one final newline removed |
| Serializers.MatchesCountryPattern | tracking/serializers.py:21 | `re.match(r'^[A-Z]{2}$', s)` matches exactly two letters `A-Z`, up to one final newline |
| Serializers.ValidateCountryId | tracking/serializers.py:19-33 | accepts exactly the values whose upper-casing is two letters `A-Z`, up to one final newline; on success returns the upper-cased value, otherwise a format error with the given message |
| Serializers.ValidateOriginCountryId | tracking/serializers.py:19-25 | the origin validator with its own message |
| Serializers.ValidateDestinationCountryId | tracking/serializers.py:27-33 | the destination validator with its own message |
| Serializers.OriginCountryField | tracking/serializers.py:11 | the field plus validator accept exactly the values whose stripped, upper-cased text is a country code, and return that text |
| Serializers.DestinationCountryField | tracking/serializers.py:12 | the same for the destination |
| Serializers.CountryValidatorsAgree | tracking/serializers.py:19-33 | the origin and destination validators accept the same values and produce the same result |
| Serializers.CountryValidationIdempotent | tracking/serializers.py:19-25 | an accepted code goes through the field and through the validator again unchanged |
| Serializers.CountryAcceptedExample | tracking/serializers.py:11-25 | `my` becomes `MY` |
| Serializers.CountryTooLongExample | tracking/serializers.py:11 | `USA` gets the too-long error alone |
| Serializers.CountryFormatExample | tracking/serializers.py:19-25 | `M1` has the right length and gets the origin format message |
| Serializers.CountryTrailingNewline | tracking/serializers.py:11-25 | the validator called directly accepts `"my\n"` as `"MY\n"`; through the field the newline is stripped and the result is `"MY"` |
| Serializers.RunEnd | tracking/serializers.py:59 | the greedy `[a-z0-9]+` run stops at the first character outside the class |
| Serializers.KebabUnfold | tracking/serializers.py:59 | kebab case is a first run, then nothing or `-` and kebab case |
| Serializers.RunEndWithinText | tracking/serializers.py:59 | a run never takes in the final newline |
| Serializers.MatchRuns | tracking/serializers.py:59 | defines the match of `[a-z0-9]+(-[a-z0-9]+)*$` from a position, taking the greedy run; its meaning is stated by MatchRunsKebab |
| Serializers.MatchRunsKebab | tracking/serializers.py:59 | matching from any position succeeds exactly when the rest of the text, up to a final newline, is kebab case |
| Serializers.MatchesSlugPattern | tracking/serializers.py:59 | `re.match(r'^[a-z0-9]+(-[a-z0-9]+)*$', s)` matches exactly the kebab-case texts, up to a final newline |
| Serializers.ValidateCustomerSlug | tracking/serializers.py:57-63 | accepts exactly kebab case, up to a final newline, and returns the value unchanged; otherwise the slug message |
| Serializers.CustomerSlugField | tracking/serializers.py:17 | accepts exactly when the stripped text has at most 255 characters and is kebab case, and returns the stripped text |
| Serializers.SlugAcceptedExamples | tracking/serializers.py:57-63 | `redbox-logistics` and `a-b-c` are accepted |
| Serializers.SlugRejectedExamples | tracking/serializers.py:57-63 | `Invalid_Slug`, `-a`, `a-` and `a--b` are rejected |
| Serializers.CustomerNameField | tracking/serializers.py:16 | accepts exactly when the stripped text has 1 to 255 characters and no null character, and returns the stripped text |
| Serializers.CustomerNameStripped | tracking/serializers.py:16 | `" Ab\t"` is accepted as `"Ab"` |
| Serializers.CustomerNameNullCharacter | tracking/serializers.py:16 | `"a\0b"` gets the null-character error |
| Serializers.CustomerNameBlank | tracking/serializers.py:16 | whitespace alone gets the blank error |
| Serializers.PrecisionOf | tracking/serializers.py:13 | the decimal places count is minus the exponent when negative; total digits are whole digits plus places, and at least the coefficient's digit count |
| Serializers.NumDigitsBelow | tracking/serializers.py:13 | the digit count the precision check uses: a positive coefficient has at most k digits exactly when it is below 10^k |
| Serializers.PrecisionAsValue | tracking/serializers.py:13 | a nonzero weight passes `max_digits=10, decimal_places=3` exactly when it has at most three decimal places and its magnitude is below 10^7 |
| Serializers.Quantize | tracking/serializers.py:13 | quantizing to three places keeps sign and value |
| Serializers.CheckPrecision | tracking/serializers.py:13 | passes exactly the decimals with at most 10 digits, 3 places and 7 whole digits, unchanged |
| Serializers.Value | tracking/serializers.py:13 | defines the exact rational value of a decimal, which the two lower bounds are stated against |
| Serializers.ValueInThousandths | tracking/serializers.py:13 | a decimal with three places is its coefficient in thousandths |
| Serializers.AtLeastMinimum | tracking/serializers.py:13 | the corrected lower bound holds exactly when the value is at least 0.001 |
| Serializers.AtLeastFloatMinimum | tracking/serializers.py:13 | the lower bound as written holds exactly when the value is at least the double nearest 0.001 |
| Serializers.FloatMinimumValue | tracking/serializers.py:13 | that double lies strictly between 0.001 and 0.002 |
| Serializers.WeightField | tracking/serializers.py:13 | accepts exactly the non-negative decimals within precision that are at least 0.001, and returns the same value with three places |
| Serializers.WeightFieldAsWritten | tracking/serializers.py:13 | with the float bound, an accepted weight is at least 0.002 |
| Serializers.FloatMinimumRejectsOneThousandth | tracking/serializers.py:13 | the float bound accepts exactly what the decimal bound accepts, except 0.001 |
| Serializers.WeightExamples | tracking/serializers.py:13 | under the corrected decimal bound: zero and negative weights are rejected; 1.234 and 0.001 are accepted (as written, 0.001 is rejected; see Findings) |
| Serializers.AcceptedWeightBounds | tracking/serializers.py:13 | an accepted weight has at most 3 places, 10 digits and 7 whole digits, and is at least one thousandth |
| Serializers.WholeDigitsBound | tracking/serializers.py:13 | 12345678.9 fails the whole-digits bound of 7 |
| Service.NumberFor | tracking/services.py:111-120 | defines the generator call with the validated fields and the id in effect; its properties are stated by Generator.TrackingNumberShape and Service.SuccessfulResponse |
| Service.ErrorMessage | tracking/services.py:157-163 | defines the message of the exception a failed request raises; stated by Service.RequestExhausted and Service.RequestFailure |
| Service.LogTrackingRequest | tracking/services.py:170-180 | the audit row carries the number, the id in effect and every request field the insert passes: origin, destination, `str(weight)`, customer id, name, slug and `created_at` |
| Service.Respond | tracking/services.py:124-134 | the response echoes origin, destination, `str(weight)` and slug, with the number, the id and the time |
| Service.AttemptAsWritten | tracking/services.py:109-157 | as written, an attempt never ends in a collision; it succeeds exactly when generation does |
| Service.AsWrittenReturnsDuplicate | tracking/services.py:165-186 | as written, an insert refused by the unique constraint is returned as a success, where the retry was meant |
| Service.Attempt | tracking/services.py:109-157 | an attempt collides exactly when generation succeeds and the insert hits the unique constraint; it fails exactly when generation raises |
| Service.Ids | tracking/services.py:119 | the ids in order of use: the caller's id, then one fresh id per conflict |
| Service.AuditRows | tracking/services.py:122 | one audit row per attempt that reached the insert |
| Service.AuditRowsAt | tracking/services.py:122 | the k-th audit row is the one built with the k-th id and its number |
| Service.Run | tracking/services.py:107-163 | defines the retry loop from a given attempt as a recursive function; its meaning is stated by Service.RunIsExpected |
| Service.Request | tracking/services.py:102-163 | defines a whole request as the loop from the first attempt with the caller's id; stated by Service.RequestIsExpected |
| Service.CreateTrackingNumber | tracking/services.py:102-163 | the loop ends with the result, ids used and audit rows of the retry specification |
| Service.Stop | tracking/services.py:108 | the first attempt that does not collide: all attempts before it collided, and it did not |
| Service.Expected | tracking/services.py:107-163 | defines, without the loop, how a request ends: attempts up to the first that does not collide, with the ids in order; its consequences are the Request lemmas |
| Service.RunIsExpected | tracking/services.py:108-157 | the retry loop from any attempt reached by conflicts ends as the loop-free description says |
| Service.RequestIsExpected | tracking/services.py:102-163 | a whole request ends as the loop-free description says |
| Service.RequestAttempts | tracking/services.py:107-151 | 1 to 3 attempts; the first uses the caller's id and each later one the fresh id drawn after the conflict before it; every attempt but the last collided |
| Service.RequestExhausted | tracking/services.py:158-163 | the exhaustion error is raised exactly when all three attempts collide; it carries the fixed message after three attempts |
| Service.RequestFailure | tracking/services.py:152-157 | a generator error ends the request at that attempt and is re-raised with its message, with no audit row for that attempt |
| Service.StopAt | tracking/services.py:108 | the first attempt that does not collide is the one named by the precondition |
| Service.RequestSuccess | tracking/services.py:111-143 | a success returns the number generated with the id then in effect, whose audit row is the last one; it echoes the metadata; the first attempt's id is the caller's |
| Service.SuccessfulResponse | tracking/services.py:37-59 | every number a request answers with is the two country codes followed by 1 to 10 base-36 digits |
| Exceptions.NewTrackingApiException | tracking/exceptions.py:12-16 | keeps message and status; a falsy error code becomes `TRACKING_ERROR`, so the code is never empty |
| Exceptions.NewValidationException | tracking/exceptions.py:25-31 | `VALIDATION_ERROR`, status 400, and the field |
| Exceptions.NewGenerationException | tracking/exceptions.py:37-42 | `GENERATION_ERROR`, status 500 |
| Exceptions.Str | tracking/exceptions.py:18-19 | defines `__str__` as the message; stated by Exceptions.StrIsMessage |
| Exceptions.StrIsMessage | tracking/exceptions.py:18-19 | `str(e)` is the message for all three classes |
| Exceptions.TrackingDefaults | tracking/exceptions.py:12-14 | no code or an empty code gives `TRACKING_ERROR`; the status defaults to 500 |
| Exceptions.ErrorPayload | tracking/exceptions.py:66-76 | the body holds `error` and `status_code`; `correlation_id` exactly when it is truthy; `details` exactly when the exception has one; no other key |
| Exceptions.CustomExceptionHandler | tracking/exceptions.py:45-80 | returns the framework's response; when there is one, its status is kept and its body becomes the error payload |
| Middleware.FirstField | tracking/middleware.py:68 | `split(',')[0]`: the prefix before the first comma, or the whole text |
| Middleware.GetClientIp | tracking/middleware.py:64-71 | a non-empty X-Forwarded-For gives its first entry; otherwise REMOTE_ADDR when present, else none |
| Middleware.FirstFieldNoComma | tracking/middleware.py:68 | a header without a comma is returned whole |
| Middleware.ForwardedForExample | tracking/middleware.py:66-68 | `" a ,b"` gives `" a "`, untrimmed |
| Middleware.RemoteAddrExamples | tracking/middleware.py:66-71 | an empty or missing X-Forwarded-For falls back to REMOTE_ADDR; with neither, none |
| Middleware.ProcessRequest | tracking/middleware.py:13-19 | sets the start time; sets a fresh correlation id only when none is present; nothing else changes |
| Middleware.TruncateToInt | tracking/middleware.py:36 | `int(x)` truncates toward zero |
| Middleware.ProcessResponse | tracking/middleware.py:33-62 | the response comes back unchanged; a metrics row is stored exactly when the request has a start time and the write does not raise, with path, method, status, elapsed milliseconds and the id, or `unknown` |

## Left out

- SHA-256 itself is a parameter. Any function into 64-character lowercase hex strings is allowed, so no collision-resistance or uniqueness claim is made.
- The text of `float(weight)` in the first digest, and the microsecond timestamp `int(created_at.timestamp() * 1000000)`, are given as strings. Floating-point formatting and time-zone arithmetic are not modelled.
- `uuid.uuid4()`, `time.time()` and `datetime.now()` are parameters.
- `parse_datetime` in `validate_created_at` and `uuid.UUID` in `validate_customer_id` are not modelled. Both come from outside the core.
- Logging calls are not modelled. They do not affect results.
- The ORM is not modelled. An insert's outcome, a metrics write's failure, and an error raised inside the generator are inputs.
- The text-to-Decimal parsing of the weight is not modelled; the field starts from a parsed `Decimal`. Neither is the quantize overflow check, which cannot fire once the precision check has passed.
- A missing or null field (the `required` and `null` errors) and JSON values that are not strings are not modelled. Every string field starts from a string.
- Serializers.CharField: the surrogate-character validator is not modelled. A Dafny `char` is a Unicode scalar value and cannot hold a lone surrogate.
- Serializers.CharField: errors are kept as a list of kinds, without their message texts.
- Middleware.ProcessResponse: the elapsed milliseconds are computed in exact real arithmetic. The source subtracts and multiplies two floats before `int()`, so near a whole number of milliseconds the source can give a value one lower or higher.
- `str.upper()` is modelled on ASCII only. Non-ASCII case mapping is not.
- Serializers.ValidateCountryId: "is ISO 3166-1 alpha-2" is modelled as two letters `A-Z`, because that is all the regex checks.
- Service.CreateTrackingNumber: the exhaustion error is a plain `Exception` in the source. It is modelled as `Exhausted` with the source's message.
- Service.CreateTrackingNumber: `validated_data['weight']` is kept as two texts, `str(weight)` and the text of `float(weight)`. Their relation is not modelled.
- `views.py`, `models.py` and the framework's default exception handler are not part of this model. The handler's result is a parameter.

## Findings

| source | as written | input that shows it | evidently intended | confidence | as-written member | corrected member |
|---|---|---|---|---|---|---|
| tracking/services.py:181 | `_log_tracking_request` catches every exception, including the `IntegrityError` of a duplicate tracking number, so the retry branch at services.py:144 is never reached | an attempt whose generator succeeds and whose insert hits the unique constraint: the duplicate number is returned as a success | a unique-constraint conflict reaches the retry loop, which retries with a fresh correlation id | high; not executed | Service.AsWrittenReturnsDuplicate | Service.Attempt |
| tracking/serializers.py:13 | `min_value=0.001` is a float, and DRF compares the Decimal with it exactly. The nearest double to 0.001 is slightly above it. | weight `0.001` is rejected as below the minimum | 0.001 is the smallest accepted weight | medium; not executed | Serializers.FloatMinimumRejectsOneThousandth | Serializers.WeightField |
