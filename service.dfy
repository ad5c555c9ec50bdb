/**
 * `TrackingService.create_tracking_number`: up to three attempts, each
 * generating a number and inserting its audit row; a uniqueness conflict
 * rotates the correlation id and tries again, any other error ends the
 * request at once. The database, the clock and the id source are inputs:
 * `env[k]` says how attempt k's generator call and insert turn out,
 * `freshIds[k]` is the id drawn after the k-th conflict, `now` the time.
 */
module Service {
  import opened Wrappers
  import Generator
  import Serializers

  const MaxRetries: nat := 3
  const ExhaustedMessage := "Failed to create a unique tracking number after multiple attempts."

  /**
   * `validated_data` as the service reads it. `weightText` is `str(weight)` of
   * the decimal; `weightSeedText` the text of `float(weight)` in the seed;
   * `timestampText` the decimal microsecond timestamp of `createdAt`.
   */
  datatype ValidatedData = ValidatedData(
    originCountryId: string, destinationCountryId: string,
    weightText: string, weightSeedText: string,
    createdAt: string, timestampText: string,
    customerId: string, customerName: string, customerSlug: string)

  datatype RequestMetadata = RequestMetadata(
    originCountry: string, destinationCountry: string, weightKg: string, customerSlug: string)

  datatype TrackingResponse = TrackingResponse(
    trackingNumber: string, createdAt: string, correlationId: string, requestMetadata: RequestMetadata)

  /** The row `_log_tracking_request` asks the database to insert. */
  datatype AuditRecord = AuditRecord(
    trackingNumber: string, originCountryId: string, destinationCountryId: string,
    weight: string, customerId: string, customerName: string, customerSlug: string,
    requestTimestamp: string, correlationId: string)

  /** The database's answer to that insert. */
  datatype InsertResult = Inserted | UniqueViolation | DatabaseError

  /** How one attempt's surroundings behave: an error raised by the generator, if any, and the insert's answer. */
  datatype AttemptEnv = AttemptEnv(generatorError: Option<string>, insert: InsertResult)

  /** What the body of one attempt ends with, as the retry loop sees it. */
  datatype AttemptOutcome = Success(insert: InsertResult) | Collision | Failure(message: string)

  datatype ServiceError = Exhausted | Unexpected(message: string)

  /** The message of the exception the request raises: the fixed text, or the one re-raised. */
  function ErrorMessage(e: ServiceError): string
  {
    match e
    case Exhausted => ExhaustedMessage
    case Unexpected(m) => m
  }

  /** The generator applied to the validated data and a correlation id. */
  function NumberFor(hash: Generator.Hasher, data: ValidatedData, correlationId: string): string
  {
    Generator.TrackingNumber(hash, data.originCountryId, data.destinationCountryId,
                             data.weightSeedText, data.timestampText, data.customerId,
                             data.customerName, data.customerSlug, correlationId)
  }

  /** `_log_tracking_request`'s row: the request's fields, the number and the id in effect. */
  function LogTrackingRequest(data: ValidatedData, trackingNumber: string, correlationId: string): (row: AuditRecord)
    ensures row.trackingNumber == trackingNumber && row.correlationId == correlationId
    ensures row.originCountryId == data.originCountryId && row.destinationCountryId == data.destinationCountryId
    ensures row.customerName == data.customerName && row.customerSlug == data.customerSlug
    ensures row.weight == data.weightText && row.customerId == data.customerId
    ensures row.requestTimestamp == data.createdAt
  {
    AuditRecord(trackingNumber, data.originCountryId, data.destinationCountryId, data.weightText,
                data.customerId, data.customerName, data.customerSlug, data.createdAt, correlationId)
  }

  /** The success envelope: origin, destination, `str(weight)` and slug echoed unchanged. */
  function Respond(data: ValidatedData, trackingNumber: string, correlationId: string, now: string): (r: TrackingResponse)
    ensures r.trackingNumber == trackingNumber && r.correlationId == correlationId && r.createdAt == now
    ensures r.requestMetadata == RequestMetadata(data.originCountryId, data.destinationCountryId,
                                                 data.weightText, data.customerSlug)
  {
    TrackingResponse(trackingNumber, now, correlationId,
      RequestMetadata(data.originCountryId, data.destinationCountryId, data.weightText, data.customerSlug))
  }

  /**
   * One attempt as the source has it. `_log_tracking_request` catches every
   * exception, the insert's IntegrityError included, so nothing inside the
   * attempt can raise IntegrityError and the retry branch is never taken.
   */
  function AttemptAsWritten(env: AttemptEnv): (o: AttemptOutcome)
    ensures o != Collision
    ensures o.Success? <==> env.generatorError.None?
  {
    if env.generatorError.Some? then Failure(env.generatorError.value) else Success(env.insert)
  }

  /** As written, a number whose audit row the unique constraint refused is returned as a success. */
  lemma AsWrittenReturnsDuplicate()
    ensures AttemptAsWritten(AttemptEnv(None, UniqueViolation)) == Success(UniqueViolation)
    ensures Attempt(AttemptEnv(None, UniqueViolation)) == Collision
  {
  }

  /**
   * One attempt with the uniqueness conflict let through to the retry loop,
   * as the loop's collision branch intends; every other audit failure is
   * still swallowed.
   */
  function Attempt(env: AttemptEnv): (o: AttemptOutcome)
    ensures o == Collision <==> env.generatorError.None? && env.insert == UniqueViolation
    ensures o.Failure? <==> env.generatorError.Some?
    ensures o.Success? ==> o.insert == env.insert && o.insert != UniqueViolation
  {
    if env.generatorError.Some? then Failure(env.generatorError.value)
    else if env.insert == UniqueViolation then Collision
    else Success(env.insert)
  }

  /** The correlation ids in order of use: the caller's, then one fresh id per conflict. */
  function Ids(correlationId: string, freshIds: seq<string>): (ids: seq<string>)
    ensures |ids| == |freshIds| + 1 && ids[0] == correlationId
    ensures forall k :: 0 < k < |ids| ==> ids[k] == freshIds[k - 1]
  {
    [correlationId] + freshIds
  }

  /** The audit rows of attempts made with the ids `ids`, in order. */
  function AuditRows(hash: Generator.Hasher, data: ValidatedData, ids: seq<string>): (rows: seq<AuditRecord>)
    ensures |rows| == |ids|
  {
    if ids == [] then []
    else
      var last := ids[|ids| - 1];
      AuditRows(hash, data, ids[..|ids| - 1]) + [LogTrackingRequest(data, NumberFor(hash, data, last), last)]
  }

  lemma {:induction false} AuditRowsAt(hash: Generator.Hasher, data: ValidatedData, ids: seq<string>, k: nat)
    requires k < |ids|
    ensures AuditRows(hash, data, ids)[k] == LogTrackingRequest(data, NumberFor(hash, data, ids[k]), ids[k])
    decreases |ids|
  {
    if k < |ids| - 1 {
      AuditRowsAt(hash, data, ids[..|ids| - 1], k);
    }
  }

  /** What a request ends with: the result, the ids used on each attempt, the audit rows handed over. */
  datatype Trace = Trace(result: Result<TrackingResponse, ServiceError>, used: seq<string>, audit: seq<AuditRecord>)

  /**
   * The retry loop from attempt `k` on, with `cid` in effect and `used` and
   * `audit` accumulated by the attempts before it.
   */
  function Run(hash: Generator.Hasher, data: ValidatedData, env: seq<AttemptEnv>, freshIds: seq<string>,
               now: string, k: nat, cid: string, used: seq<string>, audit: seq<AuditRecord>): Trace
    requires k <= MaxRetries <= |env| && MaxRetries <= |freshIds|
    decreases MaxRetries - k
  {
    if k == MaxRetries then Trace(Err(Exhausted), used, audit)
    else
      match Attempt(env[k])
      case Failure(message) => Trace(Err(Unexpected(message)), used + [cid], audit)
      case Collision =>
        Run(hash, data, env, freshIds, now, k + 1, freshIds[k], used + [cid],
            audit + [LogTrackingRequest(data, NumberFor(hash, data, cid), cid)])
      case Success(_) =>
        var trackingNumber := NumberFor(hash, data, cid);
        Trace(Ok(Respond(data, trackingNumber, cid, now)), used + [cid],
              audit + [LogTrackingRequest(data, trackingNumber, cid)])
  }

  /** A whole request: the loop from the first attempt with the caller's id. */
  function Request(hash: Generator.Hasher, data: ValidatedData, correlationId: string,
                   env: seq<AttemptEnv>, freshIds: seq<string>, now: string): Trace
    requires MaxRetries <= |env| && MaxRetries <= |freshIds|
  {
    Run(hash, data, env, freshIds, now, 0, correlationId, [], [])
  }

  /**
   * `create_tracking_number`. `used` lists the correlation id passed to the
   * generator on each attempt made and `audit` the rows handed to the
   * database, in order.
   */
  method CreateTrackingNumber(hash: Generator.Hasher, data: ValidatedData, correlationId: string,
                              env: seq<AttemptEnv>, freshIds: seq<string>, now: string)
    returns (result: Result<TrackingResponse, ServiceError>, used: seq<string>, audit: seq<AuditRecord>)
    requires |env| >= MaxRetries && |freshIds| >= MaxRetries
    ensures Trace(result, used, audit) == Request(hash, data, correlationId, env, freshIds, now)
  {
    var cid := correlationId;
    used, audit := [], [];
    var attempt := 0;
    while attempt < MaxRetries
      invariant 0 <= attempt <= MaxRetries
      invariant Run(hash, data, env, freshIds, now, attempt, cid, used, audit)
                == Request(hash, data, correlationId, env, freshIds, now)
    {
      var outcome := Attempt(env[attempt]);
      match outcome {
        case Failure(message) =>
          used := used + [cid];
          result := Err(Unexpected(message));
          return;
        case Collision =>
          audit := audit + [LogTrackingRequest(data, NumberFor(hash, data, cid), cid)];
          used := used + [cid];
          cid := freshIds[attempt];
          attempt := attempt + 1;
        case Success(_) =>
          var trackingNumber := NumberFor(hash, data, cid);
          audit := audit + [LogTrackingRequest(data, trackingNumber, cid)];
          used := used + [cid];
          result := Ok(Respond(data, trackingNumber, cid, now));
          return;
      }
    }
    result := Err(Exhausted);
  }

  /**
   * The first attempt from `k` on that does not end in a uniqueness conflict,
   * or `MaxRetries` when all of them do.
   */
  function Stop(env: seq<AttemptEnv>, k: nat): (n: nat)
    requires k <= MaxRetries <= |env|
    ensures k <= n <= MaxRetries
    ensures forall j :: k <= j < n ==> Attempt(env[j]) == Collision
    ensures n < MaxRetries ==> Attempt(env[n]) != Collision
    decreases MaxRetries - k
  {
    if k == MaxRetries || Attempt(env[k]) != Collision then k else Stop(env, k + 1)
  }

  /**
   * What a request from attempt `k` on ends with, stated without the loop:
   * the attempts up to the first one that does not collide are made with the
   * ids in order; a failed attempt contributes no audit row.
   */
  function Expected(hash: Generator.Hasher, data: ValidatedData, correlationId: string,
                    env: seq<AttemptEnv>, freshIds: seq<string>, now: string, k: nat): Trace
    requires k <= MaxRetries <= |env| && MaxRetries <= |freshIds|
  {
    var n := Stop(env, k);
    var ids := Ids(correlationId, freshIds);
    if n == MaxRetries then Trace(Err(Exhausted), ids[..n], AuditRows(hash, data, ids[..n]))
    else
      var o := Attempt(env[n]);
      if o.Failure? then Trace(Err(Unexpected(o.message)), ids[..n + 1], AuditRows(hash, data, ids[..n]))
      else Trace(Ok(Respond(data, NumberFor(hash, data, ids[n]), ids[n], now)), ids[..n + 1],
                 AuditRows(hash, data, ids[..n + 1]))
  }

  /** The loop from attempt `k`, after `k` conflicts, ends as `Expected` says. */
  lemma {:induction false} RunIsExpected(hash: Generator.Hasher, data: ValidatedData, correlationId: string,
                                         env: seq<AttemptEnv>, freshIds: seq<string>, now: string, k: nat)
    requires k <= MaxRetries <= |env| && MaxRetries <= |freshIds|
    requires forall j :: 0 <= j < k ==> Attempt(env[j]) == Collision
    ensures var ids := Ids(correlationId, freshIds);
            Run(hash, data, env, freshIds, now, k, ids[k], ids[..k], AuditRows(hash, data, ids[..k]))
            == Expected(hash, data, correlationId, env, freshIds, now, k)
    decreases MaxRetries - k
  {
    var ids := Ids(correlationId, freshIds);
    if k < MaxRetries && Attempt(env[k]) == Collision {
      assert ids[..k + 1] == ids[..k] + [ids[k]];
      assert ids[..k + 1][..k] == ids[..k];
      RunIsExpected(hash, data, correlationId, env, freshIds, now, k + 1);
    } else if k < MaxRetries {
      assert ids[..k + 1] == ids[..k] + [ids[k]];
      assert ids[..k + 1][..k] == ids[..k];
    }
  }

  /** A whole request ends as `Expected` says from the first attempt. */
  lemma RequestIsExpected(hash: Generator.Hasher, data: ValidatedData, correlationId: string,
                          env: seq<AttemptEnv>, freshIds: seq<string>, now: string)
    requires MaxRetries <= |env| && MaxRetries <= |freshIds|
    ensures Request(hash, data, correlationId, env, freshIds, now)
            == Expected(hash, data, correlationId, env, freshIds, now, 0)
  {
    var ids := Ids(correlationId, freshIds);
    assert ids[..0] == [];
    RunIsExpected(hash, data, correlationId, env, freshIds, now, 0);
  }

  /**
   * At most `MaxRetries` attempts; the first uses the caller's id and each
   * later one the fresh id drawn after the conflict before it.
   */
  lemma RequestAttempts(hash: Generator.Hasher, data: ValidatedData, correlationId: string,
                        env: seq<AttemptEnv>, freshIds: seq<string>, now: string)
    requires MaxRetries <= |env| && MaxRetries <= |freshIds|
    ensures var t := Request(hash, data, correlationId, env, freshIds, now);
            && 1 <= |t.used| <= MaxRetries
            && t.used[0] == correlationId
            && (forall j :: 0 < j < |t.used| ==> t.used[j] == freshIds[j - 1])
            && (forall j :: 0 <= j < |t.used| - 1 ==> Attempt(env[j]) == Collision)
  {
    RequestIsExpected(hash, data, correlationId, env, freshIds, now);
    var n := Stop(env, 0);
    var ids := Ids(correlationId, freshIds);
    var used := Request(hash, data, correlationId, env, freshIds, now).used;
    assert used == ids[..n] || used == ids[..n + 1];
  }

  /** The request gives up with the exhaustion error exactly when all attempts conflict. */
  lemma RequestExhausted(hash: Generator.Hasher, data: ValidatedData, correlationId: string,
                         env: seq<AttemptEnv>, freshIds: seq<string>, now: string)
    requires MaxRetries <= |env| && MaxRetries <= |freshIds|
    ensures var t := Request(hash, data, correlationId, env, freshIds, now);
            t.result == Err(Exhausted) <==> forall j :: 0 <= j < MaxRetries ==> Attempt(env[j]) == Collision
    ensures var t := Request(hash, data, correlationId, env, freshIds, now);
            t.result == Err(Exhausted) ==> ErrorMessage(t.result.error) == ExhaustedMessage && |t.used| == MaxRetries
  {
    RequestIsExpected(hash, data, correlationId, env, freshIds, now);
  }

  /**
   * Any other error ends the request on the attempt that raised it, with its
   * message, and leaves no audit row for that attempt.
   */
  lemma RequestFailure(hash: Generator.Hasher, data: ValidatedData, correlationId: string,
                       env: seq<AttemptEnv>, freshIds: seq<string>, now: string, n: nat, message: string)
    requires MaxRetries <= |env| && MaxRetries <= |freshIds| && n < MaxRetries
    requires forall j :: 0 <= j < n ==> Attempt(env[j]) == Collision
    requires env[n].generatorError == Some(message)
    ensures var t := Request(hash, data, correlationId, env, freshIds, now);
            && t.result == Err(Unexpected(message))
            && ErrorMessage(t.result.error) == message
            && |t.used| == n + 1
            && |t.audit| == n
  {
    RequestIsExpected(hash, data, correlationId, env, freshIds, now);
    StopAt(env, n);
  }

  /** `Stop` from the first attempt is the first attempt that does not conflict. */
  lemma StopAt(env: seq<AttemptEnv>, n: nat)
    requires n < MaxRetries <= |env|
    requires forall j :: 0 <= j < n ==> Attempt(env[j]) == Collision
    requires Attempt(env[n]) != Collision
    ensures Stop(env, 0) == n
  {
  }

  /**
   * A success answers with the number generated on the last attempt and the
   * id then in effect, whose audit row is the last one handed over; when the
   * first attempt succeeds that id is the caller's.
   */
  lemma RequestSuccess(hash: Generator.Hasher, data: ValidatedData, correlationId: string,
                       env: seq<AttemptEnv>, freshIds: seq<string>, now: string)
    requires MaxRetries <= |env| && MaxRetries <= |freshIds|
    ensures var t := Request(hash, data, correlationId, env, freshIds, now);
            t.result.Ok? ==>
              var r := t.result.value;
              && |t.audit| == |t.used| >= 1
              && r.correlationId == t.used[|t.used| - 1]
              && r.trackingNumber == NumberFor(hash, data, r.correlationId)
              && t.audit[|t.audit| - 1] == LogTrackingRequest(data, r.trackingNumber, r.correlationId)
              && r.requestMetadata == RequestMetadata(data.originCountryId, data.destinationCountryId,
                                                      data.weightText, data.customerSlug)
              && r.createdAt == now
              && (|t.used| == 1 ==> r.correlationId == correlationId)
  {
    RequestIsExpected(hash, data, correlationId, env, freshIds, now);
    var t := Request(hash, data, correlationId, env, freshIds, now);
    var n := Stop(env, 0);
    if n < MaxRetries && !Attempt(env[n]).Failure? {
      var ids := Ids(correlationId, freshIds);
      AuditRowsAt(hash, data, ids[..n + 1], n);
    }
  }

  /**
   * Every number a request answers with is well formed: the two country
   * codes, then at most ten base-36 digits, 5 to 14 characters in all.
   */
  lemma SuccessfulResponse(hash: Generator.Hasher, data: ValidatedData, correlationId: string,
                           env: seq<AttemptEnv>, freshIds: seq<string>, now: string)
    requires MaxRetries <= |env| && MaxRetries <= |freshIds|
    requires Serializers.IsCountryCode(data.originCountryId)
    requires Serializers.IsCountryCode(data.destinationCountryId)
    ensures var t := Request(hash, data, correlationId, env, freshIds, now);
            t.result.Ok? ==>
              var number := t.result.value.trackingNumber;
              && Generator.IsTrackingNumberFormat(number)
              && 5 <= |number| <= 14
              && number[..4] == data.originCountryId + data.destinationCountryId
  {
    RequestIsExpected(hash, data, correlationId, env, freshIds, now);
    var t := Request(hash, data, correlationId, env, freshIds, now);
    if t.result.Ok? {
      var ids := Ids(correlationId, freshIds);
      var id := ids[Stop(env, 0)];
      Generator.TrackingNumberShape(hash, data.originCountryId, data.destinationCountryId,
                                    data.weightSeedText, data.timestampText, data.customerId,
                                    data.customerName, data.customerSlug, id);
    }
  }
}
