/**
 * `RequestLoggingMiddleware`: stamps each request with a start time and a
 * correlation id, records a metrics row for each response, and reads the
 * client address from the request headers. Clocks and fresh ids are
 * parameters; logging is not modelled.
 */
module Middleware {
  import opened Wrappers
  import opened Http

  const ForwardedForKey := "HTTP_X_FORWARDED_FOR"
  const RemoteAddrKey := "REMOTE_ADDR"
  const UnknownCorrelationId := "unknown"

  /** The attributes of a request the middleware reads and sets. */
  class Request {
    var meta: map<string, string>
    var httpMethod: string
    var path: string
    var startTime: Option<real>
    var correlationId: Option<string>

    constructor (meta: map<string, string>, httpMethod: string, path: string)
      ensures this.meta == meta && this.httpMethod == httpMethod && this.path == path
      ensures startTime.None? && correlationId.None?
    {
      this.meta := meta;
      this.httpMethod := httpMethod;
      this.path := path;
      startTime := None;
      correlationId := None;
    }
  }

  /** `s.split(',')[0]`: the text before the first comma, or all of it. */
  function FirstField(s: string): (r: string)
    ensures r <= s
    ensures forall i :: 0 <= i < |r| ==> r[i] != ','
    ensures |r| < |s| ==> s[|r|] == ','
  {
    if s == [] || s[0] == ',' then [] else [s[0]] + FirstField(s[1..])
  }

  /** `_get_client_ip`: the first entry of a non-empty X-Forwarded-For, else REMOTE_ADDR if present. */
  function GetClientIp(meta: map<string, string>): (ip: Option<string>)
    ensures ForwardedForKey in meta && meta[ForwardedForKey] != "" ==>
              ip.Some? && ip.value <= meta[ForwardedForKey]
              && (forall i :: 0 <= i < |ip.value| ==> ip.value[i] != ',')
              && (|ip.value| < |meta[ForwardedForKey]| ==> meta[ForwardedForKey][|ip.value|] == ',')
    ensures !(ForwardedForKey in meta && meta[ForwardedForKey] != "") ==>
              ip == (if RemoteAddrKey in meta then Some(meta[RemoteAddrKey]) else None)
  {
    if ForwardedForKey in meta && meta[ForwardedForKey] != "" then
      Some(FirstField(meta[ForwardedForKey]))
    else if RemoteAddrKey in meta then Some(meta[RemoteAddrKey])
    else None
  }

  /** A header without a comma is returned whole. */
  lemma FirstFieldNoComma(s: string)
    requires forall i :: 0 <= i < |s| ==> s[i] != ','
    ensures FirstField(s) == s
  {
  }

  /** The proxy chain's first entry is taken as it stands, surrounding spaces included. */
  lemma ForwardedForExample()
    ensures GetClientIp(map[ForwardedForKey := " a ,b"]) == Some(" a ")
  {
    var h := " a ,b";
    assert h[0] != ',' && h[1] != ',' && h[2] != ',' && h[3] == ',';
    assert FirstField(h[3..]) == [];
    assert FirstField(h[2..]) == [' '];
    assert FirstField(h[1..]) == ['a', ' '];
    assert FirstField(h) == " a ";
    var m := map[ForwardedForKey := h];
    assert ForwardedForKey in m && m[ForwardedForKey] == h != "";
  }

  /** An empty X-Forwarded-For falls back to REMOTE_ADDR; with neither there is no address. */
  lemma RemoteAddrExamples()
    ensures GetClientIp(map[ForwardedForKey := "", RemoteAddrKey := "b"]) == Some("b")
    ensures GetClientIp(map[RemoteAddrKey := "b"]) == Some("b")
    ensures GetClientIp(map[]) == None
  {
  }

  /** `process_request`: record the start time and add a correlation id only if none is present. */
  method ProcessRequest(request: Request, now: real, freshId: string)
    modifies request
    ensures request.startTime == Some(now)
    ensures old(request.correlationId).Some? ==> request.correlationId == old(request.correlationId)
    ensures old(request.correlationId).None? ==> request.correlationId == Some(freshId)
    ensures request.meta == old(request.meta)
    ensures request.httpMethod == old(request.httpMethod) && request.path == old(request.path)
  {
    request.startTime := Some(now);
    if request.correlationId.None? {
      request.correlationId := Some(freshId);
    }
  }

  /** The row `APIMetrics.objects.create` is called with. */
  datatype MetricRow = MetricRow(endpoint: string, httpMethod: string, statusCode: int,
                                 responseTimeMs: int, correlationId: string)

  /** Python's `int(x)`, which truncates toward zero. */
  function TruncateToInt(x: real): (n: int)
    ensures x >= 0.0 ==> n as real <= x < n as real + 1.0
    ensures x < 0.0 ==> n as real - 1.0 < x <= n as real
  {
    if x >= 0.0 then x.Floor else -((-x).Floor)
  }

  /**
   * `process_response`. When the request carries a start time, a metrics row
   * is written; `storeFails` says whether the write raises, which is caught.
   * The result is always the given response, unchanged.
   */
  method ProcessResponse(request: Request, response: Response, now: real, storeFails: bool)
    returns (r: Response, stored: Option<MetricRow>)
    ensures r == response
    ensures stored.Some? <==> request.startTime.Some? && !storeFails
    ensures stored.Some? ==>
              && stored.value.endpoint == request.path
              && stored.value.httpMethod == request.httpMethod
              && stored.value.statusCode == response.statusCode
              && stored.value.responseTimeMs == TruncateToInt((now - request.startTime.value) * 1000.0)
              && stored.value.correlationId ==
                   (if request.correlationId.Some? then request.correlationId.value else UnknownCorrelationId)
  {
    stored := None;
    if request.startTime.Some? {
      var responseTime := TruncateToInt((now - request.startTime.value) * 1000.0);
      var correlationId := if request.correlationId.Some? then request.correlationId.value else UnknownCorrelationId;
      var row := MetricRow(request.path, request.httpMethod, response.statusCode, responseTime, correlationId);
      if !storeFails {
        stored := Some(row);
      }
    }
    r := response;
  }
}
