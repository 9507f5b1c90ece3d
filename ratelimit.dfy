/**
 * Twitter rate-limit bookkeeping: reading the `x-rate-limit-*` response
 * headers, the wait to apply after a "429 Too Many Requests" error, the
 * per-endpoint status lookup and the chunked cool-down sleep.
 * The wall clock `int(time.time())` is the parameter `now`; `time.sleep`
 * calls are returned as the list of their arguments.
 */
module RateLimit {
  import opened Common
  import opened Text
  import opened Json

  type Headers = map<string, string>

  const LimitHeader := "x-rate-limit-limit"
  const RemainingHeader := "x-rate-limit-remaining"
  const ResetHeader := "x-rate-limit-reset"

  /** Wait assumed when a 429 error carries no response: 15 minutes. */
  const DefaultResetSeconds := 15 * 60
  /** Safety margin added to a positive wait computed from an exception. */
  const WaitMargin := 30
  /** Default extra wait of `wait_for_reset`. */
  const ResetBuffer := 60
  /** Longest single sleep of the cool-down loop. */
  const SleepChunk := 30

  /** The four entries of the rate-limit dictionary; Python's None is `None`. */
  datatype RateLimitInfo = RateLimitInfo(
    limit: Option<int>,
    remaining: Option<int>,
    reset: Option<int>,
    resetInSeconds: Option<int>)

  /** `if value:` then `int(value)`, where a failed conversion is logged and leaves None. */
  function HeaderInt(headers: Headers, name: string): (r: Option<int>)
    ensures r.Some? <==> name in headers && headers[name] != "" && ParseInt(headers[name]).Some?
    ensures r.Some? ==> r == ParseInt(headers[name])
  {
    if name in headers && headers[name] != "" then ParseInt(headers[name]) else None
  }

  /** `extract_rate_limit_info`: each field from its own header; the seconds left are never negative. */
  function ExtractRateLimitInfo(headers: Headers, now: int): (r: RateLimitInfo)
    ensures r.limit == HeaderInt(headers, LimitHeader)
    ensures r.remaining == HeaderInt(headers, RemainingHeader)
    ensures r.reset == HeaderInt(headers, ResetHeader)
    ensures r.resetInSeconds.Some? <==> r.reset.Some?
    ensures r.reset.Some? ==> r.resetInSeconds.value == Max(r.reset.value - now, 0) >= 0
  {
    var reset := HeaderInt(headers, ResetHeader);
    RateLimitInfo(
      HeaderInt(headers, LimitHeader),
      HeaderInt(headers, RemainingHeader),
      reset,
      if reset.Some? then Some(Max(reset.value - now, 0)) else None)
  }

  /** Headers written from integers are read back as those integers. */
  lemma ExtractFromIntHeaders(limit: int, remaining: int, reset: int, now: int)
    ensures ExtractRateLimitInfo(
              map[LimitHeader := IntToString(limit), RemainingHeader := IntToString(remaining),
                  ResetHeader := IntToString(reset)], now)
         == RateLimitInfo(Some(limit), Some(remaining), Some(reset), Some(Max(reset - now, 0)))
  {
    ParseIntRoundTrip(limit);
    ParseIntRoundTrip(remaining);
    ParseIntRoundTrip(reset);
  }

  /** Changing or removing one header leaves the fields read from the other headers as they were. */
  lemma ExtractFieldsIndependent(headers: Headers, name: string, value: Option<string>, now: int)
    ensures var h := if value.Some? then headers[name := value.value] else headers - {name};
            var before, after := ExtractRateLimitInfo(headers, now), ExtractRateLimitInfo(h, now);
            && (name != LimitHeader ==> after.limit == before.limit)
            && (name != RemainingHeader ==> after.remaining == before.remaining)
            && (name != ResetHeader ==> after.reset == before.reset && after.resetInSeconds == before.resetInSeconds)
  {
  }

  /**
   * `get_rate_limit_from_exception`: the response headers decide when the
   * error carries a response; otherwise nothing is left and the reset is
   * 15 minutes away.
   */
  function GetRateLimitFromException(response: Option<Headers>, now: int): (r: RateLimitInfo)
    ensures response.Some? ==> r == ExtractRateLimitInfo(response.value, now)
    ensures response.None? ==> r == RateLimitInfo(None, Some(0), None, Some(DefaultResetSeconds))
  {
    match response
    case Some(headers) => ExtractRateLimitInfo(headers, now)
    case None => RateLimitInfo(None, Some(0), None, Some(DefaultResetSeconds))
  }

  /**
   * `get_wait_time_from_exception`: the seconds until reset plus a 30-second
   * margin when positive. The `.get` default of 16 minutes never applies,
   * because the key is always present; when the headers hold no usable
   * reset the value is None and `None > 0` raises a TypeError.
   */
  function GetWaitTimeFromException(response: Option<Headers>, now: int): (r: Result<int>)
    ensures r.Err? <==> response.Some? && HeaderInt(response.value, ResetHeader).None?
    ensures response.None? ==> r == Ok(DefaultResetSeconds + WaitMargin)
    ensures response.Some? && r.Ok? ==>
              var s := Max(HeaderInt(response.value, ResetHeader).value - now, 0);
              r.value == if s > 0 then s + WaitMargin else 0
    ensures r.Ok? ==> r.value == 0 || r.value > WaitMargin
  {
    var seconds := GetRateLimitFromException(response, now).resetInSeconds;
    match seconds
    case None => Err("TypeError")
    case Some(s) => Ok(if s > 0 then s + WaitMargin else s)
  }

  /** No response at all means a wait of 930 seconds. */
  lemma WaitWithoutResponse(now: int)
    ensures GetWaitTimeFromException(None, now) == Ok(930)
  {
  }

  /** A reset already in the past means no wait at all. */
  lemma WaitAfterReset(reset: int, now: int)
    requires reset <= now
    ensures GetWaitTimeFromException(Some(map[ResetHeader := IntToString(reset)]), now) == Ok(0)
  {
    ParseIntRoundTrip(reset);
  }

  /** `should_wait`: wait once no more than `threshold` requests are left (threshold defaults to 1). */
  function ShouldWait(remaining: int, threshold: int := 1): (r: bool)
    ensures r <==> remaining <= threshold
  {
    remaining <= threshold
  }

  /** With the default threshold a single remaining request already waits. */
  lemma LastRequestWaits()
    ensures ShouldWait(1) && !ShouldWait(2)
  {
  }

  /**
   * `wait_for_reset`: sleeps `seconds_left + buffer` seconds in chunks of at
   * most 30, and not at all when that total is not positive.
   */
  method WaitForReset(secondsLeft: int, buffer: int := ResetBuffer) returns (slept: seq<int>)
    ensures SleptInChunks(slept, secondsLeft + buffer, SleepChunk)
  {
    var sleepLeft := secondsLeft + buffer;
    slept := [];
    while sleepLeft > 0
      invariant forall i :: 0 <= i < |slept| ==> 0 < slept[i] <= SleepChunk
      invariant forall i :: 0 <= i < |slept| - 1 ==> slept[i] == SleepChunk
      invariant sleepLeft > 0 && slept != [] ==> slept[|slept| - 1] == SleepChunk
      invariant slept != [] ==> sleepLeft >= 0
      invariant Sum(slept) + Max(sleepLeft, 0) == Max(secondsLeft + buffer, 0)
      decreases sleepLeft
    {
      var interval := if SleepChunk < sleepLeft then SleepChunk else sleepLeft;
      SumAppend(slept, interval);
      slept := slept + [interval];
      sleepLeft := sleepLeft - interval;
    }
  }

  /**
   * `handle_rate_limit_exception`: the wait computed from the error, slept
   * through (with the extra 60-second buffer) when `wait` is set. The
   * TypeError of a response without a usable reset propagates.
   */
  method HandleRateLimitException(response: Option<Headers>, now: int, wait: bool := true)
    returns (r: Result<int>, slept: seq<int>)
    ensures r == GetWaitTimeFromException(response, now)
    ensures r.Err? || !wait ==> slept == []
    ensures r.Ok? && wait ==> SleptInChunks(slept, r.value + ResetBuffer, SleepChunk)
  {
    r := GetWaitTimeFromException(response, now);
    slept := [];
    if r.Ok? && wait {
      slept := WaitForReset(r.value);
    }
  }

  /** What `check_endpoint_limit` reports: limit, remaining (as found) and seconds until reset. */
  datatype EndpointLimit = EndpointLimit(limit: Json, remaining: Json, resetInSeconds: int)

  const NoLimit := EndpointLimit(JInt(0), JInt(0), 0)

  /** The nested keys an endpoint path names: `endpoint.strip('/').split('/')`. */
  function EndpointKeys(endpoint: string): seq<string> {
    Split(StripChars(endpoint, {'/'}), '/')
  }

  /**
   * `check_endpoint_limit`: walks the rate-limit status along the endpoint's
   * path; a missing part, a failed status call or any later error (a
   * non-dict entry, a non-numeric reset) gives (0, 0, 0).
   * `status` is the result of `rate_limit_status()`.
   */
  method CheckEndpointLimit(status: Result<Json>, endpoint: string, now: int) returns (r: EndpointLimit)
    ensures status.Err? ==> r == NoLimit
    ensures status.Ok? ==>
              r == match Lookup(status.value, EndpointKeys(endpoint))
                   case Some(entry) => LimitEntry(entry, now)
                   case None => NoLimit
    ensures r.resetInSeconds >= 0
  {
    if status.Err? {
      return NoLimit;
    }
    var parts := EndpointKeys(endpoint);
    var current := status.value;
    var i := 0;
    while i < |parts|
      invariant 0 <= i <= |parts|
      invariant Lookup(status.value, parts[..i]) == Some(current)
    {
      LookupConcat(status.value, parts[..i], [parts[i]]);
      LookupConcat(status.value, parts[..i + 1], parts[i + 1..]);
      assert parts[..i] + [parts[i]] == parts[..i + 1];
      assert parts[..i + 1] + parts[i + 1..] == parts;
      match Field(current, parts[i]) {
        case None =>
          return NoLimit;
        case Some(w) =>
          current := w;
      }
      i := i + 1;
    }
    assert parts[..i] == parts;
    r := LimitEntry(current, now);
  }

  /** Reads limit, remaining and reset (each 0 when absent) from the entry an endpoint path leads to. */
  function LimitEntry(entry: Json, now: int): (r: EndpointLimit)
    ensures r.resetInSeconds >= 0
  {
    if entry.JObj? then
      match AsNumber(GetOr(entry.fields, "reset", JInt(0)))
      case Some(reset) =>
        EndpointLimit(GetOr(entry.fields, "limit", JInt(0)), GetOr(entry.fields, "remaining", JInt(0)),
                      Max(reset - now, 0))
      case None => NoLimit
    else NoLimit
  }

  /** An entry with integer fields reports them, the reset as seconds from `now`. */
  lemma LimitEntryFields(limit: int, remaining: int, reset: int, now: int)
    ensures LimitEntry(JObj([("limit", JInt(limit)), ("remaining", JInt(remaining)), ("reset", JInt(reset))]), now)
         == EndpointLimit(JInt(limit), JInt(remaining), Max(reset - now, 0))
  {
    var f := [("limit", JInt(limit)), ("remaining", JInt(remaining)), ("reset", JInt(reset))];
    assert "limit" != "reset" by { assert "limit"[0] != "reset"[0]; }
    assert "remaining" != "reset" by { assert "remaining"[2] != "reset"[2]; }
    assert "remaining" != "limit" by { assert "remaining"[0] != "limit"[0]; }
    assert f[1..][1..] == [("reset", JInt(reset))];
    assert Get(f[1..][1..], "reset") == Some(JInt(reset));
    assert Get(f, "reset") == Some(JInt(reset));
    assert Get(f, "remaining") == Some(JInt(remaining));
  }

  /** A missing prefix of the path already decides (0, 0, 0). */
  lemma LookupMissingPrefix(v: Json, a: seq<string>, b: seq<string>)
    requires Lookup(v, a).None?
    ensures Lookup(v, a + b).None?
  {
    LookupConcat(v, a, b);
  }
}
