/** The catalogue client of `src/shopify_client.py`: the rate-limit hint of
    the REST header, the REST and GraphQL attempt loops with their doubling
    backoff, and the payloads of the mutations the other modules use. */
module ShopifyClient {
  import opened Wrappers
  import opened Strings
  import opened Dicts
  import opened Json
  import opened Http

  // ---------------------------------------------------------------------
  // _handle_rate_headers

  /** What precedes the first '/'. */
  function BeforeSlash(s: string): (r: string)
    ensures '/' !in r
  {
    if s == [] || s[0] == '/' then [] else [s[0]] + BeforeSlash(s[1..])
  }

  /** What follows the first '/', or "" when there is none. */
  function AfterSlash(s: string): string {
    if s == [] then [] else if s[0] == '/' then s[1..] else AfterSlash(s[1..])
  }

  /** With exactly one '/', `s.split("/")` has the two parts around it. */
  lemma {:induction false} SplitSlash(s: string)
    requires Count(s, '/') == 1
    ensures s == BeforeSlash(s) + "/" + AfterSlash(s)
    ensures '/' !in AfterSlash(s)
  {
    if s[0] != '/' {
      SplitSlash(s[1..]);
    }
  }

  /** `[int(x) for x in limit.split("/")]` unpacked into `used, cap`. */
  function ParseCallLimit(s: string): (r: Option<(int, int)>)
    ensures r.Some? ==> Count(s, '/') == 1
  {
    if Count(s, '/') != 1 then None
    else
      var u := ParseInt(BeforeSlash(s));
      var c := ParseInt(AfterSlash(s));
      if u.Some? && c.Some? then Some((u.value, c.value)) else None
  }

  /** `_handle_rate_headers`: pause when the header is a well-formed
      "used/cap" with a positive cap and `used / cap > 0.85`; a missing,
      empty or malformed header is ignored. */
  predicate RatePause(limit: Option<string>) {
    limit.Some? && limit.value != "" && ParseCallLimit(limit.value).Some? &&
    var (used, cap) := ParseCallLimit(limit.value).value;
    cap > 0 && 100 * used > 85 * cap
  }

  lemma ParseCallLimitShow(used: nat, cap: nat)
    ensures ParseCallLimit(ShowNat(used) + "/" + ShowNat(cap)) == Some((used, cap))
  {
    var u, c := ShowNat(used), ShowNat(cap);
    var s := u + "/" + c;
    assert s == u + ("/" + c);
    assert '/' !in u && '/' !in c;
    CountSlash(u, c);
    SplitSlash(s);
    BeforeSlashOf(u, c);
    ParseShowNat(used);
    ParseShowNat(cap);
  }

  lemma {:induction false} CountSlash(u: string, c: string)
    requires '/' !in u && '/' !in c
    ensures Count(u + "/" + c, '/') == 1
  {
    if u == [] {
      assert u + "/" + c == "/" + c;
      assert ("/" + c)[1..] == c;
    } else {
      assert (u + "/" + c)[1..] == u[1..] + "/" + c;
      CountSlash(u[1..], c);
    }
  }

  lemma {:induction false} BeforeSlashOf(u: string, c: string)
    requires '/' !in u
    ensures BeforeSlash(u + "/" + c) == u && AfterSlash(u + "/" + c) == c
  {
    if u == [] {
      assert u + "/" + c == "/" + c;
      assert ("/" + c)[1..] == c;
    } else {
      assert (u + "/" + c)[1..] == u[1..] + "/" + c;
      BeforeSlashOf(u[1..], c);
    }
  }

  /** On a header the shop writes, "used/cap", the client pauses exactly
      when more than 85% of the bucket is used. */
  lemma RatePauseOfHeader(used: nat, cap: nat)
    ensures RatePause(Some(ShowNat(used) + "/" + ShowNat(cap))) <==> cap > 0 && 100 * used > 85 * cap
  {
    ParseCallLimitShow(used, cap);
  }

  /** A header without exactly one '/' never pauses. */
  lemma RatePauseNeedsOneSlash(s: string)
    ensures Count(s, '/') != 1 ==> !RatePause(Some(s))
  {
  }

  // ---------------------------------------------------------------------
  // _rest

  datatype Verb = GetVerb | PostVerb | DeleteVerb | OtherVerb

  /** The body of a REST response as `r.content` / `r.json()` see it. */
  datatype Body = NoContent | Parsed(json: Json) | NotJson

  datatype RestResponse = RestResponse(status: int, retryAfter: RetryAfter, callLimit: Option<string>, body: Body)

  /** Why `_rest` raised: a transport exception, an `HTTPError` from
      `raise_for_status`, a body that is not JSON (a `RequestException`
      too), a `Retry-After` that `float` rejects, an unsupported method,
      or "REST exhausted retries". */
  datatype RestError = Transport | HttpError(status: int) | JsonError | BadRetryAfter | Unsupported | RestExhausted

  const OkCodes: set<int> := {200, 201, 202, 204}

  /** The sleep around the current backoff and its doubling, capped at
      twenty seconds. */
  function Backoff<T, E>(b: nat): Step<T, E> {
    Again(Jittered(b), Min(2 * b, 20000))
  }

  /** The `RequestException` handler: re-raise on the final attempt, else
      sleep around the backoff and double it. */
  function Handler(e: RestError, final: bool, b: nat): Step<Json, RestError> {
    if final then Fail(e) else Backoff(b)
  }

  /** What a delivered response does to the loop. */
  function RestResponseStep(r: RestResponse, final: bool, b: nat): Step<Json, RestError> {
    if r.status in OkCodes then
      match r.body
      case NoContent => Done(JObj([]))
      case Parsed(j) => Done(j)
      case NotJson => Handler(JsonError, final, b)
    else if r.status == 429 || r.status == 430 then
      match r.retryAfter
      case Seconds(ms) => Again(Fixed(ms), b)
      case Malformed => Fail(BadRetryAfter)
      case _ => Backoff(b)
    else if 500 <= r.status < 600 then Backoff(b)
    else if 400 <= r.status < 500 then Handler(HttpError(r.status), final, b)
    else Again(NoWait, b)
  }

  /** One attempt of `_rest`: `final` when it is try number `max_retries`. */
  function RestStep(verb: Verb, ev: Event<RestResponse>, final: bool, b: nat): Attempt<Json, RestError> {
    if verb == OtherVerb then Attempt(false, Fail(Unsupported))
    else match ev
      case Delivered(r) => Attempt(RatePause(r.callLimit), RestResponseStep(r, final, b))
      case _ => Attempt(false, Handler(Transport, final, b))
  }

  /** Try `a` of `_rest` against the scripted wire `net`. */
  function RestAt(verb: Verb, net: nat -> Event<RestResponse>, maxRetries: int): (nat, nat) -> Attempt<Json, RestError> {
    (a: nat, b: nat) => RestStep(verb, net(a), a >= maxRetries, b)
  }

  /** `range(max_retries + 1)`. */
  function Tries(maxRetries: int): nat {
    if maxRetries + 1 > 0 then maxRetries + 1 else 0
  }

  /** The time `_last_rest_ts` holds after the first `m` tries. */
  function RestTsAfter(start: int, verb: Verb, net: nat -> Event<RestResponse>, after: nat -> int, m: nat): int {
    if m == 0 then start
    else if verb != OtherVerb && net(m - 1).Delivered? then after(m - 1)
    else RestTsAfter(start, verb, net, after, m - 1)
  }

  /** The REST wait rules: a Retry-After value is slept exactly and keeps
      the backoff; every jittered sleep doubles it. */
  lemma RestDoubling(verb: Verb, net: nat -> Event<RestResponse>, maxRetries: int)
    ensures Doubling(RestAt(verb, net, maxRetries))
  {
    forall a: nat, b: nat
      ensures var s := RestAt(verb, net, maxRetries)(a, b).next;
        s.Again? ==> if s.wait.Jittered? then s.wait.baseMs == b && s.backoffMs == Min(2 * b, 20000) else s.backoffMs == b
    {
      assert RestAt(verb, net, maxRetries)(a, b) == RestStep(verb, net(a), a >= maxRetries, b);
    }
  }

  /** At most `max_retries + 1` requests. */
  lemma RestSendsAtMost(verb: Verb, net: nat -> Event<RestResponse>, maxRetries: int)
    ensures |Trace(RestAt(verb, net, maxRetries), Tries(maxRetries), 0, 1000)| <= Tries(maxRetries)
  {
    TraceBound(RestAt(verb, net, maxRetries), Tries(maxRetries), 0, 1000);
  }

  /** The jittered sleeps of one call are around 1, 2, 4, 8, 16, 20, 20, ...
      seconds, whatever Retry-After sleeps come between them. */
  lemma RestBackoffSchedule(verb: Verb, net: nat -> Event<RestResponse>, maxRetries: int, i: nat)
    requires i < |JitterBases(Trace(RestAt(verb, net, maxRetries), Tries(maxRetries), 0, 1000))|
    ensures JitterBases(Trace(RestAt(verb, net, maxRetries), Tries(maxRetries), 0, 1000))[i] == ClientBackoffMs(i)
  {
    RestDoubling(verb, net, maxRetries);
    assert ClientBackoffMs(0) == 1000;
    JitterSchedule(RestAt(verb, net, maxRetries), Tries(maxRetries), 0, 0, i);
  }

  /** A 429 or 430 with a Retry-After of `ms` sleeps exactly `ms` and does
      not touch the backoff. */
  lemma RestRetryAfterExact(r: RestResponse, final: bool, b: nat, ms: nat)
    requires (r.status == 429 || r.status == 430) && r.retryAfter == Seconds(ms)
    ensures RestResponseStep(r, final, b) == Again(Fixed(ms), b)
  {
  }

  /** A client error other than 429/430 raised by `raise_for_status` is
      caught like a transport error: retried with backoff, and re-raised
      only on the final attempt. */
  lemma RestClientErrorRetried(r: RestResponse, final: bool, b: nat)
    requires 400 <= r.status < 500 && r.status != 429 && r.status != 430
    ensures final ==> RestResponseStep(r, final, b) == Fail(HttpError(r.status))
    ensures !final ==> RestResponseStep(r, final, b) == Again(Jittered(b), Min(2 * b, 20000))
  {
  }

  /** A successful call returns the body of an ok-coded response, `{}` when
      it had no content. */
  lemma RestOkMeansOkCode(verb: Verb, net: nat -> Event<RestResponse>, maxRetries: int, j: Json)
    ensures var t := Trace(RestAt(verb, net, maxRetries), Tries(maxRetries), 0, 1000);
      Outcome(t, RestExhausted) == Ok(j) ==>
        var ev := net(|t| - 1);
        verb != OtherVerb && ev.Delivered? && ev.response.status in OkCodes
        && (ev.response.body == NoContent ==> j == JObj([]))
        && (ev.response.body.Parsed? ==> j == ev.response.body.json)
  {
    var at := RestAt(verb, net, maxRetries);
    var t := Trace(at, Tries(maxRetries), 0, 1000);
    if Outcome(t, RestExhausted).Ok? {
      RestTraceAt(verb, net, maxRetries, |t| - 1);
    }
  }

  /** Try `i` of the trace is `RestStep` on `net(i)`, final from try
      `max_retries` on. */
  lemma RestTraceAt(verb: Verb, net: nat -> Event<RestResponse>, maxRetries: int, i: nat)
    requires i < |Trace(RestAt(verb, net, maxRetries), Tries(maxRetries), 0, 1000)|
    ensures Trace(RestAt(verb, net, maxRetries), Tries(maxRetries), 0, 1000)[i]
         == RestStep(verb, net(i), i >= maxRetries, BackoffBefore(RestAt(verb, net, maxRetries), 0, 1000, i))
  {
    var at := RestAt(verb, net, maxRetries);
    var bb := BackoffBefore(at, 0, 1000, i);
    TraceAt(at, Tries(maxRetries), 0, 1000, i);
    assert at(i, bb) == RestStep(verb, net(i), i >= maxRetries, bb);
  }

  /** "REST exhausted retries" is raised only after `max_retries + 1` tries
      that all ended in a sleep or a fall-through. */
  lemma RestExhaustedMeans(verb: Verb, net: nat -> Event<RestResponse>, maxRetries: int, i: nat)
    ensures var t := Trace(RestAt(verb, net, maxRetries), Tries(maxRetries), 0, 1000);
      Outcome(t, RestExhausted) == Err(RestExhausted) && i < |t| ==> |t| == Tries(maxRetries) && t[i].next.Again?
  {
    var at := RestAt(verb, net, maxRetries);
    var t := Trace(at, Tries(maxRetries), 0, 1000);
    if Outcome(t, RestExhausted) == Err(RestExhausted) && i < |t| {
      RestNeverFailsExhausted(verb, net, maxRetries, |t| - 1);
      ExhaustedMeansAllRetried(at, Tries(maxRetries), 1000, RestExhausted, i);
    }
  }

  /** No single attempt raises "REST exhausted retries". */
  lemma RestNeverFailsExhausted(verb: Verb, net: nat -> Event<RestResponse>, maxRetries: int, i: nat)
    requires i < |Trace(RestAt(verb, net, maxRetries), Tries(maxRetries), 0, 1000)|
    ensures Trace(RestAt(verb, net, maxRetries), Tries(maxRetries), 0, 1000)[i].next != Fail(RestExhausted)
  {
    RestTraceAt(verb, net, maxRetries, i);
  }

  /** An `HTTPError` leaves `_rest` only from the final try. */
  lemma RestHttpErrorIsFinal(verb: Verb, net: nat -> Event<RestResponse>, maxRetries: int, s: int)
    ensures var t := Trace(RestAt(verb, net, maxRetries), Tries(maxRetries), 0, 1000);
      Outcome(t, RestExhausted) == Err(HttpError(s)) ==> |t| == Tries(maxRetries) && 400 <= s < 500
  {
    var at := RestAt(verb, net, maxRetries);
    var t := Trace(at, Tries(maxRetries), 0, 1000);
    if Outcome(t, RestExhausted) == Err(HttpError(s)) {
      var k := |t| - 1;
      assert t[k].next == Fail(HttpError(s));
      RestTraceAt(verb, net, maxRetries, k);
      RestStepHttpError(verb, net(k), k >= maxRetries, BackoffBefore(at, 0, 1000, k), s);
      TraceBound(at, Tries(maxRetries), 0, 1000);
    }
  }

  /** The one step that raises an `HTTPError` is a final one on a 4xx. */
  lemma RestStepHttpError(verb: Verb, ev: Event<RestResponse>, final: bool, b: nat, s: int)
    ensures RestStep(verb, ev, final, b).next == Fail(HttpError(s)) ==> final && 400 <= s < 500
  {
  }

  /** `inventory_delete`: an `HTTPError` is logged and swallowed; every
      other failure propagates. */
  function InventoryDelete(r: Result<Json, RestError>): Result<(), RestError>
  {
    if r.Ok? || r.error.HttpError? then Ok(()) else Err(r.error)
  }

  /** `inventory_delete` over a whole `_rest` DELETE call: it fails only
      with a transport error, a body that is not JSON, a bad `Retry-After`
      or exhausted retries. When the loop reaches its final try, a client
      error there ends it quietly and a transport failure there propagates. */
  lemma InventoryDeleteOfRest(net: nat -> Event<RestResponse>, maxRetries: int)
    ensures var t := Trace(RestAt(DeleteVerb, net, maxRetries), Tries(maxRetries), 0, 1000);
      var d := InventoryDelete(Outcome(t, RestExhausted));
      && (d.Err? ==> d.error == Transport || d.error == JsonError || d.error == BadRetryAfter || d.error == RestExhausted)
      && (maxRetries >= 0 && |t| == Tries(maxRetries) ==>
            var ev := net(maxRetries);
            && (ev.Delivered? && 400 <= ev.response.status < 500 && ev.response.status != 429 && ev.response.status != 430
                ==> d == Ok(()))
            && (!ev.Delivered? ==> d == Err(Transport)))
  {
    var t := Trace(RestAt(DeleteVerb, net, maxRetries), Tries(maxRetries), 0, 1000);
    if t != [] {
      RestTraceAt(DeleteVerb, net, maxRetries, |t| - 1);
    }
  }

  // ---------------------------------------------------------------------
  // graphql

  /** `extensions.cost.throttleStatus` when present and non-empty, with its
      two fields when they are there. */
  datatype ThrottleStatus = ThrottleStatus(currentlyAvailable: Option<int>, restoreRate: Option<int>)

  /** What the GraphQL loop reads from a body: the throttle status, whether
      `errors` is present and truthy, and `data` when present. */
  datatype GqlBody = GqlBody(throttle: Option<ThrottleStatus>, errors: bool, data: Option<Json>)

  /** A body `r.json()` cannot parse is treated as `{}`. */
  const UnparsedBody: GqlBody := GqlBody(None, false, None)

  datatype GqlResponse = GqlResponse(status: int, retryAfter: RetryAfter, body: GqlBody)

  datatype GqlError = GqlTransport | GqlErrors | GqlHttpError(status: int) | GqlBadRetryAfter | GqlExhausted

  function Max(a: int, b: int): int { if a >= b then a else b }

  /** The cost pause: fewer points left than `max(10, restoreRate // 2)`,
      with 0 and 50 for missing fields. */
  predicate ThrottlePause(body: GqlBody) {
    body.throttle.Some? &&
    body.throttle.value.currentlyAvailable.GetOr(0) < Max(10, body.throttle.value.restoreRate.GetOr(50) / 2)
  }

  /** A throttle status without fields pauses: 0 < max(10, 25). */
  lemma ThrottlePauseDefaults()
    ensures ThrottlePause(GqlBody(Some(ThrottleStatus(None, None)), false, None))
  {
  }

  /** With the default restore rate, the pause starts below 25 points. */
  lemma ThrottlePauseThreshold(body: GqlBody, n: int)
    requires body.throttle == Some(ThrottleStatus(Some(n), None))
    ensures ThrottlePause(body) <==> n < 25
  {
  }

  function GqlResponseStep(r: GqlResponse, b: nat): Step<Json, GqlError> {
    if r.status == 200 then
      if r.body.errors then Fail(GqlErrors) else Done(r.body.data.GetOr(JObj([])))
    else if r.status == 429 || r.status == 430 || r.status >= 500 then
      match r.retryAfter
      case Seconds(ms) => Again(Fixed(ms), b)
      case Malformed => Fail(GqlBadRetryAfter)
      case _ => Backoff(b)
    else if 400 <= r.status < 500 then Fail(GqlHttpError(r.status))
    else Again(NoWait, b)
  }

  /** One attempt of `graphql`; a transport exception is not caught. */
  function GqlStep(ev: Event<GqlResponse>, b: nat): Attempt<Json, GqlError> {
    match ev
    case Delivered(r) => Attempt(ThrottlePause(r.body), GqlResponseStep(r, b))
    case _ => Attempt(false, Fail(GqlTransport))
  }

  function GqlAt(net: nat -> Event<GqlResponse>): (nat, nat) -> Attempt<Json, GqlError> {
    (a: nat, b: nat) => GqlStep(net(a), b)
  }

  function GqlTsAfter(start: int, net: nat -> Event<GqlResponse>, after: nat -> int, m: nat): int {
    if m == 0 then start
    else if net(m - 1).Delivered? then after(m - 1)
    else GqlTsAfter(start, net, after, m - 1)
  }

  lemma GqlDoubling(net: nat -> Event<GqlResponse>)
    ensures Doubling(GqlAt(net))
  {
    forall a: nat, b: nat
      ensures var s := GqlAt(net)(a, b).next;
        s.Again? ==> if s.wait.Jittered? then s.wait.baseMs == b && s.backoffMs == Min(2 * b, 20000) else s.backoffMs == b
    {
      assert GqlAt(net)(a, b) == GqlStep(net(a), b);
    }
  }

  /** At most `max_retries + 1` posts. */
  lemma GqlSendsAtMost(net: nat -> Event<GqlResponse>, maxRetries: int)
    ensures |Trace(GqlAt(net), Tries(maxRetries), 0, 1000)| <= Tries(maxRetries)
  {
    TraceBound(GqlAt(net), Tries(maxRetries), 0, 1000);
  }

  lemma GqlBackoffSchedule(net: nat -> Event<GqlResponse>, maxRetries: int, i: nat)
    requires i < |JitterBases(Trace(GqlAt(net), Tries(maxRetries), 0, 1000))|
    ensures JitterBases(Trace(GqlAt(net), Tries(maxRetries), 0, 1000))[i] == ClientBackoffMs(i)
  {
    GqlDoubling(net);
    assert ClientBackoffMs(0) == 1000;
    JitterSchedule(GqlAt(net), Tries(maxRetries), 0, 0, i);
  }

  /** A 200 answer ends the loop: with `data` (or `{}`), or raising when
      `errors` is truthy. */
  lemma GqlOkEnds(r: GqlResponse, b: nat)
    requires r.status == 200
    ensures r.body.errors ==> GqlResponseStep(r, b) == Fail(GqlErrors)
    ensures !r.body.errors ==> GqlResponseStep(r, b) == Done(r.body.data.GetOr(JObj([])))
  {
  }

  /** 429, 430 and every status from 500 up are retried; other client
      errors raise at once. */
  lemma GqlRetriedStatuses(r: GqlResponse, b: nat)
    requires r.retryAfter != Malformed
    ensures (r.status == 429 || r.status == 430 || r.status >= 500) ==> GqlResponseStep(r, b).Again?
    ensures 400 <= r.status < 500 && r.status != 429 && r.status != 430 ==> GqlResponseStep(r, b) == Fail(GqlHttpError(r.status))
  {
  }

  // ---------------------------------------------------------------------
  // The client

  class Client {
    var minRestMs: int
    var minGqlMs: int
    var lastRestTs: int
    var lastGqlTs: int
    var maxRetries: int

    /** A client; each setting is `None` when its variable is unset: 120 ms
        between REST calls, 120 ms between GraphQL calls, 8 retries. */
    constructor(restIntervalEnv: Option<int>, gqlIntervalEnv: Option<int>, maxRetriesEnv: Option<int>)
      ensures minRestMs == restIntervalEnv.GetOr(120) && minGqlMs == gqlIntervalEnv.GetOr(120)
      ensures maxRetries == maxRetriesEnv.GetOr(8)
      ensures lastRestTs == 0 && lastGqlTs == 0
    {
      minRestMs := restIntervalEnv.GetOr(120);
      minGqlMs := gqlIntervalEnv.GetOr(120);
      maxRetries := maxRetriesEnv.GetOr(8);
      lastRestTs := 0;
      lastGqlTs := 0;
    }

    /** `_rest`. `net(a)` is what try `a` gets from the wire, `now` the time
        the spacing wait reads and `after(a)` the time recorded after try
        `a`. Returned: the result, the spacing sleep and the attempts. */
    method Rest(verb: Verb, net: nat -> Event<RestResponse>, now: int, after: nat -> int)
      returns (out: Result<Json, RestError>, spacingMs: nat, attempts: seq<Attempt<Json, RestError>>)
      modifies this`lastRestTs
      ensures spacingMs == MinIntervalWait(now - old(lastRestTs), minRestMs)
      ensures attempts == Trace(RestAt(verb, net, maxRetries), Tries(maxRetries), 0, 1000)
      ensures out == Outcome(attempts, RestExhausted)
      ensures lastRestTs == RestTsAfter(old(lastRestTs), verb, net, after, |attempts|)
    {
      spacingMs := MinIntervalWait(now - lastRestTs, minRestMs);
      ghost var start := lastRestTs;
      ghost var at := RestAt(verb, net, maxRetries);
      var n := Tries(maxRetries);
      var backoff := 1000;
      attempts := [];
      for attempt := 0 to n
        invariant |attempts| == attempt
        invariant Trace(at, n, 0, 1000) == attempts + Trace(at, n, attempt, backoff)
        invariant lastRestTs == RestTsAfter(start, verb, net, after, attempt)
        invariant attempts == [] || attempts[|attempts| - 1].next.Again?
      {
        var s;
        s, attempts := RestRound(verb, net, after, n, attempt, backoff, attempts, start);
        if s.next.Done? {
          out := Ok(s.next.value);
          return;
        } else if s.next.Fail? {
          out := Err(s.next.error);
          return;
        }
        backoff := s.next.backoffMs;
      }
      assert Trace(at, n, n, backoff) == [];
      out := Err(RestExhausted);
    }

    /** Try `attempt` of `_rest` at backoff `backoff`, with what it adds to
        the attempts. */
    method RestRound(verb: Verb, net: nat -> Event<RestResponse>, after: nat -> int, n: nat, attempt: nat, backoff: nat,
                     attempts: seq<Attempt<Json, RestError>>, ghost start: int)
      returns (s: Attempt<Json, RestError>, attempts': seq<Attempt<Json, RestError>>)
      modifies this`lastRestTs
      requires attempt < n && |attempts| == attempt
      requires Trace(RestAt(verb, net, maxRetries), n, 0, 1000) == attempts + Trace(RestAt(verb, net, maxRetries), n, attempt, backoff)
      requires lastRestTs == RestTsAfter(start, verb, net, after, attempt)
      ensures attempts' == attempts + [s]
      ensures s.next.Again? ==>
        Trace(RestAt(verb, net, maxRetries), n, 0, 1000) == attempts' + Trace(RestAt(verb, net, maxRetries), n, attempt + 1, s.next.backoffMs)
      ensures !s.next.Again? ==> Trace(RestAt(verb, net, maxRetries), n, 0, 1000) == attempts'
      ensures lastRestTs == RestTsAfter(start, verb, net, after, attempt + 1)
    {
      ghost var at := RestAt(verb, net, maxRetries);
      s := RestTry(verb, net(attempt), attempt >= maxRetries, backoff, after(attempt));
      assert s == at(attempt, backoff);
      TraceAdvance(at, n, 1000, attempts, attempt, backoff);
      attempts' := attempts + [s];
    }

    /** The body of one try of `_rest`: a supported verb sends the request
        and, once an answer is delivered, records the time `ts`. */
    method RestTry(verb: Verb, ev: Event<RestResponse>, final: bool, backoff: nat, ts: int)
      returns (s: Attempt<Json, RestError>)
      modifies this`lastRestTs
      ensures s == RestStep(verb, ev, final, backoff)
      ensures lastRestTs == if verb != OtherVerb && ev.Delivered? then ts else old(lastRestTs)
    {
      if verb != OtherVerb && ev.Delivered? {
        lastRestTs := ts;
      }
      s := RestStep(verb, ev, final, backoff);
    }

    /** The body of one try of `graphql`: every delivered answer records
        the time `ts`. */
    method GqlTry(ev: Event<GqlResponse>, backoff: nat, ts: int) returns (s: Attempt<Json, GqlError>)
      modifies this`lastGqlTs
      ensures s == GqlStep(ev, backoff)
      ensures lastGqlTs == if ev.Delivered? then ts else old(lastGqlTs)
    {
      if ev.Delivered? {
        lastGqlTs := ts;
      }
      s := GqlStep(ev, backoff);
    }

    /** `graphql`: one spacing wait before the loop, then at most
        `max_retries + 1` posts. */
    method Graphql(net: nat -> Event<GqlResponse>, now: int, after: nat -> int)
      returns (out: Result<Json, GqlError>, spacingMs: nat, attempts: seq<Attempt<Json, GqlError>>)
      modifies this`lastGqlTs
      ensures spacingMs == MinIntervalWait(now - old(lastGqlTs), minGqlMs)
      ensures attempts == Trace(GqlAt(net), Tries(maxRetries), 0, 1000)
      ensures out == Outcome(attempts, GqlExhausted)
      ensures lastGqlTs == GqlTsAfter(old(lastGqlTs), net, after, |attempts|)
    {
      spacingMs := MinIntervalWait(now - lastGqlTs, minGqlMs);
      ghost var start := lastGqlTs;
      ghost var at := GqlAt(net);
      var n := Tries(maxRetries);
      var backoff := 1000;
      attempts := [];
      for attempt := 0 to n
        invariant |attempts| == attempt
        invariant Trace(at, n, 0, 1000) == attempts + Trace(at, n, attempt, backoff)
        invariant lastGqlTs == GqlTsAfter(start, net, after, attempt)
        invariant attempts == [] || attempts[|attempts| - 1].next.Again?
      {
        var s;
        s, attempts := GqlRound(net, after, n, attempt, backoff, attempts, start);
        if s.next.Done? {
          out := Ok(s.next.value);
          return;
        } else if s.next.Fail? {
          out := Err(s.next.error);
          return;
        }
        backoff := s.next.backoffMs;
      }
      assert Trace(at, n, n, backoff) == [];
      out := Err(GqlExhausted);
    }

    /** Post `attempt` of `graphql` at backoff `backoff`, with what it adds
        to the attempts. */
    method GqlRound(net: nat -> Event<GqlResponse>, after: nat -> int, n: nat, attempt: nat, backoff: nat,
                    attempts: seq<Attempt<Json, GqlError>>, ghost start: int)
      returns (s: Attempt<Json, GqlError>, attempts': seq<Attempt<Json, GqlError>>)
      modifies this`lastGqlTs
      requires attempt < n && |attempts| == attempt
      requires Trace(GqlAt(net), n, 0, 1000) == attempts + Trace(GqlAt(net), n, attempt, backoff)
      requires lastGqlTs == GqlTsAfter(start, net, after, attempt)
      ensures attempts' == attempts + [s]
      ensures s.next.Again? ==> Trace(GqlAt(net), n, 0, 1000) == attempts' + Trace(GqlAt(net), n, attempt + 1, s.next.backoffMs)
      ensures !s.next.Again? ==> Trace(GqlAt(net), n, 0, 1000) == attempts'
      ensures lastGqlTs == GqlTsAfter(start, net, after, attempt + 1)
    {
      ghost var at := GqlAt(net);
      s := GqlTry(net(attempt), backoff, after(attempt));
      assert s == at(attempt, backoff);
      TraceAdvance(at, n, 1000, attempts, attempt, backoff);
      attempts' := attempts + [s];
    }
  }

  // ---------------------------------------------------------------------
  // Mutations and their payloads

  /** The pair for an optional field: none when the value is absent. */
  function OptEntry(k: string, o: Option<Json>): (d: Dict<string, Json>)
    ensures Keys(d) == if o.Some? then [k] else []
  {
    if o.Some? then [(k, o.value)] else []
  }

  function StrField(o: Option<string>): Option<Json> {
    if o.Some? then Some(JStr(o.value)) else None
  }

  function TagsField(tags: Option<seq<string>>): Option<Json> {
    if tags.Some? then Some(JArr(Strs(tags.value))) else None
  }

  /** The product input `product_update` builds: `id`, then one pair per
      optional field passed. */
  function ProductInput(productId: string, title: Option<string>, handle: Option<string>,
                        status: Option<string>, tags: Option<seq<string>>): Dict<string, Json> {
    [("id", JStr(productId))] + OptEntry("title", StrField(title)) + OptEntry("handle", StrField(handle))
      + OptEntry("status", StrField(status)) + OptEntry("tags", TagsField(tags))
  }

  /** The `input` of `productUpdate`, filled key by key. */
  method ProductUpdateInput(productId: string, title: Option<string>, handle: Option<string>,
                            status: Option<string>, tags: Option<seq<string>>)
    returns (inp: Dict<string, Json>)
    ensures inp == ProductInput(productId, title, handle, status, tags)
  {
    InputKeysDistinct();
    inp := [("id", JStr(productId))];
    assert Keys(inp) == ["id"];
    inp := PutIfPresent(inp, "title", StrField(title), "handle", "status", "tags");
    inp := PutIfPresent(inp, "handle", StrField(handle), "status", "tags", "tags");
    inp := PutIfPresent(inp, "status", StrField(status), "tags", "tags", "tags");
    inp := PutIfPresent(inp, "tags", TagsField(tags), "tags", "tags", "tags");
  }

  /** `if x is not None: inp[k] = x` on a key not yet present; the keys
      `x`, `y`, `z` assigned later stay absent when they differ from `k`. */
  method PutIfPresent(d: Dict<string, Json>, k: string, o: Option<Json>, x: string, y: string, z: string)
    returns (r: Dict<string, Json>)
    requires k !in Keys(d)
    ensures r == d + OptEntry(k, o)
    ensures x != k && x !in Keys(d) ==> x !in Keys(r)
    ensures y != k && y !in Keys(d) ==> y !in Keys(r)
    ensures z != k && z !in Keys(d) ==> z !in Keys(r)
  {
    if o.Some? {
      PutFresh(d, k, o.value);
      r := Put(d, k, o.value);
    } else {
      assert d + [] == d;
      r := d;
    }
    KeysAppend(d, OptEntry(k, o));
  }

  /** `id` always comes first, then exactly the fields passed, in the order
      `title`, `handle`, `status`, `tags`; an empty tag list is a field
      passed. */
  lemma ProductInputKeys(productId: string, title: Option<string>, handle: Option<string>,
                         status: Option<string>, tags: Option<seq<string>>)
    ensures Keys(ProductInput(productId, title, handle, status, tags))
         == ["id"] + (if title.Some? then ["title"] else []) + (if handle.Some? then ["handle"] else [])
            + (if status.Some? then ["status"] else []) + (if tags.Some? then ["tags"] else [])
  {
    var d1 := [("id", JStr(productId))] + OptEntry("title", StrField(title));
    var d2 := d1 + OptEntry("handle", StrField(handle));
    var d3 := d2 + OptEntry("status", StrField(status));
    KeysAppend([("id", JStr(productId))], OptEntry("title", StrField(title)));
    KeysAppend(d1, OptEntry("handle", StrField(handle)));
    KeysAppend(d2, OptEntry("status", StrField(status)));
    KeysAppend(d3, OptEntry("tags", TagsField(tags)));
  }

  /** Looking up a key after one more optional pair. */
  lemma GetOptEntry(d: Dict<string, Json>, k: string, o: Option<Json>, x: string)
    requires x != k || Get(d, k) == None
    ensures Get(d + OptEntry(k, o), x) == if x == k && o.Some? then o else Get(d, x)
  {
    GetAppend(d, OptEntry(k, o), x);
  }

  /** Each field holds what was passed for it, `id` the product id. */
  lemma ProductInputGet(productId: string, title: Option<string>, handle: Option<string>,
                        status: Option<string>, tags: Option<seq<string>>, x: string)
    requires x in {"id", "title", "handle", "status", "tags"}
    ensures Get(ProductInput(productId, title, handle, status, tags), x)
         == if x == "id" then Some(JStr(productId)) else if x == "title" then StrField(title)
            else if x == "handle" then StrField(handle) else if x == "status" then StrField(status)
            else TagsField(tags)
  {
    InputKeysDistinct();
    var d0 := [("id", JStr(productId))];
    var d1 := d0 + OptEntry("title", StrField(title));
    var d2 := d1 + OptEntry("handle", StrField(handle));
    var d3 := d2 + OptEntry("status", StrField(status));
    assert Get(d0, x) == if x == "id" then Some(JStr(productId)) else None;
    GetOptEntry(d0, "title", StrField(title), x);
    GetOptEntry(d1, "handle", StrField(handle), x);
    GetOptEntry(d2, "status", StrField(status), x);
    GetOptEntry(d3, "tags", TagsField(tags), x);
  }

  /** The five keys of a product input are different strings. */
  lemma InputKeysDistinct()
    ensures "id" != "title" && "id" != "handle" && "id" != "status" && "id" != "tags"
    ensures "title" != "handle" && "title" != "status" && "title" != "tags"
    ensures "handle" != "status" && "handle" != "tags" && "status" != "tags"
  {
    assert "handle"[0] != "status"[0];
  }

  /** A list of strings as JSON. */
  function Strs(ss: seq<string>): (j: seq<Json>)
    ensures |j| == |ss| && forall i :: 0 <= i < |ss| ==> j[i] == JStr(ss[i])
  {
    if ss == [] then [] else [JStr(ss[0])] + Strs(ss[1..])
  }

  /** One `(id, price, compareAt)` tuple of `product_variants_bulk_update`. */
  datatype VariantPrice = VariantPrice(id: string, price: real, compareAt: Option<real>)

  function BulkEntry(u: VariantPrice): Json {
    JObj([("id", JStr(u.id)), ("price", JNum(u.price)),
          ("compareAtPrice", if u.compareAt.Some? then JNum(u.compareAt.value) else JNull)])
  }

  /** The `variants` list: one entry per tuple, in order; a missing
      compare-at price is sent as `null`. */
  function BulkPayload(updates: seq<VariantPrice>): (p: seq<Json>)
    ensures |p| == |updates|
    ensures forall i :: 0 <= i < |updates| ==> p[i] == BulkEntry(updates[i])
  {
    if updates == [] then [] else [BulkEntry(updates[0])] + BulkPayload(updates[1..])
  }

  /** One metafield as `get_product_metafields` returns it. */
  datatype Metafield = Metafield(namespace: string, key: string, mtype: string, value: string)

  function MetafieldEntry(ownerId: string, m: Metafield): Json {
    JObj([("ownerId", JStr(ownerId)), ("namespace", JStr(m.namespace)), ("key", JStr(m.key)),
          ("type", JStr(m.mtype)), ("value", JStr(m.value))])
  }

  /** The payload loop of `set_product_metafields`: one entry per
      metafield, in order, each naming the owner. */
  method MetafieldsPayload(ownerId: string, metafields: seq<Metafield>) returns (payload: seq<Json>)
    ensures |payload| == |metafields|
    ensures forall i :: 0 <= i < |metafields| ==> payload[i] == MetafieldEntry(ownerId, metafields[i])
  {
    payload := [];
    for i := 0 to |metafields|
      invariant |payload| == i
      invariant forall k :: 0 <= k < i ==> payload[k] == MetafieldEntry(ownerId, metafields[k])
    {
      payload := payload + [MetafieldEntry(ownerId, metafields[i])];
    }
  }

  /** The part of a mutation's answer the wrappers look at. */
  datatype Mutation = Mutation(userErrors: seq<Json>, result: Json)

  datatype MutationError = Gql(error: GqlError) | UserErrors(errors: seq<Json>)

  /** `product_duplicate`, `product_update`, `product_variants_bulk_update`
      and `set_product_metafields` after their `graphql` call: non-empty
      `userErrors` raise. */
  function CheckMutation(r: Result<Mutation, GqlError>): Result<Json, MutationError>
  {
    if r.Err? then Err(Gql(r.error))
    else if r.value.userErrors != [] then Err(UserErrors(r.value.userErrors))
    else Ok(r.value.result)
  }

  /** A mutation wrapper over a whole `graphql` call, `answer` being how it
      reads `userErrors` and its result out of `data`. It succeeds, or
      reports user errors, only when the last post got a 200 without
      `errors`, and it succeeds exactly when that data holds no user errors,
      returning its result. A last 200 with `errors` is reported as that
      GraphQL error. */
  lemma CheckMutationOfGraphql(net: nat -> Event<GqlResponse>, maxRetries: int, answer: Json -> Mutation)
    ensures var t := Trace(GqlAt(net), Tries(maxRetries), 0, 1000);
      var out := Outcome(t, GqlExhausted);
      var m := CheckMutation(if out.Ok? then Ok(answer(out.value)) else Err(out.error));
      && (m.Ok? || m.error.UserErrors? ==>
            && t != [] && net(|t| - 1).Delivered?
            && net(|t| - 1).response.status == 200 && !net(|t| - 1).response.body.errors
            && var a := answer(net(|t| - 1).response.body.data.GetOr(JObj([])));
               (m.Ok? <==> a.userErrors == []) && (m.Ok? ==> m.value == a.result))
      && (t != [] && net(|t| - 1).Delivered? && net(|t| - 1).response.status == 200 && net(|t| - 1).response.body.errors
          ==> m == Err(Gql(GqlErrors)))
  {
    var t := Trace(GqlAt(net), Tries(maxRetries), 0, 1000);
    if t != [] {
      var bb := BackoffBefore(GqlAt(net), 0, 1000, |t| - 1);
      TraceAt(GqlAt(net), Tries(maxRetries), 0, 1000, |t| - 1);
      assert GqlAt(net)(|t| - 1, bb) == GqlStep(net(|t| - 1), bb);
    }
  }

  // ---------------------------------------------------------------------
  // product_create_media_from_urls

  /** The part of a `productCreateMedia` answer the loop reads. */
  datatype MediaAnswer = MediaAnswer(userErrors: seq<Json>, mediaUserErrors: seq<Json>, mediaIds: seq<string>)

  datatype MediaError = MediaGql(error: GqlError) | MediaUserErrors | NoMediaReturned

  /** The `media` argument for one image: its url, as an image, with an
      empty alt text. */
  function MediaInput(url: string): Json {
    JArr([JObj([("originalSource", JStr(url)), ("mediaContentType", JStr("IMAGE")), ("alt", JStr(""))])])
  }

  /** Image `i` goes through: its creation answers without errors and with
      a media id, and the rename does not raise. */
  predicate MediaOk(create: nat -> Result<MediaAnswer, GqlError>, rename: nat -> Option<GqlError>, i: nat) {
    create(i).Ok? && create(i).value.userErrors == [] && create(i).value.mediaUserErrors == []
    && create(i).value.mediaIds != [] && rename(i).None?
  }

  /** `product_create_media_from_urls`. `create(i)` is what the creation
      call for image `i` yields and `rename(i)` the error the rename call
      raises, if any. Returned: the media ids, the creation payloads sent and
      the renames requested. */
  method CreateMediaFromUrls(images: seq<(string, string)>, create: nat -> Result<MediaAnswer, GqlError>,
                             rename: nat -> Option<GqlError>)
    returns (out: Result<seq<string>, MediaError>, sent: seq<Json>, renames: seq<(string, string)>)
    ensures |sent| <= |images| && forall i :: 0 <= i < |sent| ==> sent[i] == MediaInput(images[i].0)
    ensures out.Ok? <==> forall i :: 0 <= i < |images| ==> MediaOk(create, rename, i)
    ensures out.Ok? ==> |sent| == |images| && |out.value| == |images|
    ensures out.Ok? ==> forall i :: 0 <= i < |images| ==> MediaOk(create, rename, i) && out.value[i] == create(i).value.mediaIds[0]
    ensures out.Err? ==> sent != [] && !MediaOk(create, rename, |sent| - 1)
                         && forall i :: 0 <= i < |sent| - 1 ==> MediaOk(create, rename, i)
    ensures |renames| <= |sent|
    ensures forall i :: 0 <= i < |renames| ==>
      create(i).Ok? && create(i).value.mediaIds != []
      && renames[i] == (create(i).value.mediaIds[0], images[i].1 + "-Outlet")
  {
    var created: seq<string> := [];
    sent := [];
    renames := [];
    for i := 0 to |images|
      invariant |sent| == i && MediaSoFar(images, create, rename, sent, created, renames)
    {
      var stop;
      stop, sent, created, renames := MediaRound(images, create, rename, sent, created, renames);
      if stop.Some? {
        out := Err(stop.value);
        return;
      }
    }
    out := Ok(created);
  }

  /** The first `|sent|` images went through, with their payloads, media
      ids and renames. */
  ghost predicate MediaSoFar(images: seq<(string, string)>, create: nat -> Result<MediaAnswer, GqlError>,
                             rename: nat -> Option<GqlError>, sent: seq<Json>, created: seq<string>,
                             renames: seq<(string, string)>)
  {
    && |sent| == |created| == |renames| <= |images|
    && RenamesOk(images, create, renames)
    && forall k :: 0 <= k < |sent| ==>
         sent[k] == MediaInput(images[k].0) && MediaOk(create, rename, k) && created[k] == create(k).value.mediaIds[0]
  }

  /** Every rename requested is of a created media item, to its name plus
      "-Outlet". */
  ghost predicate RenamesOk(images: seq<(string, string)>, create: nat -> Result<MediaAnswer, GqlError>,
                            renames: seq<(string, string)>)
  {
    |renames| <= |images| &&
    forall k :: 0 <= k < |renames| ==>
      create(k).Ok? && create(k).value.mediaIds != []
      && renames[k] == (create(k).value.mediaIds[0], images[k].1 + "-Outlet")
  }

  /** Image `|sent|` of `product_create_media_from_urls`: its creation,
      then its rename; `stop` is the error that ends the loop, if any. */
  method MediaRound(images: seq<(string, string)>, create: nat -> Result<MediaAnswer, GqlError>,
                    rename: nat -> Option<GqlError>, sent: seq<Json>, created: seq<string>,
                    renames: seq<(string, string)>)
    returns (stop: Option<MediaError>, sent': seq<Json>, created': seq<string>, renames': seq<(string, string)>)
    requires |sent| < |images| && MediaSoFar(images, create, rename, sent, created, renames)
    ensures sent' == sent + [MediaInput(images[|sent|].0)]
    ensures stop.None? <==> MediaOk(create, rename, |sent|)
    ensures stop.None? ==> MediaSoFar(images, create, rename, sent', created', renames')
    ensures |renames'| <= |sent'| && RenamesOk(images, create, renames')
  {
    var i := |sent|;
    var (url, name) := images[i];
    sent', created', renames' := sent + [MediaInput(url)], created, renames;
    var answer := create(i);
    if answer.Err? {
      return Some(MediaGql(answer.error)), sent', created', renames';
    }
    if answer.value.userErrors + answer.value.mediaUserErrors != [] {
      assert answer.value.userErrors != [] || answer.value.mediaUserErrors != [];
      return Some(MediaUserErrors), sent', created', renames';
    }
    assert answer.value.userErrors == [] && answer.value.mediaUserErrors == [];
    if answer.value.mediaIds == [] {
      return Some(NoMediaReturned), sent', created', renames';
    }
    var mid := answer.value.mediaIds[0];
    created' := created + [mid];
    renames' := renames + [(mid, name + "-Outlet")];
    if rename(i).Some? {
      return Some(MediaGql(rename(i).value)), sent', created', renames';
    }
    stop := None;
  }
}
