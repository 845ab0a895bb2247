/** `ApiRateLimitSubscriber`: which requests are rate limited, which token
    bucket they draw from and at what limit, and how the limiter's answer
    becomes a request attribute, `X-RateLimit-*` headers and, on rejection,
    a 429 response (section 4 of RFC 6585). The token bucket itself
    (refill, storage, the anonymous policy's configuration) is a parameter:
    `consume` answers for the bucket a `LimiterSpec` names. */
module RateLimit {
  import opened Wrappers
  import opened Text
  import opened EntityRules
  import opened Http
  import opened Security

  /** `Rate` refills every `ONE_MINUTE_INTERVAL` ('PT1M'). */
  const OneMinute: int := 60
  const AdminLimit: int := 10000
  const UserLimit: int := 100

  /** The subscriber gates `/api/` paths except the documentation and the
      GraphiQL console. */
  predicate IsRateLimited(path: string)
    ensures IsRateLimited(path) ==> |path| >= 5 && path[..5] == "/api/"
    ensures StartsWith(path, "/api/docs") ==> !IsRateLimited(path)
    ensures StartsWith(path, "/api/graphql/graphiql") ==> !IsRateLimited(path)
  {
    StartsWith(path, "/api/")
    && !StartsWith(path, "/api/docs")
    && !StartsWith(path, "/api/graphql/graphiql")
  }

  /** The gate on a few concrete paths: the API, but not its bare root, its
      documentation (and anything under it) or the GraphiQL console;
      GraphQL itself is gated. */
  lemma GatingExamples()
    ensures IsRateLimited("/api/movies") && IsRateLimited("/api/graphql")
    ensures !IsRateLimited("/api") && !IsRateLimited("/apis/movies") && !IsRateLimited("/admin")
    ensures !IsRateLimited("/api/docs") && !IsRateLimited("/api/docs.jsonld")
    ensures !IsRateLimited("/api/graphql/graphiql/index")
  {
    assert "/api/movies"[..5] == "/api/";
    assert "/api/movies"[..9][5] != "/api/docs"[5];
    assert "/api/graphql"[..5] == "/api/";
    assert "/api/graphql"[..9][5] != "/api/docs"[5];
    assert "/apis/movies"[..5][4] != "/api/"[4];
    assert "/api/docs.jsonld"[..9] == "/api/docs";
    assert "/api/graphql/graphiql/index"[..21] == "/api/graphql/graphiql";
  }

  /** Every path under an exempt prefix is exempt, and a gated path starts
      with `/api/`. */
  lemma ExemptionCoversSubpaths(path: string, rest: string)
    ensures StartsWith(path, "/api/docs") ==> !IsRateLimited(path + rest)
    ensures StartsWith(path, "/api/graphql/graphiql") ==> !IsRateLimited(path + rest)
    ensures IsRateLimited(path + rest) ==> StartsWith(path + rest, "/api/")
  {
    if StartsWith(path, "/api/docs") {
      StartsWithExtended(path, rest, "/api/docs");
    }
    if StartsWith(path, "/api/graphql/graphiql") {
      StartsWithExtended(path, rest, "/api/graphql/graphiql");
    }
  }

  /** The limiter `createLimiter` builds: one from the anonymous factory,
      keyed by the client, or a token bucket for an account. */
  datatype LimiterSpec =
    | Anonymous(key: string)
    | TokenBucket(id: string, maxBurst: int, interval: int, amount: int)

  /** The answer of `consume()`: accepted or not, the bucket's limit, the
      tokens left, and the epoch second from which a retry may succeed. */
  datatype RateLimitResult = RateLimitResult(accepted: bool, limit: int, remaining: int, retryAfter: int)

  /** The `_rate_limit` request attribute. */
  datatype RateLimitInfo = RateLimitInfo(limit: int, remaining: int, reset: int)

  /** An anonymous caller's bucket key: the client IP, or `'unknown'` when
      the request has none. */
  function AnonymousKey(clientIp: Option<string>): (key: string)
    ensures clientIp.Some? ==> key == clientIp.value
    ensures clientIp.None? ==> key == "unknown"
  {
    clientIp.GetOr("unknown")
  }

  /** The `match (true)` of `createAuthenticatedLimiter`, over the roles
      `getRoles()` returns: administrators first, then users, then the
      account's stored `limiter`. */
  function TierLimit(roles: seq<string>, limiter: int): (limit: int)
    ensures RoleAdmin in roles ==> limit == AdminLimit
    ensures RoleAdmin !in roles && RoleUser in roles ==> limit == UserLimit
    ensures RoleAdmin !in roles && RoleUser !in roles ==> limit == limiter
  {
    if RoleAdmin in roles then AdminLimit
    else if RoleUser in roles then UserLimit
    else limiter
  }

  /** The limit of an account whose stored roles are `stored`. Because
      `getRoles()` always includes `ROLE_USER`, the default arm is dead: the
      limit is 10000 for an administrator and 100 for anyone else, and the
      stored `limiter` never matters. */
  function AccountLimit(stored: seq<string>, limiter: int): (limit: int)
    ensures limit == (if RoleAdmin in stored then AdminLimit else UserLimit)
  {
    EffectiveRolesSpec(stored);
    TierLimit(EffectiveRoles(stored), limiter)
  }

  /** The limit is one of the two tiers, whatever the stored override. */
  lemma StoredLimiterIgnored(stored: seq<string>, limiter1: int, limiter2: int)
    ensures AccountLimit(stored, limiter1) == AccountLimit(stored, limiter2)
    ensures AccountLimit(stored, limiter1) in {UserLimit, AdminLimit}
  {
  }

  /** `createAuthenticatedLimiter`: the bucket `'user_' . identifier`, whose
      burst equals its per-minute refill. */
  function AccountLimiter(email: Option<string>, stored: seq<string>, limiter: int): (spec: LimiterSpec)
    ensures spec.TokenBucket?
    ensures spec.id == "user_" + UserIdentifier(email)
    ensures spec.maxBurst == spec.amount && spec.interval == OneMinute
    ensures spec.amount == (if RoleAdmin in stored then AdminLimit else UserLimit)
  {
    var limit := AccountLimit(stored, limiter);
    TokenBucket("user_" + UserIdentifier(email), limit, OneMinute, limit)
  }

  /** `createLimiter`: an account's bucket when authenticated, else the
      anonymous bucket of the client. */
  function LimiterFor(principal: Principal, clientIp: Option<string>): (spec: LimiterSpec)
    reads if principal.AppUser? then {principal.user} else {}
    ensures spec.Anonymous? <==> !principal.IsAppUser()
    ensures spec.Anonymous? ==> spec.key == AnonymousKey(clientIp)
    ensures principal.AppUser? ==>
      spec == AccountLimiter(principal.user.email, principal.user.roles, principal.user.limiter)
  {
    match principal
    case AppUser(u) => AccountLimiter(u.email, u.roles, u.limiter)
    case _ => Anonymous(AnonymousKey(clientIp))
  }

  /** The attribute recorded from a limiter answer. */
  function InfoOf(limit: RateLimitResult): RateLimitInfo {
    RateLimitInfo(limit.limit, limit.remaining, limit.retryAfter)
  }

  /** The body of the 429 response. */
  function RejectionBody(limit: RateLimitResult): map<string, Json> {
    map["error" := JString("Too Many Requests"),
        "message" := JString("Rate limit exceeded. Please try again later."),
        "retry_after" := JInt(limit.retryAfter)]
  }

  /** The headers `handleRateLimitExceeded` sets, in order, on its new response. */
  function RejectionHeaders(limit: RateLimitResult): map<string, string> {
    map[][ "Retry-After" := IntToString(limit.retryAfter)]
         [ "X-RateLimit-Limit" := IntToString(limit.limit)]
         [ "X-RateLimit-Remaining" := "0"]
         [ "X-RateLimit-Reset" := IntToString(limit.retryAfter)]
  }

  /** The headers `onKernelResponse` writes from the attribute. */
  function WithRateLimitHeaders(headers: map<string, string>, info: RateLimitInfo): map<string, string> {
    headers[ "X-RateLimit-Limit" := IntToString(info.limit)]
           [ "X-RateLimit-Remaining" := IntToString(info.remaining)]
           [ "X-RateLimit-Reset" := IntToString(info.reset)]
  }

  /** A rejected request's response says "retry at" three times with one
      and the same epoch second (an absolute time, not the delay in seconds
      of section 10.2.3 of RFC 9110), and reports no tokens left. */
  lemma RejectionAgrees(limit: RateLimitResult)
    ensures var h := RejectionHeaders(limit);
      && h.Keys == {"Retry-After", "X-RateLimit-Limit", "X-RateLimit-Remaining", "X-RateLimit-Reset"}
      && StringToInt(h["Retry-After"]) == Some(limit.retryAfter)
      && h["X-RateLimit-Reset"] == h["Retry-After"]
      && RejectionBody(limit)["retry_after"] == JInt(limit.retryAfter)
      && StringToInt(h["X-RateLimit-Remaining"]) == Some(0)
      && StringToInt(h["X-RateLimit-Limit"]) == Some(limit.limit)
  {
    var h := RejectionHeaders(limit);
    assert h["Retry-After"] == h["X-RateLimit-Reset"] == IntToString(limit.retryAfter);
    assert h["X-RateLimit-Limit"] == IntToString(limit.limit);
    assert h["X-RateLimit-Remaining"] == "0";
    IntToStringRoundTrip(limit.retryAfter);
    IntToStringRoundTrip(limit.limit);
    IntToStringRoundTrip(0);
  }

  /** What a rejected request's client finally sees, once `onKernelResponse`
      has copied the attribute over the 429's headers: `Retry-After` and the
      reset still agree, and `X-RateLimit-Remaining` is now the limiter's
      count rather than `'0'`. */
  lemma RejectedResponseHeaders(limit: RateLimitResult)
    ensures var h := WithRateLimitHeaders(RejectionHeaders(limit), InfoOf(limit));
      && h["Retry-After"] == h["X-RateLimit-Reset"] == IntToString(limit.retryAfter)
      && StringToInt(h["X-RateLimit-Remaining"]) == Some(limit.remaining)
  {
    IntToStringRoundTrip(limit.remaining);
  }

  class Request {
    const pathInfo: string
    const clientIp: Option<string>
    /** The `_rate_limit` attribute, null until the subscriber sets it. */
    var rateLimit: Option<RateLimitInfo>

    constructor (pathInfo: string, clientIp: Option<string>)
      ensures this.pathInfo == pathInfo && this.clientIp == clientIp && rateLimit.None?
    {
      this.pathInfo, this.clientIp, rateLimit := pathInfo, clientIp, None;
    }
  }

  class RequestEvent {
    const request: Request
    /** The response set on the event; null lets the request continue. */
    var response: Response?

    constructor (request: Request)
      ensures this.request == request && response == null
    {
      this.request, response := request, null;
    }

    method SetResponse(r: Response)
      modifies this`response
      ensures response == r
    {
      response := r;
    }
  }

  /** `onKernelRequest`: a gated request draws one token from its bucket
      and records the answer as `_rate_limit`; a rejected one also gets a
      429 response. Any other request is left untouched. */
  method OnKernelRequest(event: RequestEvent, principal: Principal, consume: LimiterSpec -> RateLimitResult)
    modifies event.request`rateLimit, event`response
    ensures var path := event.request.pathInfo;
      !IsRateLimited(path) ==> event.request.rateLimit == old(event.request.rateLimit) && event.response == old(event.response)
    ensures var limit := consume(LimiterFor(principal, event.request.clientIp));
      IsRateLimited(event.request.pathInfo) ==>
        && event.request.rateLimit == Some(InfoOf(limit))
        && (limit.accepted ==> event.response == old(event.response))
        && (!limit.accepted ==>
              && event.response != null && fresh(event.response)
              && event.response.status == 429
              && event.response.headers == RejectionHeaders(limit)
              && event.response.body == RejectionBody(limit))
  {
    var request := event.request;
    if !StartsWith(request.pathInfo, "/api/") {
      return;
    }
    if StartsWith(request.pathInfo, "/api/docs") || StartsWith(request.pathInfo, "/api/graphql/graphiql") {
      return;
    }
    var limiter := LimiterFor(principal, request.clientIp);
    var limit := consume(limiter);
    request.rateLimit := Some(InfoOf(limit));
    if !limit.accepted {
      HandleRateLimitExceeded(event, limit);
    }
  }

  /** `handleRateLimitExceeded`: a fresh 429 JSON response with the retry
      time, the limit and no tokens left becomes the event's response. */
  method HandleRateLimitExceeded(event: RequestEvent, limit: RateLimitResult)
    modifies event`response
    ensures event.response != null && fresh(event.response)
    ensures event.response.status == 429
    ensures event.response.headers == RejectionHeaders(limit)
    ensures event.response.body == RejectionBody(limit)
  {
    var retryAfter := limit.retryAfter;
    var response := new Response(429, RejectionBody(limit));
    response.SetHeader("Retry-After", IntToString(retryAfter));
    response.SetHeader("X-RateLimit-Limit", IntToString(limit.limit));
    response.SetHeader("X-RateLimit-Remaining", "0");
    response.SetHeader("X-RateLimit-Reset", IntToString(retryAfter));
    event.SetResponse(response);
  }

  /** `onKernelResponse`: copies the recorded attribute into the three
      `X-RateLimit-*` headers; without the attribute, nothing changes. */
  method OnKernelResponse(request: Request, response: Response)
    modifies response`headers
    ensures request.rateLimit.None? ==> response.headers == old(response.headers)
    ensures request.rateLimit.Some? ==> response.headers == WithRateLimitHeaders(old(response.headers), request.rateLimit.value)
  {
    var info := request.rateLimit;
    if info.None? {
      return;
    }
    response.SetHeader("X-RateLimit-Limit", IntToString(info.value.limit));
    response.SetHeader("X-RateLimit-Remaining", IntToString(info.value.remaining));
    response.SetHeader("X-RateLimit-Reset", IntToString(info.value.reset));
  }
}
