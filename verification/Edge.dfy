/** The security middleware of cmd/edge-service/main.go: secret scan, tenant, rate limit,
    abuse detection, then the backend.

    Token validation, JSON decoding and the secret pattern are outside the model: what they
    report arrives with the request. Handing a request to the backend appends the body it
    carries to `forwarded`. */
module Edge {
  import opened Common
  import L = RateLimit
  import H = RequestHistory
  import D = AbuseDetector

  // ---------- Tenants from API keys ----------

  /** strings.Split with a one-character separator. */
  function Split(s: string, sep: char): (parts: seq<string>)
    ensures |parts| >= 1
  {
    if s == "" then [""]
    else if s[0] == sep then [""] + Split(s[1..], sep)
    else
      var rest := Split(s[1..], sep);
      [[s[0]] + rest[0]] + rest[1..]
  }

  function ExtractTenantFromKey(apiKey: string): string {
    Split(apiKey, '_')[0]
  }

  /** The extracted tenant is the part before the first underscore: keys made as
      {tenant}_key_{random} give their tenant back, and a key without underscore is all tenant. */
  lemma {:induction false} TenantIsPrefix(tenant: string, rest: string)
    requires '_' !in tenant
    ensures ExtractTenantFromKey(tenant + "_" + rest) == tenant
    ensures ExtractTenantFromKey(tenant) == tenant
  {
    if tenant != "" {
      TenantIsPrefix(tenant[1..], rest);
      assert (tenant + "_" + rest)[1..] == tenant[1..] + "_" + rest;
      assert tenant == [tenant[0]] + tenant[1..];
    } else {
      assert tenant + "_" + rest == "_" + rest;
    }
  }

  // ---------- Requests ----------

  /** What the bearer header of a protected request turned out to be. */
  datatype Bearer = Malformed | Rejected | Accepted(tenant: string)

  /** `body` is None when reading it failed; `apiKey` is the api_key string of a login body, if any. */
  datatype Incoming = Incoming(body: Option<D.Bytes>, login: bool, apiKey: Option<string>, bearer: Bearer,
                               info: D.Info)

  datatype Outcome =
    | UnreadableBody | SecretFound | InvalidTokenFormat | InvalidToken | RateLimited(status: L.Status)
    | Abusive(reason: string) | Forwarded(body: D.Bytes)

  datatype Clock = Clock(allow: real, detect: D.Clock) {
    predicate Ordered() {
      allow <= detect.rate && detect.Ordered()
    }
  }

  datatype Config = Config(secret: D.Bytes -> bool, detector: D.Config)

  datatype State = State(limiter: L.State, store: H.Store, forwarded: seq<D.Bytes>)

  datatype Gate = Stop(outcome: Outcome) | Go(tenant: string, body: D.Bytes)

  /** Everything before the rate limiter. */
  function Screen(c: Config, q: Incoming): Gate {
    if q.body.None? then Stop(UnreadableBody)
    else if c.secret(q.body.value) then Stop(SecretFound)
    else if q.login then
      var tenant := if q.apiKey.Some? then ExtractTenantFromKey(q.apiKey.value) else "";
      Go(if tenant == "" then "unknown" else tenant, q.body.value)
    else match q.bearer
      case Malformed => Stop(InvalidTokenFormat)
      case Rejected => Stop(InvalidToken)
      case Accepted(tenant) => if tenant == "" then Stop(InvalidToken) else Go(tenant, q.body.value)
  }

  /** The abuse signal of a request that got past the limiter. */
  function SignalFor(c: Config, s: State, info: D.Info, gate: Gate, clock: Clock): D.Signal
    requires gate.Go?
  {
    D.DetectSignal(c.detector, s.store, info, Some(gate.body), gate.tenant, clock.detect)
  }

  function OutcomeOf(c: Config, s: State, q: Incoming, clock: Clock): Outcome {
    var gate := Screen(c, q);
    if gate.Stop? then gate.outcome
    else if !L.Admits(s.limiter, gate.tenant, clock.allow)
    then RateLimited(L.StatusOf(L.AfterAllow(s.limiter, gate.tenant, clock.allow), gate.tenant))
    else
      var signal := SignalFor(c, s, q.info, gate, clock);
      if signal.detected then Abusive(signal.reason) else Forwarded(gate.body)
  }

  function Served(c: Config, s: State, q: Incoming, clock: Clock): State {
    var gate := Screen(c, q);
    if gate.Stop? then s
    else
      var limiter := L.AfterAllow(s.limiter, gate.tenant, clock.allow);
      if !L.Admits(s.limiter, gate.tenant, clock.allow) then s.(limiter := limiter)
      else
        var signal := SignalFor(c, s, q.info, gate, clock);
        State(limiter, D.DetectStore(s.store, gate.tenant, q.info.clientIP, clock.detect.track, signal.detected),
              if signal.detected then s.forwarded else s.forwarded + [gate.body])
  }

  class Middleware {
    const limiter: L.TenantLimiter
    const detector: D.Detector
    const secret: D.Bytes -> bool
    var forwarded: seq<D.Bytes>

    constructor (secret: D.Bytes -> bool, patterns: D.Patterns)
      ensures detector.Valid() && fresh(limiter) && fresh(detector)
      ensures GetConfig() == Config(secret, D.Config(D.DEFAULT_THRESHOLDS, patterns))
      ensures Contents() == State(L.Initial(), map[], [])
    {
      this.secret := secret;
      limiter := new L.TenantLimiter();
      detector := new D.Detector(patterns);
      forwarded := [];
    }

    ghost function GetConfig(): Config {
      Config(secret, detector.config)
    }

    ghost function Contents(): State
      reads this, limiter, detector, detector.requestHistory.Values
    {
      State(limiter.Contents(), detector.Contents(), forwarded)
    }

    /** Stages 1 and 2: secret scan and tenant. */
    method ScreenRequest(q: Incoming) returns (gate: Gate)
      ensures gate == Screen(GetConfig(), q)
    {
      if q.body.None? {
        return Stop(UnreadableBody);
      }
      if secret(q.body.value) {
        return Stop(SecretFound);
      }
      var tenant := "";
      if q.login {
        if q.apiKey.Some? {
          tenant := ExtractTenantFromKey(q.apiKey.value);
        }
      } else {
        if q.bearer.Malformed? {
          return Stop(InvalidTokenFormat);
        }
        if q.bearer.Rejected? || q.bearer.tenant == "" {
          return Stop(InvalidToken);
        }
        tenant := q.bearer.tenant;
      }
      if tenant == "" {
        tenant := "unknown";
      }
      return Go(tenant, q.body.value);
    }

    /** Stages 4 and 5: abuse detection, then the backend with the body as first read. */
    method InspectAndForward(r: D.Request, body: D.Bytes, tenant: string, clock: D.Clock) returns (outcome: Outcome)
      requires detector.Valid() && r.body == Some(body)
      modifies this`forwarded, detector`requestHistory, detector.requestHistory.Values, r`body
      ensures detector.Valid()
      ensures var store := old(detector.Contents());
              var signal := D.DetectSignal(detector.config, store, r.info, Some(body), tenant, clock);
              && outcome == (if signal.detected then Abusive(signal.reason) else Forwarded(body))
              && forwarded == (if signal.detected then old(forwarded) else old(forwarded) + [body])
              && detector.Contents() == D.DetectStore(store, tenant, r.info.clientIP, clock.track, signal.detected)
    {
      var signal := detector.Detect(r, tenant, clock);
      if signal.detected {
        return Abusive(signal.reason);
      }
      ghost var store := detector.Contents();
      r.body := Some(body);
      forwarded := forwarded + [r.body.value];
      assert detector.Contents() == store;
      return Forwarded(body);
    }

    method ServeHTTP(q: Incoming, clock: Clock) returns (outcome: Outcome)
      requires detector.Valid()
      modifies this`forwarded, limiter, detector`requestHistory, detector.requestHistory.Values
      ensures detector.Valid()
      ensures outcome == OutcomeOf(GetConfig(), old(Contents()), q, clock)
      ensures Contents() == Served(GetConfig(), old(Contents()), q, clock)
    {
      var gate := ScreenRequest(q);
      if gate.Stop? {
        return gate.outcome;
      }
      var r := new D.Request(q.info, Some(gate.body));
      var allowed := limiter.Allow(gate.tenant, clock.allow);
      assert detector.Contents() == old(detector.Contents());
      if !allowed {
        var status := limiter.GetStatus(gate.tenant);
        return RateLimited(status);
      }
      outcome := InspectAndForward(r, gate.body, gate.tenant, clock.detect);
    }
  }
}
