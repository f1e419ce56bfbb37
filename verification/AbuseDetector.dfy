/** The detector of cmd/edge-service/abuse.go: nine checks folded into one signal, over
    request histories that are updated in place.

    Each check that looks at the clock makes its own reading, so `Detect` takes one reading
    per look. The checks on headers, user agent and path are string matching only; their
    verdicts are carried by the request. The body patterns are arbitrary predicates. */
module AbuseDetector {
  import opened Common
  import opened Decimal
  import opened RequestHistory

  newtype byte = b: int | 0 <= b < 256
  type Bytes = seq<byte>

  datatype Signal = Signal(detected: bool, reason: string, severity: int, recommendations: seq<string>)

  const QUIET := Signal(false, "", 0, [])

  datatype Patterns = Patterns(sql: Bytes -> bool, xss: Bytes -> bool, command: Bytes -> bool)

  datatype Thresholds = Thresholds(maxRequestsPerSecond: int, maxRequestSize: int, velocity: int)

  const DEFAULT_THRESHOLDS := Thresholds(100, 10 * 1024 * 1024, 1000)

  /** What a request carries besides its body. */
  datatype Info = Info(verb: string, contentLength: int, clientIP: string,
                       headers: Signal, userAgent: Signal, path: Signal)

  class Request {
    const info: Info
    var body: Option<Bytes>

    constructor (info: Info, body: Option<Bytes>)
      ensures this.info == info && this.body == body
    {
      this.info := info;
      this.body := body;
    }
  }

  /** The clock readings of one `Detect` call. */
  datatype Clock = Clock(rate: real, velocity: real, bot: real, track: real) {
    predicate Ordered() {
      rate <= velocity <= bot <= track
    }
  }

  datatype Check =
    | RequestSize | SuspiciousHeaders | PayloadInjection | RateLimit | Velocity
    | UserAgent | HttpMethods | PathTraversal | BotPatterns

  const CHECKS := [RequestSize, SuspiciousHeaders, PayloadInjection, RateLimit, Velocity,
                   UserAgent, HttpMethods, PathTraversal, BotPatterns]

  function SourceKey(tenant: string, ip: string): string {
    tenant + "|" + ip
  }

  function VelocityKey(ip: string): string {
    "velocity|" + ip
  }

  // ---------- What each check reports ----------

  function SizeSignal(limits: Thresholds, length: int): Signal {
    if length > limits.maxRequestSize
    then Signal(true, "Request size " + Integer(length) + " exceeds limit " + Integer(limits.maxRequestSize), 8,
                ["Reject request", "Log IP", "Alert security team"])
    else QUIET
  }

  function ScanLimit(contentLength: int): nat {
    if 0 <= contentLength < 10000 then contentLength else 10000
  }

  /** The prefix of the body that is read for scanning. */
  function Scanned(body: Bytes, contentLength: int): Bytes {
    if |body| <= ScanLimit(contentLength) then body else body[..ScanLimit(contentLength)]
  }

  function BodyHit(name: string, severity: int): Signal {
    Signal(true, name + " pattern detected in body", severity,
           ["Block request immediately", "Log with full request details", "Alert security team",
               "Block IP for 1 hour"])
  }

  function PayloadSignal(p: Patterns, body: Option<Bytes>, contentLength: int): Signal {
    if body.None? then QUIET else
      var text := Scanned(body.value, contentLength);
      if p.sql(text) then BodyHit("SQL injection", 9)
      else if p.xss(text) then BodyHit("XSS", 8)
      else if p.command(text) then BodyHit("Command injection", 9)
      else QUIET
  }

  /** The body left behind by the payload check. */
  function BodyAfterScan(body: Option<Bytes>, contentLength: int): Option<Bytes> {
    if body.None? then None else Some(Scanned(body.value, contentLength))
  }

  function RateSignal(limits: Thresholds, h: History, now: real): Signal {
    var n := |Recent(h.requests, now - 1.0)|;
    if n > limits.maxRequestsPerSecond
    then Signal(true, "Rate limit exceeded: " + Integer(n) + " req/sec > " + Integer(limits.maxRequestsPerSecond), 7,
                ["Rate limit tenant", "Return 429 Too Many Requests", "Implement exponential backoff on client"])
    else QUIET
  }

  function VelocitySignal(limits: Thresholds, h: History, now: real, ip: string): Signal {
    var n := |Recent(h.requests, now - 60.0)|;
    if n > limits.velocity
    then Signal(true, "Velocity too high: " + Integer(n) + " req/min from IP " + ip, 6,
                ["Rate limit IP address", "Temporary IP block (15 minutes)", "Alert security team"])
    else QUIET
  }

  function MethodSignal(h: History, verb: string): Signal {
    if (verb == "HEAD" || verb == "OPTIONS" || verb == "TRACE") && |h.requests| > 5
    then Signal(true, "Unusual HTTP method: " + verb, 4, ["Log request", "Monitor for more patterns"])
    else QUIET
  }

  predicate BotFires(h: History, now: real) {
    |h.requests| > 10 && |Recent(h.requests, now - 60.0)| > 50
  }

  function BotSignal(h: History, now: real): Signal {
    var n := |Recent(h.requests, now - 60.0)|;
    if BotFires(h, now)
    then Signal(true, "Bot-like pattern: " + Integer(n) + " requests in 1 minute", 7,
                ["Rate limit tenant", "Require CAPTCHA", "Temporary block"])
    else QUIET
  }

  /** The detector's fixed configuration. */
  datatype Config = Config(limits: Thresholds, patterns: Patterns)

  function Verdict(c: Config, s: Store, q: Info, body: Option<Bytes>, tenant: string, clock: Clock,
                   check: Check): Signal {
    var h := Lookup(s, SourceKey(tenant, q.clientIP));
    match check
    case RequestSize => SizeSignal(c.limits, q.contentLength)
    case SuspiciousHeaders => q.headers
    case PayloadInjection => PayloadSignal(c.patterns, body, q.contentLength)
    case RateLimit => RateSignal(c.limits, h, clock.rate)
    case Velocity => VelocitySignal(c.limits, Lookup(s, VelocityKey(q.clientIP)), clock.velocity, q.clientIP)
    case UserAgent => q.userAgent
    case HttpMethods => MethodSignal(h, q.verb)
    case PathTraversal => q.path
    case BotPatterns => BotSignal(h, clock.bot)
  }

  function StoreAfterCheck(s: Store, q: Info, tenant: string, check: Check): Store {
    match check
    case RateLimit => Touch(s, SourceKey(tenant, q.clientIP))
    case Velocity => Touch(s, VelocityKey(q.clientIP))
    case HttpMethods => Touch(s, SourceKey(tenant, q.clientIP))
    case BotPatterns => Touch(s, SourceKey(tenant, q.clientIP))
    case _ => s
  }

  /** The results of the first `n` checks, each seen from the state before the call. */
  function Verdicts(c: Config, s: Store, q: Info, body: Option<Bytes>, tenant: string, clock: Clock,
                    n: nat): seq<Signal>
    requires n <= |CHECKS|
  {
    if n == 0 then [] else
      Verdicts(c, s, q, body, tenant, clock, n - 1) + [Verdict(c, s, q, body, tenant, clock, CHECKS[n - 1])]
  }

  /** The histories and the body as check number `i` finds them. */
  function StoreBefore(s: Store, tenant: string, ip: string, i: nat): Store {
    if i <= 3 then s
    else if i <= 4 then Touch(s, SourceKey(tenant, ip))
    else Touch(Touch(s, SourceKey(tenant, ip)), VelocityKey(ip))
  }

  function BodyBefore(body: Option<Bytes>, contentLength: int, i: nat): Option<Bytes> {
    if i <= 2 then body else BodyAfterScan(body, contentLength)
  }

  /** No check disturbs what a later one sees, except that the payload check cuts the body. */
  lemma CheckStep(c: Config, s: Store, q: Info, body: Option<Bytes>, tenant: string, clock: Clock, i: nat)
    requires i < |CHECKS|
    ensures Verdict(c, StoreBefore(s, tenant, q.clientIP, i), q, BodyBefore(body, q.contentLength, i),
                    tenant, clock, CHECKS[i])
            == Verdict(c, s, q, body, tenant, clock, CHECKS[i])
    ensures StoreAfterCheck(StoreBefore(s, tenant, q.clientIP, i), q, tenant, CHECKS[i])
            == StoreBefore(s, tenant, q.clientIP, i + 1)
    ensures BodyBefore(body, q.contentLength, i + 1)
            == if CHECKS[i].PayloadInjection?
               then BodyAfterScan(BodyBefore(body, q.contentLength, i), q.contentLength)
               else BodyBefore(body, q.contentLength, i)
  {
    TouchKeeps(s, SourceKey(tenant, q.clientIP), VelocityKey(q.clientIP));
  }

  lemma TouchKeeps(s: Store, key: string, velocity: string)
    ensures forall k :: Lookup(Touch(s, key), k) == Lookup(s, k)
    ensures forall k :: Lookup(Touch(Touch(s, key), velocity), k) == Lookup(s, k)
    ensures Touch(Touch(Touch(s, key), velocity), key) == Touch(Touch(s, key), velocity)
  {
  }

  function Merge(signal: Signal, result: Signal): Signal {
    if result.detected
    then Signal(true, signal.reason + result.reason + "; ", MaxInt(signal.severity, result.severity),
                signal.recommendations + result.recommendations)
    else signal
  }

  function Aggregate(results: seq<Signal>): Signal {
    if results == [] then QUIET else Merge(Aggregate(results[..|results| - 1]), results[|results| - 1])
  }

  function DetectSignal(c: Config, s: Store, q: Info, body: Option<Bytes>, tenant: string, clock: Clock): Signal {
    Aggregate(Verdicts(c, s, q, body, tenant, clock, |CHECKS|))
  }

  lemma AggregateStep(c: Config, s: Store, q: Info, body: Option<Bytes>, tenant: string, clock: Clock, n: nat)
    requires n < |CHECKS|
    ensures Aggregate(Verdicts(c, s, q, body, tenant, clock, n + 1)) ==
            Merge(Aggregate(Verdicts(c, s, q, body, tenant, clock, n)),
                  Verdict(c, s, q, body, tenant, clock, CHECKS[n]))
  {
    var rs, r := Verdicts(c, s, q, body, tenant, clock, n), Verdict(c, s, q, body, tenant, clock, CHECKS[n]);
    assert (rs + [r])[..|rs|] == rs;
  }

  /** The histories after a whole `Detect` call that reported `abusive`. */
  function DetectStore(s: Store, tenant: string, ip: string, now: real, abusive: bool): Store {
    Track(Touch(Touch(s, SourceKey(tenant, ip)), VelocityKey(ip)), SourceKey(tenant, ip), now, abusive)
  }

  /** Fetching a history and then changing only it amounts to one update. */
  lemma PutAfterTouch(s: Store, key: string, after: Store, h: History)
    requires after.Keys == s.Keys + {key} && after[key] == h
    requires forall k :: k in s && k != key ==> after[k] == s[k]
    ensures after == s[key := h]
  {
  }

  // ---------- The detector itself ----------

  class RequestRecord {
    var requests: seq<real>
    var failedAttempts: seq<real>
    var suspiciousCount: nat
    var lastRequest: Option<real>

    constructor ()
      ensures View() == NEW_HISTORY
    {
      requests := [];
      failedAttempts := [];
      suspiciousCount := 0;
      lastRequest := None;
    }

    ghost function View(): History
      reads this
    {
      History(requests, failedAttempts, suspiciousCount, lastRequest)
    }

    method Record(now: real, abusive: bool)
      modifies this
      ensures View() == Tracked(old(View()), now, abusive)
    {
      requests := requests + [now];
      lastRequest := Some(now);
      if abusive {
        suspiciousCount := suspiciousCount + 1;
      }
      requests := KeepAfter(requests, now - 60.0);
    }

    method RecordFailure(now: real) returns (count: nat)
      modifies this
      ensures View() == Failed(old(View()), now) && count == |failedAttempts|
    {
      failedAttempts := failedAttempts + [now];
      failedAttempts := KeepAfter(failedAttempts, now - 60.0);
      count := |failedAttempts|;
    }

    method Trim(now: real) returns (empty: bool)
      modifies this
      ensures View() == Trimmed(old(View()), now) && empty == !Survives(old(View()), now)
    {
      requests := KeepAfter(requests, now - 300.0);
      failedAttempts := KeepAfter(failedAttempts, now - 300.0);
      empty := |requests| == 0 && |failedAttempts| == 0;
    }
  }

  ghost function ViewsOf(records: map<string, RequestRecord>): Store
    reads records.Values
  {
    map key | key in records :: records[key].View()
  }

  function CleanOne(s: Store, key: string, now: real): Store
    requires key in s
  {
    if Survives(s[key], now) then s[key := Trimmed(s[key], now)] else s - {key}
  }

  /** A store in the middle of a cleanup, with `pending` still to visit. */
  function CleanSome(s: Store, pending: set<string>, now: real): Store {
    map key | key in s && (key in pending || Survives(s[key], now)) ::
      if key in pending then s[key] else Trimmed(s[key], now)
  }

  lemma CleanStep(s: Store, pending: set<string>, key: string, now: real)
    requires key in pending && pending <= s.Keys
    ensures CleanOne(CleanSome(s, pending, now), key, now) == CleanSome(s, pending - {key}, now)
  {
  }

  class Detector {
    var requestHistory: map<string, RequestRecord>
    const config: Config

    constructor (patterns: Patterns)
      ensures Valid() && Contents() == map[] && config == Config(DEFAULT_THRESHOLDS, patterns)
    {
      requestHistory := map[];
      config := Config(DEFAULT_THRESHOLDS, patterns);
    }

    /** Distinct keys hold distinct records. */
    ghost predicate Valid()
      reads this
    {
      forall a, b :: a in requestHistory && b in requestHistory && a != b ==> requestHistory[a] != requestHistory[b]
    }

    ghost function Contents(): Store
      reads this, requestHistory.Values
    {
      ViewsOf(requestHistory)
    }

    method GetOrCreateHistory(key: string) returns (history: RequestRecord)
      requires Valid()
      modifies this`requestHistory
      ensures Valid() && key in requestHistory && requestHistory[key] == history
      ensures Contents() == Touch(old(Contents()), key)
      ensures fresh(requestHistory.Values - old(requestHistory.Values))
    {
      if key in requestHistory {
        return requestHistory[key];
      }
      history := new RequestRecord();
      requestHistory := requestHistory[key := history];
    }

    method CheckRequestSize(r: Request) returns (signal: Signal)
      ensures signal == SizeSignal(config.limits, r.info.contentLength)
    {
      signal := QUIET;
      if r.info.contentLength > config.limits.maxRequestSize {
        signal := Signal(true,
                         "Request size " + Integer(r.info.contentLength)
                         + " exceeds limit " + Integer(config.limits.maxRequestSize),
                         8, ["Reject request", "Log IP", "Alert security team"]);
      }
    }

    method CheckPayloadInjection(r: Request) returns (signal: Signal)
      modifies r`body
      ensures signal == PayloadSignal(config.patterns, old(r.body), r.info.contentLength)
      ensures r.body == BodyAfterScan(old(r.body), r.info.contentLength)
    {
      signal := QUIET;
      if r.body == None {
        return;
      }
      var bodyLimit := 10000;
      if 0 <= r.info.contentLength < bodyLimit {
        bodyLimit := r.info.contentLength;
      }
      var n := if |r.body.value| < bodyLimit then |r.body.value| else bodyLimit;
      var text := r.body.value[..n];
      assert text == Scanned(r.body.value, r.info.contentLength);
      r.body := Some(text);

      var detections := [(config.patterns.sql, "SQL injection", 9),
                         (config.patterns.xss, "XSS", 8),
                         (config.patterns.command, "Command injection", 9)];
      for i := 0 to |detections|
        invariant signal == QUIET
        invariant forall j :: 0 <= j < i ==> !detections[j].0(text)
      {
        var det := detections[i];
        if det.0(text) {
          assert i == 0 || !detections[0].0(text);
          assert i <= 1 || !detections[1].0(text);
          return BodyHit(det.1, det.2);
        }
      }
      assert !detections[0].0(text) && !detections[1].0(text) && !detections[2].0(text);
    }

    method CheckRateLimit(r: Request, tenant: string, now: real) returns (signal: Signal)
      requires Valid()
      modifies this`requestHistory
      ensures Valid() && fresh(requestHistory.Values - old(requestHistory.Values))
      ensures Contents() == Touch(old(Contents()), SourceKey(tenant, r.info.clientIP))
      ensures signal == RateSignal(config.limits, Lookup(old(Contents()), SourceKey(tenant, r.info.clientIP)), now)
    {
      signal := QUIET;
      var history := GetOrCreateHistory(SourceKey(tenant, r.info.clientIP));
      assert history.View() == Contents()[SourceKey(tenant, r.info.clientIP)];
      var valid := KeepAfter(history.requests, now - 1.0);
      if |valid| > config.limits.maxRequestsPerSecond {
        signal := Signal(true,
                         "Rate limit exceeded: " + Integer(|valid|)
                         + " req/sec > " + Integer(config.limits.maxRequestsPerSecond),
                         7,
                         ["Rate limit tenant", "Return 429 Too Many Requests",
                          "Implement exponential backoff on client"]);
      }
    }

    method CheckVelocity(r: Request, now: real) returns (signal: Signal)
      requires Valid()
      modifies this`requestHistory
      ensures Valid() && fresh(requestHistory.Values - old(requestHistory.Values))
      ensures Contents() == Touch(old(Contents()), VelocityKey(r.info.clientIP))
      ensures signal ==
              VelocitySignal(config.limits, Lookup(old(Contents()), VelocityKey(r.info.clientIP)), now, r.info.clientIP)
    {
      signal := QUIET;
      var history := GetOrCreateHistory(VelocityKey(r.info.clientIP));
      assert history.View() == Contents()[VelocityKey(r.info.clientIP)];
      var valid := KeepAfter(history.requests, now - 60.0);
      if |valid| > config.limits.velocity {
        signal := Signal(true,
                         "Velocity too high: " + Integer(|valid|) + " req/min from IP " + r.info.clientIP,
                         6, ["Rate limit IP address", "Temporary IP block (15 minutes)", "Alert security team"]);
      }
    }

    method CheckHttpMethods(r: Request, tenant: string) returns (signal: Signal)
      requires Valid()
      modifies this`requestHistory
      ensures Valid() && fresh(requestHistory.Values - old(requestHistory.Values))
      ensures Contents() == Touch(old(Contents()), SourceKey(tenant, r.info.clientIP))
      ensures signal == MethodSignal(Lookup(old(Contents()), SourceKey(tenant, r.info.clientIP)), r.info.verb)
    {
      signal := QUIET;
      var history := GetOrCreateHistory(SourceKey(tenant, r.info.clientIP));
      assert history.View() == Contents()[SourceKey(tenant, r.info.clientIP)];
      var suspiciousMethods := 0;
      if r.info.verb == "HEAD" || r.info.verb == "OPTIONS" || r.info.verb == "TRACE" {
        suspiciousMethods := suspiciousMethods + 1;
      }
      if suspiciousMethods > 0 && |history.requests| > 5 {
        signal := Signal(true, "Unusual HTTP method: " + r.info.verb, 4,
                         ["Log request", "Monitor for more patterns"]);
      }
    }

    method CheckBotPatterns(r: Request, tenant: string, now: real) returns (signal: Signal)
      requires Valid()
      modifies this`requestHistory
      ensures Valid() && fresh(requestHistory.Values - old(requestHistory.Values))
      ensures Contents() == Touch(old(Contents()), SourceKey(tenant, r.info.clientIP))
      ensures signal == BotSignal(Lookup(old(Contents()), SourceKey(tenant, r.info.clientIP)), now)
    {
      signal := QUIET;
      var history := GetOrCreateHistory(SourceKey(tenant, r.info.clientIP));
      assert history.View() == Contents()[SourceKey(tenant, r.info.clientIP)];
      if |history.requests| > 10 {
        var recent := CountAfter(history.requests, now - 60.0);
        if recent > 50 {
          signal := Signal(true, "Bot-like pattern: " + Integer(recent) + " requests in 1 minute", 7,
                           ["Rate limit tenant", "Require CAPTCHA", "Temporary block"]);
        }
      }
    }

    method RunCheck(check: Check, r: Request, tenant: string, clock: Clock) returns (signal: Signal)
      requires Valid()
      modifies this`requestHistory, r`body
      ensures Valid() && fresh(requestHistory.Values - old(requestHistory.Values))
      ensures signal == Verdict(config, old(Contents()), r.info, old(r.body), tenant, clock, check)
      ensures Contents() == StoreAfterCheck(old(Contents()), r.info, tenant, check)
      ensures r.body == if check.PayloadInjection? then BodyAfterScan(old(r.body), r.info.contentLength)
              else old(r.body)
    {
      match check
      case RequestSize => signal := CheckRequestSize(r);
      case SuspiciousHeaders => signal := r.info.headers;
      case PayloadInjection => signal := CheckPayloadInjection(r);
      case RateLimit => signal := CheckRateLimit(r, tenant, clock.rate);
      case Velocity => signal := CheckVelocity(r, clock.velocity);
      case UserAgent => signal := r.info.userAgent;
      case HttpMethods => signal := CheckHttpMethods(r, tenant);
      case PathTraversal => signal := r.info.path;
      case BotPatterns => signal := CheckBotPatterns(r, tenant, clock.bot);
    }

    method TrackRequest(r: Request, tenant: string, abusive: bool, now: real)
      requires Valid()
      modifies this`requestHistory, requestHistory.Values
      ensures Valid() && fresh(requestHistory.Values - old(requestHistory.Values))
      ensures Contents() == Track(old(Contents()), SourceKey(tenant, r.info.clientIP), now, abusive)
    {
      var key := SourceKey(tenant, r.info.clientIP);
      var history := GetOrCreateHistory(key);
      ghost var fetched := Contents();
      assert history.View() == fetched[key] == Lookup(old(Contents()), key);
      history.Record(now, abusive);
      assert forall k :: k in requestHistory && k != key ==> requestHistory[k].View() == fetched[k];
      PutAfterTouch(old(Contents()), key, Contents(), history.View());
    }

    method TrackFailedAuth(tenant: string, clientIP: string, now: real) returns (count: nat)
      requires Valid()
      modifies this`requestHistory, requestHistory.Values
      ensures Valid() && fresh(requestHistory.Values - old(requestHistory.Values))
      ensures Contents() == Fail(old(Contents()), SourceKey(tenant, clientIP), now)
      ensures count == |Lookup(Contents(), SourceKey(tenant, clientIP)).failures|
    {
      var key := SourceKey(tenant, clientIP);
      var history := GetOrCreateHistory(key);
      ghost var fetched := Contents();
      assert history.View() == fetched[key] == Lookup(old(Contents()), key);
      count := history.RecordFailure(now);
      assert forall k :: k in requestHistory && k != key ==> requestHistory[k].View() == fetched[k];
      PutAfterTouch(old(Contents()), key, Contents(), history.View());
    }

    /** One round of the cleanup loop: trim a record and drop it if nothing is left. */
    method CleanKey(key: string, now: real)
      requires Valid() && key in requestHistory
      modifies this`requestHistory, requestHistory[key]
      ensures Valid() && Contents() == CleanOne(old(Contents()), key, now)
      ensures forall k :: k in requestHistory ==>
                k in old(requestHistory) && requestHistory[k] == old(requestHistory)[k]
    {
      var history := requestHistory[key];
      ghost var before := Contents();
      var empty := history.Trim(now);
      assert forall k :: k in requestHistory && k != key ==> requestHistory[k].View() == before[k];
      PutAfterTouch(before, key, Contents(), Trimmed(before[key], now));
      if empty {
        requestHistory := requestHistory - {key};
        assert Contents() == before - {key};
      }
    }

    method CleanupOldData(now: real)
      requires Valid()
      modifies this`requestHistory, requestHistory.Values
      ensures Valid()
      ensures Contents() == Clean(old(Contents()), now)
    {
      var pending := requestHistory.Keys;
      ghost var before := Contents();
      while pending != {}
        invariant Valid() && pending <= before.Keys
        invariant forall k :: k in requestHistory ==>
                    k in old(requestHistory) && requestHistory[k] == old(requestHistory)[k]
        invariant Contents() == CleanSome(before, pending, now)
        decreases pending
      {
        var key :| key in pending;
        assert key in Contents();
        CleanKey(key, now);
        CleanStep(before, pending, key, now);
        pending := pending - {key};
      }
    }

    /** The loop over the nine checks. */
    method RunChecks(r: Request, tenant: string, clock: Clock) returns (signal: Signal)
      requires Valid()
      modifies this`requestHistory, r`body
      ensures Valid() && fresh(requestHistory.Values - old(requestHistory.Values))
      ensures signal == DetectSignal(config, old(Contents()), r.info, old(r.body), tenant, clock)
      ensures Contents() == StoreBefore(old(Contents()), tenant, r.info.clientIP, |CHECKS|)
      ensures r.body == BodyAfterScan(old(r.body), r.info.contentLength)
    {
      signal := QUIET;
      ghost var s, body := Contents(), r.body;
      for i := 0 to |CHECKS|
        invariant Valid() && fresh(requestHistory.Values - old(requestHistory.Values))
        invariant signal == Aggregate(Verdicts(config, s, r.info, body, tenant, clock, i))
        invariant Contents() == StoreBefore(s, tenant, r.info.clientIP, i)
        invariant r.body == BodyBefore(body, r.info.contentLength, i)
      {
        CheckStep(config, s, r.info, body, tenant, clock, i);
        AggregateStep(config, s, r.info, body, tenant, clock, i);
        var result := RunCheck(CHECKS[i], r, tenant, clock);
        if result.detected {
          signal := Signal(true, signal.reason + result.reason + "; ", MaxInt(signal.severity, result.severity),
                           signal.recommendations + result.recommendations);
        }
      }
    }

    method Detect(r: Request, tenant: string, clock: Clock) returns (signal: Signal)
      requires Valid()
      modifies this`requestHistory, requestHistory.Values, r`body
      ensures Valid() && fresh(requestHistory.Values - old(requestHistory.Values))
      ensures signal == DetectSignal(config, old(Contents()), r.info, old(r.body), tenant, clock)
      ensures Contents() == DetectStore(old(Contents()), tenant, r.info.clientIP, clock.track, signal.detected)
      ensures r.body == BodyAfterScan(old(r.body), r.info.contentLength)
    {
      signal := RunChecks(r, tenant, clock);
      TrackRequest(r, tenant, signal.detected, clock.track);
    }
  }
}
