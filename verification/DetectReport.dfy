/** What `Detect` answers, in terms of the request, the body and the stored lists alone. */
module DetectReport {
  import opened Common
  import opened Decimal
  import opened AbuseDetector
  import H = RequestHistory

  /** What is stored of the source of a request, and under its velocity key. */
  function Stored(s: H.Store, name: string, ip: string): seq<real> {
    var key := name + "|" + ip;
    if key in s then s[key].requests else []
  }

  /** The part of the body that is looked at: at most the declared length, at most 10000 bytes. */
  function Looked(body: Bytes, declared: int): Bytes {
    var most := if declared < 0 || declared > 10000 then 10000 else declared;
    if |body| < most then body else body[..most]
  }

  /** When finding number `i` is made; the numbers are the order of the reasons. */
  predicate Fires(c: Config, s: H.Store, q: Info, body: Option<Bytes>, tenant: string, clock: Clock, i: nat)
    requires i < 9
  {
    var own, from := Stored(s, tenant, q.clientIP), Stored(s, "velocity", q.clientIP);
    match i
    case 0 => q.contentLength > c.limits.maxRequestSize
    case 1 => q.headers.detected
    case 2 => body.Some? && Suspect(c.patterns, Looked(body.value, q.contentLength))
    case 3 => |H.Recent(own, clock.rate - 1.0)| > c.limits.maxRequestsPerSecond
    case 4 => |H.Recent(from, clock.velocity - 60.0)| > c.limits.velocity
    case 5 => q.userAgent.detected
    case 6 => Probing(q.verb) && |own| > 5
    case 7 => q.path.detected
    case 8 => |own| > 10 && |H.Recent(own, clock.bot - 60.0)| > 50
  }

  predicate Probing(verb: string) {
    verb == "HEAD" || verb == "OPTIONS" || verb == "TRACE"
  }

  predicate Suspect(p: Patterns, text: Bytes) {
    p.sql(text) || p.xss(text) || p.command(text)
  }

  /** Something is wrong with the request, its body or the stored lists. */
  predicate Reported(c: Config, s: H.Store, q: Info, body: Option<Bytes>, tenant: string, clock: Clock) {
    var own, from := Stored(s, tenant, q.clientIP), Stored(s, "velocity", q.clientIP);
    || q.contentLength > c.limits.maxRequestSize
    || q.headers.detected || q.userAgent.detected || q.path.detected
    || (body.Some? && c.patterns.sql(Looked(body.value, q.contentLength)))
    || (body.Some? && c.patterns.xss(Looked(body.value, q.contentLength)))
    || (body.Some? && c.patterns.command(Looked(body.value, q.contentLength)))
    || |H.Recent(own, clock.rate - 1.0)| > c.limits.maxRequestsPerSecond
    || |H.Recent(from, clock.velocity - 60.0)| > c.limits.velocity
    || (Probing(q.verb) && |own| > 5)
    || (|own| > 10 && |H.Recent(own, clock.bot - 60.0)| > 50)
  }

  /** When `Detect` reports a request, for every configuration. */
  lemma DetectFires(c: Config, s: H.Store, q: Info, body: Option<Bytes>, tenant: string, clock: Clock)
    ensures DetectSignal(c, s, q, body, tenant, clock).detected <==> Reported(c, s, q, body, tenant, clock)
  {
    DetectedIfSomeFires(c, s, q, body, tenant, clock);
    SomeFiresMeans(c, s, q, body, tenant, clock);
  }

  lemma DetectedIfSomeFires(c: Config, s: H.Store, q: Info, body: Option<Bytes>, tenant: string, clock: Clock)
    ensures DetectSignal(c, s, q, body, tenant, clock).detected <==> SomeFires(c, s, q, body, tenant, clock, 9)
  {
    DetectReports(c, s, q, body, tenant, clock);
  }

  lemma SomeFiresMeans(c: Config, s: H.Store, q: Info, body: Option<Bytes>, tenant: string, clock: Clock)
    ensures SomeFires(c, s, q, body, tenant, clock, 9) <==> Reported(c, s, q, body, tenant, clock)
  {
    NineFindings(c, s, q, body, tenant, clock);
  }

  lemma NineFindings(c: Config, s: H.Store, q: Info, body: Option<Bytes>, tenant: string, clock: Clock)
    ensures SomeFires(c, s, q, body, tenant, clock, 9) <==>
            || Fires(c, s, q, body, tenant, clock, 0) || Fires(c, s, q, body, tenant, clock, 1)
            || Fires(c, s, q, body, tenant, clock, 2) || Fires(c, s, q, body, tenant, clock, 3)
            || Fires(c, s, q, body, tenant, clock, 4) || Fires(c, s, q, body, tenant, clock, 5)
            || Fires(c, s, q, body, tenant, clock, 6) || Fires(c, s, q, body, tenant, clock, 7)
            || Fires(c, s, q, body, tenant, clock, 8)
  {
    SomeFiresSteps(c, s, q, body, tenant, clock, 3);
    SomeFiresSteps(c, s, q, body, tenant, clock, 6);
    SomeFiresSteps(c, s, q, body, tenant, clock, 9);
    assert !SomeFires(c, s, q, body, tenant, clock, 0);
  }

  lemma SomeFiresSteps(c: Config, s: H.Store, q: Info, body: Option<Bytes>, tenant: string, clock: Clock, n: nat)
    requires 3 <= n <= 9
    ensures SomeFires(c, s, q, body, tenant, clock, n) <==>
            || SomeFires(c, s, q, body, tenant, clock, n - 3) || Fires(c, s, q, body, tenant, clock, n - 3)
            || Fires(c, s, q, body, tenant, clock, n - 2) || Fires(c, s, q, body, tenant, clock, n - 1)
  {
    assert SomeFires(c, s, q, body, tenant, clock, n - 2) <==>
           SomeFires(c, s, q, body, tenant, clock, n - 3) || Fires(c, s, q, body, tenant, clock, n - 3);
  }

  /** With the shipped thresholds: more than 10485760 bytes declared, more than 100 requests of
      the source within a second, more than 1000 from the address within a minute. */
  lemma ShippedDetectFires(p: Patterns, s: H.Store, q: Info, body: Option<Bytes>, tenant: string, clock: Clock)
    ensures DetectSignal(Config(DEFAULT_THRESHOLDS, p), s, q, body, tenant, clock).detected <==>
            var own, from := Stored(s, tenant, q.clientIP), Stored(s, "velocity", q.clientIP);
            || q.contentLength > 10485760
            || q.headers.detected || q.userAgent.detected || q.path.detected
            || (body.Some? && Suspect(p, Looked(body.value, q.contentLength)))
            || |H.Recent(own, clock.rate - 1.0)| > 100
            || |H.Recent(from, clock.velocity - 60.0)| > 1000
            || (Probing(q.verb) && |own| > 5)
            || (|own| > 10 && |H.Recent(own, clock.bot - 60.0)| > 50)
  {
    DetectFires(Config(DEFAULT_THRESHOLDS, p), s, q, body, tenant, clock);
  }

  // ---------- Severity and reason ----------

  datatype Finding = Finding(fires: bool, severity: int, text: string)

  /** How severe finding number `i` is. A body is rated by the first pattern that matches. */
  function SeverityAt(c: Config, q: Info, body: Option<Bytes>, i: nat): int
    requires i < 9
  {
    match i
    case 0 => 8
    case 1 => q.headers.severity
    case 2 =>
      if body.None? || c.patterns.sql(Looked(body.value, q.contentLength)) then 9
      else if c.patterns.xss(Looked(body.value, q.contentLength)) then 8
      else 9
    case 3 => 7
    case 4 => 6
    case 5 => q.userAgent.severity
    case 6 => 4
    case 7 => q.path.severity
    case 8 => 7
  }

  function TextAt(c: Config, s: H.Store, q: Info, body: Option<Bytes>, tenant: string, clock: Clock, i: nat): string
    requires i < 9
  {
    var own, from := Stored(s, tenant, q.clientIP), Stored(s, "velocity", q.clientIP);
    match i
    case 0 => SizeText(q.contentLength, c.limits.maxRequestSize)
    case 1 => q.headers.reason
    case 2 => BodyText(c.patterns, if body.Some? then Looked(body.value, q.contentLength) else [])
    case 3 => RateText(|H.Recent(own, clock.rate - 1.0)|, c.limits.maxRequestsPerSecond)
    case 4 => VelocityText(|H.Recent(from, clock.velocity - 60.0)|, q.clientIP)
    case 5 => q.userAgent.reason
    case 6 => MethodText(q.verb)
    case 7 => q.path.reason
    case 8 => BotText(|H.Recent(own, clock.bot - 60.0)|)
  }

  function SizeText(length: int, limit: int): string {
    "Request size " + Integer(length) + " exceeds limit " + Integer(limit)
  }

  function RateText(n: nat, limit: int): string {
    "Rate limit exceeded: " + Integer(n) + " req/sec > " + Integer(limit)
  }

  function VelocityText(n: nat, ip: string): string {
    "Velocity too high: " + Integer(n) + " req/min from IP " + ip
  }

  function MethodText(verb: string): string {
    "Unusual HTTP method: " + verb
  }

  function BotText(n: nat): string {
    "Bot-like pattern: " + Integer(n) + " requests in 1 minute"
  }

  /** Only the first pattern that matches is named. */
  function BodyText(p: Patterns, text: Bytes): string {
    (if p.sql(text) then "SQL injection" else if p.xss(text) then "XSS" else "Command injection")
    + " pattern detected in body"
  }

  lemma StoredIsLookup(s: H.Store, tenant: string, ip: string)
    ensures H.Lookup(s, SourceKey(tenant, ip)).requests == Stored(s, tenant, ip)
    ensures H.Lookup(s, VelocityKey(ip)).requests == Stored(s, "velocity", ip)
  {
    assert VelocityKey(ip) == "velocity" + "|" + ip;
  }

  lemma ScannedIsLooked(body: Bytes, declared: int)
    ensures Scanned(body, declared) == Looked(body, declared)
  {
  }

  function FindingAt(c: Config, s: H.Store, q: Info, body: Option<Bytes>, tenant: string, clock: Clock, i: nat): Finding
    requires i < 9
  {
    Finding(Fires(c, s, q, body, tenant, clock, i), SeverityAt(c, q, body, i), TextAt(c, s, q, body, tenant, clock, i))
  }

  predicate Matches(result: Signal, f: Finding) {
    (result.detected <==> f.fires) && (f.fires ==> result.severity == f.severity && result.reason == f.text)
  }

  lemma CarriedIsFinding(c: Config, s: H.Store, q: Info, body: Option<Bytes>, tenant: string, clock: Clock, i: nat)
    requires i == 0 || i == 1 || i == 5 || i == 7
    ensures Matches(Verdict(c, s, q, body, tenant, clock, CHECKS[i]), FindingAt(c, s, q, body, tenant, clock, i))
  {
  }

  lemma BodyIsFinding(c: Config, s: H.Store, q: Info, body: Option<Bytes>, tenant: string, clock: Clock)
    ensures Matches(Verdict(c, s, q, body, tenant, clock, PayloadInjection), FindingAt(c, s, q, body, tenant, clock, 2))
  {
    if body.Some? {
      ScannedIsLooked(body.value, q.contentLength);
    }
  }

  lemma RateMatches(limits: Thresholds, h: H.History, now: real)
    ensures var n := |H.Recent(h.requests, now - 1.0)|;
            Matches(RateSignal(limits, h, now),
                    Finding(n > limits.maxRequestsPerSecond, 7, RateText(n, limits.maxRequestsPerSecond)))
  {
  }

  lemma VelocityMatches(limits: Thresholds, h: H.History, now: real, ip: string)
    ensures var n := |H.Recent(h.requests, now - 60.0)|;
            Matches(VelocitySignal(limits, h, now, ip), Finding(n > limits.velocity, 6, VelocityText(n, ip)))
  {
  }

  lemma MethodMatches(h: H.History, verb: string)
    ensures Matches(MethodSignal(h, verb), Finding(Probing(verb) && |h.requests| > 5, 4, MethodText(verb)))
  {
  }

  lemma BotMatches(h: H.History, now: real)
    ensures var n := |H.Recent(h.requests, now - 60.0)|;
            Matches(BotSignal(h, now), Finding(|h.requests| > 10 && n > 50, 7, BotText(n)))
  {
  }

  lemma StoredIsFinding(c: Config, s: H.Store, q: Info, body: Option<Bytes>, tenant: string, clock: Clock, i: nat)
    requires i == 3 || i == 4 || i == 6 || i == 8
    ensures Matches(Verdict(c, s, q, body, tenant, clock, CHECKS[i]), FindingAt(c, s, q, body, tenant, clock, i))
  {
    var own, from := H.Lookup(s, SourceKey(tenant, q.clientIP)), H.Lookup(s, VelocityKey(q.clientIP));
    StoredIsLookup(s, tenant, q.clientIP);
    match i
    case 3 => RateMatches(c.limits, own, clock.rate);
    case 4 => VelocityMatches(c.limits, from, clock.velocity, q.clientIP);
    case 6 => MethodMatches(own, q.verb);
    case 8 => BotMatches(own, clock.bot);
  }

  /** Check number `i` makes finding number `i`. */
  lemma VerdictIsFinding(c: Config, s: H.Store, q: Info, body: Option<Bytes>, tenant: string, clock: Clock, i: nat)
    requires i < 9
    ensures Matches(Verdict(c, s, q, body, tenant, clock, CHECKS[i]), FindingAt(c, s, q, body, tenant, clock, i))
  {
    match i
    case 0 => CarriedIsFinding(c, s, q, body, tenant, clock, i);
    case 1 => CarriedIsFinding(c, s, q, body, tenant, clock, i);
    case 2 => BodyIsFinding(c, s, q, body, tenant, clock);
    case 5 => CarriedIsFinding(c, s, q, body, tenant, clock, i);
    case 7 => CarriedIsFinding(c, s, q, body, tenant, clock, i);
    case _ => StoredIsFinding(c, s, q, body, tenant, clock, i);
  }

  /** The first `n` findings. */
  function Findings(c: Config, s: H.Store, q: Info, body: Option<Bytes>, tenant: string, clock: Clock, n: nat)
    : (fs: seq<Finding>)
    requires n <= 9
    ensures |fs| == n
  {
    if n == 0 then [] else
      Findings(c, s, q, body, tenant, clock, n - 1) + [FindingAt(c, s, q, body, tenant, clock, n - 1)]
  }

  /** The reasons of the findings that are made, each followed by "; ". */
  function TextOf(fs: seq<Finding>): string {
    if fs == [] then "" else
      var f := fs[|fs| - 1];
      TextOf(fs[..|fs| - 1]) + if f.fires then f.text + "; " else ""
  }

  /** Their greatest severity, at least 0. */
  function SeverityOf(fs: seq<Finding>): nat {
    if fs == [] then 0 else
      var before, f := SeverityOf(fs[..|fs| - 1]), fs[|fs| - 1];
      if f.fires then MaxInt(before, f.severity) else before
  }

  predicate AnyFires(fs: seq<Finding>) {
    fs != [] && (AnyFires(fs[..|fs| - 1]) || fs[|fs| - 1].fires)
  }

  predicate AllMatch(results: seq<Signal>, fs: seq<Finding>) {
    |results| == |fs| && forall i :: 0 <= i < |fs| ==> Matches(results[i], fs[i])
  }

  lemma {:induction false} MatchingReport(results: seq<Signal>, fs: seq<Finding>)
    requires AllMatch(results, fs)
    ensures var a := Aggregate(results);
            && (a.detected <==> AnyFires(fs))
            && a.reason == TextOf(fs) && a.severity == SeverityOf(fs)
  {
    if fs != [] {
      MatchingReport(results[..|fs| - 1], fs[..|fs| - 1]);
      assert Matches(results[|fs| - 1], fs[|fs| - 1]);
    }
  }

  lemma OneMoreMatches(results: seq<Signal>, fs: seq<Finding>, result: Signal, f: Finding)
    requires AllMatch(results, fs) && Matches(result, f)
    ensures AllMatch(results + [result], fs + [f])
  {
  }

  lemma {:induction false} VerdictsMatch(c: Config, s: H.Store, q: Info, body: Option<Bytes>, tenant: string,
                                         clock: Clock, n: nat)
    requires n <= 9
    ensures AllMatch(Verdicts(c, s, q, body, tenant, clock, n), Findings(c, s, q, body, tenant, clock, n))
  {
    if n > 0 {
      VerdictsMatch(c, s, q, body, tenant, clock, n - 1);
      VerdictIsFinding(c, s, q, body, tenant, clock, n - 1);
      OneMoreMatches(Verdicts(c, s, q, body, tenant, clock, n - 1), Findings(c, s, q, body, tenant, clock, n - 1),
                     Verdict(c, s, q, body, tenant, clock, CHECKS[n - 1]),
                     FindingAt(c, s, q, body, tenant, clock, n - 1));
    }
  }

  lemma {:induction false} FindingsFire(c: Config, s: H.Store, q: Info, body: Option<Bytes>, tenant: string,
                                        clock: Clock, n: nat)
    requires n <= 9
    ensures AnyFires(Findings(c, s, q, body, tenant, clock, n)) <==> SomeFires(c, s, q, body, tenant, clock, n)
  {
    if n > 0 {
      FindingsFire(c, s, q, body, tenant, clock, n - 1);
      FiresSnoc(Findings(c, s, q, body, tenant, clock, n - 1), FindingAt(c, s, q, body, tenant, clock, n - 1));
    }
  }

  lemma FiresSnoc(fs: seq<Finding>, f: Finding)
    ensures AnyFires(fs + [f]) <==> AnyFires(fs) || f.fires
  {
    assert (fs + [f])[..|fs|] == fs;
  }

  predicate SomeFires(c: Config, s: H.Store, q: Info, body: Option<Bytes>, tenant: string, clock: Clock, n: nat)
    requires n <= 9
  {
    n > 0 && (SomeFires(c, s, q, body, tenant, clock, n - 1) || Fires(c, s, q, body, tenant, clock, n - 1))
  }

  /** Severity and reason of `Detect`: the greatest severity and the reasons, in order, of
      exactly the findings that are made. */
  lemma DetectReports(c: Config, s: H.Store, q: Info, body: Option<Bytes>, tenant: string, clock: Clock)
    ensures var a, fs := DetectSignal(c, s, q, body, tenant, clock), Findings(c, s, q, body, tenant, clock, 9);
            && (a.detected <==> SomeFires(c, s, q, body, tenant, clock, 9))
            && a.severity == SeverityOf(fs) && a.reason == TextOf(fs)
  {
    VerdictsMatch(c, s, q, body, tenant, clock, 9);
    FindingsFire(c, s, q, body, tenant, clock, 9);
    MatchingReport(Verdicts(c, s, q, body, tenant, clock, 9), Findings(c, s, q, body, tenant, clock, 9));
  }

  lemma {:induction false} OnlyOne(fs: seq<Finding>, k: nat)
    requires forall i :: 0 <= i < |fs| && i != k ==> !fs[i].fires
    ensures SeverityOf(fs) == if k < |fs| && fs[k].fires then MaxInt(0, fs[k].severity) else 0
    ensures TextOf(fs) == if k < |fs| && fs[k].fires then fs[k].text + "; " else ""
  {
    if fs != [] {
      OnlyOne(fs[..|fs| - 1], k);
    }
  }

  lemma {:induction false} FindingsAt(c: Config, s: H.Store, q: Info, body: Option<Bytes>, tenant: string,
                                      clock: Clock, n: nat, i: nat)
    requires i < n <= 9
    ensures Findings(c, s, q, body, tenant, clock, n)[i] == FindingAt(c, s, q, body, tenant, clock, i)
  {
    if i < n - 1 {
      FindingsAt(c, s, q, body, tenant, clock, n - 1, i);
    }
  }

  /** A single finding decides severity and reason. */
  lemma OneFinding(c: Config, s: H.Store, q: Info, body: Option<Bytes>, tenant: string, clock: Clock, k: nat)
    requires k < 9 && forall i: nat :: i < 9 && i != k ==> !Fires(c, s, q, body, tenant, clock, i)
    ensures var a, f := DetectSignal(c, s, q, body, tenant, clock), FindingAt(c, s, q, body, tenant, clock, k);
            && a.severity == (if f.fires then MaxInt(0, f.severity) else 0)
            && a.reason == (if f.fires then f.text + "; " else "")
  {
    DetectReports(c, s, q, body, tenant, clock);
    var fs := Findings(c, s, q, body, tenant, clock, 9);
    forall i: nat | i < 9 ensures fs[i] == FindingAt(c, s, q, body, tenant, clock, i) {
      FindingsAt(c, s, q, body, tenant, clock, 9, i);
    }
    OnlyOne(fs, k);
  }

  /** A body with everything else silent: SQL first, then scripts, then commands. */
  lemma BodyAlone(c: Config, s: H.Store, q: Info, body: Bytes, tenant: string, clock: Clock)
    requires forall i: nat :: i < 9 && i != 2 ==> !Fires(c, s, q, Some(body), tenant, clock, i)
    ensures var a, text := DetectSignal(c, s, q, Some(body), tenant, clock), Looked(body, q.contentLength);
            if c.patterns.sql(text)
            then a.severity == 9 && a.reason == "SQL injection" + " pattern detected in body" + "; "
            else if c.patterns.xss(text) then a.severity == 8 && a.reason == "XSS" + " pattern detected in body" + "; "
            else if c.patterns.command(text)
            then a.severity == 9 && a.reason == "Command injection" + " pattern detected in body" + "; "
            else a.severity == 0 && a.reason == ""
  {
    OneFinding(c, s, q, Some(body), tenant, clock, 2);
  }
}
