/** What the aggregated signal and the payload check mean for a caller. */
module Signals {
  import opened Common
  import opened AbuseDetector
  import Decimal
  import H = RequestHistory

  /** The results that fired, in order. */
  function Fired(results: seq<Signal>): seq<Signal> {
    if results == [] then [] else
      var pre, r := results[..|results| - 1], results[|results| - 1];
      if r.detected then Fired(pre) + [r] else Fired(pre)
  }

  function JoinedReasons(results: seq<Signal>): string {
    if results == [] then "" else JoinedReasons(results[..|results| - 1]) + results[|results| - 1].reason + "; "
  }

  function JoinedRecommendations(results: seq<Signal>): seq<string> {
    if results == [] then [] else
      JoinedRecommendations(results[..|results| - 1]) + results[|results| - 1].recommendations
  }

  lemma {:induction false} FiredMembers(results: seq<Signal>)
    ensures forall r :: r in Fired(results) <==> r in results && r.detected
  {
    if results != [] {
      var pre, last := results[..|results| - 1], results[|results| - 1];
      FiredMembers(pre);
      assert results == pre + [last];
    }
  }

  /** The aggregate reports detection exactly when some check fired, its severity is the
      largest among the fired checks (never below zero), and its reasons and recommendations
      are those of the fired checks, in the order of the checks. */
  lemma {:induction false} AggregateIsFaithful(results: seq<Signal>)
    ensures var a, fired := Aggregate(results), Fired(results);
            && (a.detected <==> exists r :: r in results && r.detected)
            && (a.detected <==> fired != [])
            && a.reason == JoinedReasons(fired)
            && a.recommendations == JoinedRecommendations(fired)
            && (forall r :: r in fired ==> r.severity <= a.severity)
            && (a.severity == 0 || exists r :: r in fired && r.severity == a.severity)
            && 0 <= a.severity
  {
    FiredMembers(results);
    AggregateJoins(results);
    AggregateSeverity(results);
    if a :| a in Fired(results) {
      assert a in results && a.detected;
    }
  }

  lemma {:induction false} AggregateJoins(results: seq<Signal>)
    ensures var a, fired := Aggregate(results), Fired(results);
            && (a.detected <==> fired != [])
            && a.reason == JoinedReasons(fired) && a.recommendations == JoinedRecommendations(fired)
  {
    if results != [] {
      var pre := results[..|results| - 1];
      AggregateJoins(pre);
      if results[|results| - 1].detected {
        assert Fired(results)[..|Fired(pre)|] == Fired(pre);
      }
    }
  }

  lemma {:induction false} AggregateSeverity(results: seq<Signal>)
    ensures var a, fired := Aggregate(results), Fired(results);
            && (forall r :: r in fired ==> r.severity <= a.severity)
            && (a.severity == 0 || exists r :: r in fired && r.severity == a.severity)
            && 0 <= a.severity
  {
    if results != [] {
      var pre, last := results[..|results| - 1], results[|results| - 1];
      AggregateSeverity(pre);
      if last.detected {
        assert Fired(results) == Fired(pre) + [last];
        assert last in Fired(results);
      }
    }
  }

  /** `Detect` ranks between 4 and 9 when the string checks do: the documented 1-10 scale. */
  lemma DetectSeverity(c: Config, s: map<string, H.History>, q: Info, body: Option<Bytes>, tenant: string,
                       clock: Clock)
    requires forall r :: r in [q.headers, q.userAgent, q.path] && r.detected ==> 4 <= r.severity <= 9
    ensures var a := DetectSignal(c, s, q, body, tenant, clock);
            if a.detected then 4 <= a.severity <= 9 else a == QUIET
  {
    var results := Verdicts(c, s, q, body, tenant, clock, |CHECKS|);
    assert q.headers in [q.headers, q.userAgent, q.path];
    assert q.userAgent in [q.headers, q.userAgent, q.path];
    assert q.path in [q.headers, q.userAgent, q.path];
    VerdictsInRange(c, s, q, body, tenant, clock, |CHECKS|);
    AggregateIsFaithful(results);
    FiredMembers(results);
    QuietWhenNothingFired(results);
    if Fired(results) != [] {
      assert Fired(results)[0] in Fired(results);
    }
  }

  lemma {:induction false} VerdictsInRange(c: Config, s: map<string, H.History>, q: Info, body: Option<Bytes>,
                                           tenant: string, clock: Clock, n: nat)
    requires n <= |CHECKS|
    requires forall r :: r in [q.headers, q.userAgent, q.path] && r.detected ==> 4 <= r.severity <= 9
    ensures forall r :: r in Verdicts(c, s, q, body, tenant, clock, n) && r.detected ==> 4 <= r.severity <= 9
  {
    if n > 0 {
      VerdictsInRange(c, s, q, body, tenant, clock, n - 1);
      assert q.headers in [q.headers, q.userAgent, q.path];
      assert q.userAgent in [q.headers, q.userAgent, q.path];
      assert q.path in [q.headers, q.userAgent, q.path];
    }
  }

  lemma {:induction false} QuietWhenNothingFired(results: seq<Signal>)
    ensures !Aggregate(results).detected ==> Aggregate(results) == QUIET
  {
    if results != [] {
      QuietWhenNothingFired(results[..|results| - 1]);
    }
  }

  /** The size check goes first: its reason opens the signal, and nothing after it lowers the severity. */
  lemma {:induction false} OversizedOpens(c: Config, s: map<string, H.History>, q: Info, body: Option<Bytes>,
                                          tenant: string, clock: Clock, n: nat)
    requires 1 <= n <= |CHECKS| && q.contentLength > c.limits.maxRequestSize
    ensures var a := Aggregate(Verdicts(c, s, q, body, tenant, clock, n));
            a.detected && 8 <= a.severity && OversizedReason(c, q) <= a.reason
  {
    AggregateStep(c, s, q, body, tenant, clock, n - 1);
    if n > 1 {
      OversizedOpens(c, s, q, body, tenant, clock, n - 1);
    }
  }

  function OversizedReason(c: Config, q: Info): string {
    "Request size " + Decimal.Integer(q.contentLength) +
    " exceeds limit " + Decimal.Integer(c.limits.maxRequestSize) + "; "
  }

  lemma {:induction false} VerdictsAreOfChecks(c: Config, s: map<string, H.History>, q: Info, body: Option<Bytes>,
                                               tenant: string, clock: Clock, n: nat)
    requires n <= |CHECKS|
    ensures (exists r :: r in Verdicts(c, s, q, body, tenant, clock, n) && r.detected)
            <==> exists check :: check in CHECKS[..n] && Verdict(c, s, q, body, tenant, clock, check).detected
  {
    if n > 0 {
      VerdictsAreOfChecks(c, s, q, body, tenant, clock, n - 1);
      assert CHECKS[..n] == CHECKS[..n - 1] + [CHECKS[n - 1]];
      var pre := Verdicts(c, s, q, body, tenant, clock, n - 1);
      var last := Verdict(c, s, q, body, tenant, clock, CHECKS[n - 1]);
      assert Verdicts(c, s, q, body, tenant, clock, n) == pre + [last];
      assert last in pre + [last] && CHECKS[n - 1] in CHECKS[..n];
    }
  }

  /** A request is let through exactly when each single check is silent about it. */
  lemma SilentIffNoCheckFires(c: Config, s: map<string, H.History>, q: Info, body: Option<Bytes>, tenant: string,
                              clock: Clock)
    ensures DetectSignal(c, s, q, body, tenant, clock).detected <==>
            exists check :: check in CHECKS && Verdict(c, s, q, body, tenant, clock, check).detected
  {
    AggregateIsFaithful(Verdicts(c, s, q, body, tenant, clock, |CHECKS|));
    VerdictsAreOfChecks(c, s, q, body, tenant, clock, |CHECKS|);
    assert CHECKS[..|CHECKS|] == CHECKS;
  }

  /** A declared length over the limit is always reported, first of all reasons and with
      severity at least 8, whatever else is found. Only the declared length counts: with the
      other checks silent, a request of any actual size whose length is within the limit, or
      not declared, passes. */
  lemma SizeLimitMeansDeclaredLength(c: Config, s: map<string, H.History>, q: Info, body: Option<Bytes>,
                                     tenant: string, clock: Clock)
    ensures q.contentLength > c.limits.maxRequestSize ==>
              var a := DetectSignal(c, s, q, body, tenant, clock);
              a.detected && 8 <= a.severity && OversizedReason(c, q) <= a.reason
    ensures (forall check :: check in CHECKS && check != RequestSize ==>
               !Verdict(c, s, q, body, tenant, clock, check).detected)
            ==> (DetectSignal(c, s, q, body, tenant, clock).detected <==> q.contentLength > c.limits.maxRequestSize)
  {
    SilentIffNoCheckFires(c, s, q, body, tenant, clock);
    if q.contentLength > c.limits.maxRequestSize {
      OversizedOpens(c, s, q, body, tenant, clock, |CHECKS|);
    }
  }

  /** The payload check leaves exactly the prefix it scanned, so a body survives it exactly
      when it fits the scan limit; the rest of a longer one is gone from the request. */
  lemma BodySurvivesScanWhenShort(body: Bytes, contentLength: int)
    ensures BodyAfterScan(Some(body), contentLength) == Some(Scanned(body, contentLength))
    ensures Scanned(body, contentLength) <= body && |Scanned(body, contentLength)| <= 10000
    ensures BodyAfterScan(Some(body), contentLength) == Some(body) <==>
            |body| <= 10000 && (0 <= contentLength ==> |body| <= contentLength)
  {
  }
}
