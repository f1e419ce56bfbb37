/** Whole runs of the middleware seen from the backend and from the limiter: which bodies are
    handed on, in which order, and how many per tenant. */
module EdgeRuns {
  import opened Common
  import L = RateLimit
  import LP = RateLimitProofs
  import D = AbuseDetector
  import S = Signals
  import N = DetectReport
  import opened Edge
  import opened EdgeProofs

  // ---------- What the backend gets ----------

  /** The tenant a request is for, when one can be told. */
  function TenantOf(q: Incoming): Option<string> {
    if q.login then
      if q.apiKey.Some? && ExtractTenantFromKey(q.apiKey.value) != "" then Some(ExtractTenantFromKey(q.apiKey.value))
      else Some("unknown")
    else if q.bearer.Accepted? && q.bearer.tenant != "" then Some(q.bearer.tenant)
    else None
  }

  /** A login key names its tenant before the first underscore; without one the tenant is "unknown". */
  lemma LoginTenant(q: Incoming, tenant: string, rest: string)
    requires q.login && '_' !in tenant
    ensures q.apiKey == Some(tenant + "_" + rest) || q.apiKey == Some(tenant) ==>
              TenantOf(q) == Some(if |tenant| == 0 then "unknown" else tenant)
    ensures q.apiKey == None ==> TenantOf(q) == Some("unknown")
  {
    TenantIsPrefix(tenant, rest);
  }

  // ---------- Every answer ----------

  /** The body was read and holds no secret. */
  predicate CleanBody(c: Config, q: Incoming) {
    q.body.Some? && !c.secret(q.body.value)
  }

  /** A clean request of a tenant that can be told, which the tenant's bucket admits. */
  predicate Admitted(c: Config, s: State, q: Incoming, clock: Clock) {
    CleanBody(c, q) && TenantOf(q).Some? && L.Admits(s.limiter, TenantOf(q).value, clock.allow)
  }

  lemma ScreenMeans(c: Config, q: Incoming)
    ensures Screen(c, q) ==
            if q.body.None? then Stop(UnreadableBody)
            else if c.secret(q.body.value) then Stop(SecretFound)
            else if TenantOf(q).Some? then Go(TenantOf(q).value, q.body.value)
            else if q.bearer.Malformed? then Stop(InvalidTokenFormat)
            else Stop(InvalidToken)
  {
  }

  /** Exactly when a request is refused before the detector, and how. */
  lemma RefusedExactlyWhen(c: Config, s: State, q: Incoming, clock: Clock)
    ensures var out := OutcomeOf(c, s, q, clock);
            && (out == UnreadableBody <==> q.body.None?)
            && (out == SecretFound <==> q.body.Some? && c.secret(q.body.value))
            && (out == InvalidTokenFormat <==> CleanBody(c, q) && !q.login && q.bearer.Malformed?)
            && (out == InvalidToken <==>
                  CleanBody(c, q) && !q.login && (q.bearer.Rejected? || q.bearer == Accepted("")))
            && (out.RateLimited? <==>
                  CleanBody(c, q) && TenantOf(q).Some? && !L.Admits(s.limiter, TenantOf(q).value, clock.allow))
  {
    ScreenMeans(c, q);
  }

  /** What a call finds in a tenant's bucket; nothing for a tenant without a limit. */
  function Bucket(s: L.State, t: string, now: real): real {
    if t in s.limits then L.Available(s, t, now) else 0.0
  }

  /** A request refused by the limiter is told the truth about its tenant: the configured limit
      and the bucket it found, less than one token, so never that requests are allowed. */
  lemma RefusalTellsStatus(c: Config, limits: map<string, int>, ops: seq<Op>, q: Incoming, clock: Clock)
    requires OutcomeOf(c, Run(c, Start(limits), ops), q, clock).RateLimited?
    ensures var status, tenant := OutcomeOf(c, Run(c, Start(limits), ops), q, clock).status, TenantOf(q).value;
            && TenantOf(q).Some? && status.tenant == tenant
            && status.limit == (if tenant in limits then limits[tenant] else 0)
            && status.tokens < 1.0 && !status.allowed
            && status.tokens == Bucket(Run(c, Start(limits), ops).limiter, tenant, clock.allow)
  {
    var s := Run(c, Start(limits), ops);
    RefusedExactlyWhen(c, s, q, clock);
    ScreenMeans(c, q);
    LimitsStay(c, limits, ops);
    LimiterRunsAlone(c, Start(limits), ops);
    LP.ReachableWellKeyed(L.State(limits, map[], map[]), LimiterCalls(c, ops));
    DeniedStatus(s.limiter, TenantOf(q).value, clock.allow);
  }

  lemma DeniedStatus(s: L.State, t: string, now: real)
    requires L.WellKeyed(s) && !L.Admits(s, t, now)
    ensures var status := L.StatusOf(L.AfterAllow(s, t, now), t);
            && status.tenant == t && status.limit == (if t in s.limits then s.limits[t] else 0)
            && status.tokens < 1.0 && !status.allowed && status.tokens == Bucket(s, t, now)
  {
  }

  /** Exactly when an admitted request is blocked, with which reason, and when it is handed on. */
  lemma BlockedExactlyWhen(c: Config, s: State, q: Incoming, clock: Clock)
    ensures var out := OutcomeOf(c, s, q, clock);
            && (out.Abusive? || out.Forwarded? <==> Admitted(c, s, q, clock))
            && (Admitted(c, s, q, clock) ==>
                  var tenant := TenantOf(q).value;
                  var found := N.Findings(c.detector, s.store, q.info, q.body, tenant, clock.detect, 9);
                  out == if N.Reported(c.detector, s.store, q.info, q.body, tenant, clock.detect)
                         then Abusive(N.TextOf(found)) else Forwarded(q.body.value))
  {
    ScreenMeans(c, q);
    if Admitted(c, s, q, clock) {
      N.DetectFires(c.detector, s.store, q.info, q.body, TenantOf(q).value, clock.detect);
      N.DetectReports(c.detector, s.store, q.info, q.body, TenantOf(q).value, clock.detect);
    }
  }

  /** Every single control lets the request pass: the body was read and holds no secret, the
      tenant is known, its bucket holds a token, and each of the nine checks is silent. */
  ghost predicate Passes(c: Config, s: State, q: Incoming, clock: Clock) {
    && q.body.Some? && !c.secret(q.body.value)
    && TenantOf(q).Some?
    && L.Admits(s.limiter, TenantOf(q).value, clock.allow)
    && forall check :: check in D.CHECKS ==>
         !D.Verdict(c.detector, s.store, q.info, q.body, TenantOf(q).value, clock.detect, check).detected
  }

  lemma ForwardedWhenPassing(c: Config, s: State, q: Incoming, clock: Clock)
    ensures Passes(c, s, q, clock) <==> OutcomeOf(c, s, q, clock).Forwarded?
    ensures Served(c, s, q, clock).forwarded == s.forwarded + if Passes(c, s, q, clock) then [q.body.value] else []
  {
    if q.body.Some? && TenantOf(q).Some? {
      S.SilentIffNoCheckFires(c.detector, s.store, q.info, q.body, TenantOf(q).value, clock.detect);
    }
  }

  /** The bodies, as first read, of the requests of a run that pass every control, in order. */
  ghost function PassingBodies(c: Config, s: State, ops: seq<Op>): seq<D.Bytes> {
    if ops == [] then [] else
      var pre, op := ops[..|ops| - 1], ops[|ops| - 1];
      PassingBodies(c, s, pre)
      + if op.Serve? && Passes(c, Run(c, s, pre), op.q, op.clock) then [op.q.body.value] else []
  }

  /** In every run the backend gets exactly the bodies of the requests that pass every control:
      whole, in order, each once, and nothing else. */
  lemma {:induction false} BackendGetsPassingBodies(c: Config, s: State, ops: seq<Op>)
    ensures Run(c, s, ops).forwarded == s.forwarded + PassingBodies(c, s, ops)
  {
    if ops != [] {
      var pre, op := ops[..|ops| - 1], ops[|ops| - 1];
      BackendGetsPassingBodies(c, s, pre);
      if op.Serve? {
        ForwardedWhenPassing(c, Run(c, s, pre), op.q, op.clock);
      }
    }
  }

  // ---------- What the limiter gets ----------

  /** The limiter calls of a run: they depend on the requests alone. */
  function LimiterCalls(c: Config, ops: seq<Op>): seq<L.Op> {
    if ops == [] then [] else
      var pre, op := ops[..|ops| - 1], ops[|ops| - 1];
      if op.Serve? && Screen(c, op.q).Go?
      then LimiterCalls(c, pre) + [L.Allow(Screen(c, op.q).tenant, op.clock.allow)]
      else LimiterCalls(c, pre)
  }

  /** The limiter of the middleware runs on its own: what the detector finds never reaches it. */
  lemma {:induction false} LimiterRunsAlone(c: Config, s: State, ops: seq<Op>)
    ensures Run(c, s, ops).limiter == L.Run(s.limiter, LimiterCalls(c, ops))
  {
    if ops != [] {
      var pre, op := ops[..|ops| - 1], ops[|ops| - 1];
      LimiterRunsAlone(c, s, pre);
      if op.Serve? && Screen(c, op.q).Go? {
        LP.RunSnoc(s.limiter, LimiterCalls(c, pre), L.Allow(Screen(c, op.q).tenant, op.clock.allow), "");
      }
    }
  }

  // ---------- A tenant's share of the backend ----------

  /** Calls admitted with a reading in [from, to), among the first `n`. */
  function AdmittedDuring(cs: seq<L.Call>, from: real, to: real, n: nat): nat
    requires n <= |cs|
  {
    if n == 0 then 0 else
      AdmittedDuring(cs, from, to, n - 1) + if cs[n - 1].admitted && from <= cs[n - 1].at < to then 1 else 0
  }

  /** They all lie between two calls of the window. */
  lemma {:induction false} DuringIsBetween(cs: seq<L.Call>, from: real, to: real, n: nat) returns (i: nat, j: nat)
    requires n <= |cs| && AdmittedDuring(cs, from, to, n) > 0
    ensures i <= j < n && from <= cs[i].at && cs[j].at < to
    ensures AdmittedDuring(cs, from, to, n) <= L.Admitted(cs, i, j + 1)
  {
    var c := cs[n - 1];
    if AdmittedDuring(cs, from, to, n - 1) == 0 {
      i, j := n - 1, n - 1;
      assert L.Admitted(cs, n - 1, n - 1) == 0;
    } else {
      i, j := DuringIsBetween(cs, from, to, n - 1);
      if c.admitted && from <= c.at < to {
        AdmittedGrows(cs, i, j + 1, n - 1);
        j := n - 1;
      }
    }
  }

  lemma {:induction false} AdmittedGrows(cs: seq<L.Call>, i: nat, j: nat, k: nat)
    requires j <= k <= |cs|
    ensures L.Admitted(cs, i, j) <= L.Admitted(cs, i, k)
  {
    if j < k {
      AdmittedGrows(cs, i, j, k - 1);
    }
  }

  lemma {:induction false} DuringSnoc(cs: seq<L.Call>, call: L.Call, from: real, to: real, n: nat)
    requires n <= |cs|
    ensures AdmittedDuring(cs + [call], from, to, n) == AdmittedDuring(cs, from, to, n)
  {
    if n > 0 {
      DuringSnoc(cs, call, from, to, n - 1);
    }
  }

  /** What a tenant may get past the limiter in a window of `span` seconds. */
  function Allowance(limits: map<string, int>, t: string, span: real): real {
    if t in limits && 1 <= limits[t] then limits[t] as real + L.Refill(limits[t], span) else 0.0
  }

  /** The limiter's calls in a run without changes of limit, over any window of time. */
  lemma WindowAllowance(limits: map<string, int>, ops: seq<L.Op>, t: string, from: real, span: real)
    requires (forall op :: op in ops ==> op.Allow?) && 0.0 <= span
    requires var cs := L.Calls(L.State(limits, map[], map[]), ops, t); L.InOrder(cs)
    ensures var cs := L.Calls(L.State(limits, map[], map[]), ops, t);
            && AdmittedDuring(cs, from, from + span, |cs|) as real <= Allowance(limits, t, span)
            && (t in limits && 1 <= limits[t] && span <= 60.0 ==>
                  AdmittedDuring(cs, from, from + span, |cs|) <= 2 * limits[t] - 1)
  {
    var s := L.State(limits, map[], map[]);
    var cs := L.Calls(s, ops, t);
    if t in limits && 1 <= limits[t] {
      LP.RefillNonNegative(limits[t], span);
    }
    if AdmittedDuring(cs, from, from + span, |cs|) > 0 {
      var i, j := DuringIsBetween(cs, from, from + span, |cs|);
      if t in limits && 1 <= limits[t] {
        LP.RateBound(s, ops, t, limits[t], i, j);
        RefillLonger(limits[t], cs[j].at - cs[i].at, span);
        if span <= 60.0 {
          LP.MinuteAdmitsBelowTwiceLimit(s, ops, t, limits[t], i, j);
        }
      } else {
        NothingAdmitted(limits, ops, t);
        LP.NoneAdmitted(cs, i, j + 1);
      }
    }
  }

  lemma RefillLonger(limit: int, d: real, span: real)
    requires 0 <= limit && d <= span
    ensures L.Refill(limit, d) <= L.Refill(limit, span)
  {
    LP.RefillNonNegative(limit, span - d);
    LP.RefillSplit(limit, d, span - d);
  }

  /** A tenant without a limit of at least 1 is never admitted. */
  lemma {:induction false} NothingAdmitted(limits: map<string, int>, ops: seq<L.Op>, t: string)
    requires (forall op :: op in ops ==> op.Allow?) && (t in limits ==> limits[t] < 1)
    ensures L.Run(L.State(limits, map[], map[]), ops).limits == limits
    ensures forall call :: call in L.Calls(L.State(limits, map[], map[]), ops, t) ==> !call.admitted
  {
    if ops != [] {
      assert ops[|ops| - 1] in ops;
      NothingAdmitted(limits, ops[..|ops| - 1], t);
    }
  }

  /** How many operations of a run are of a kind, each judged in the state it meets. */
  function Count(c: Config, s: State, ops: seq<Op>, kind: (State, Op) -> bool): nat {
    if ops == [] then 0 else
      var pre := ops[..|ops| - 1];
      Count(c, s, pre, kind) + if kind(Run(c, s, pre), ops[|ops| - 1]) then 1 else 0
  }

  /** A request of the tenant handed to the backend, with its limiter reading in [from, to). */
  function Forwarding(c: Config, t: string, from: real, to: real): (State, Op) -> bool {
    (s, op: Op) =>
      && op.Serve? && OutcomeOf(c, s, op.q, op.clock).Forwarded?
      && Screen(c, op.q).tenant == t && from <= op.clock.allow < to
  }

  function TenantForwards(c: Config, s: State, ops: seq<Op>, t: string, from: real, to: real): nat {
    Count(c, s, ops, Forwarding(c, t, from, to))
  }

  /** The limiter admits a request of the tenant at a reading in [from, to). */
  predicate TakesToken(c: Config, limiter: L.State, op: Op, t: string, from: real, to: real) {
    && op.Serve? && Screen(c, op.q).Go? && Screen(c, op.q).tenant == t
    && L.Admits(limiter, t, op.clock.allow) && from <= op.clock.allow < to
  }

  /** Requests of a kind that needs a token of the tenant are no more than its tokens taken. */
  lemma {:induction false} KindTakesTokens(c: Config, limits: map<string, int>, ops: seq<Op>,
                                           t: string, from: real, to: real, kind: (State, Op) -> bool)
    requires forall s, op :: kind(s, op) ==> TakesToken(c, s.limiter, op, t, from, to)
    ensures var cs := L.Calls(L.State(limits, map[], map[]), LimiterCalls(c, ops), t);
            Count(c, Start(limits), ops, kind) <= AdmittedDuring(cs, from, to, |cs|)
  {
    if ops != [] {
      var pre, op := ops[..|ops| - 1], ops[|ops| - 1];
      KindTakesTokens(c, limits, pre, t, from, to, kind);
      LimiterRunsAlone(c, Start(limits), pre);
      OneTakesToken(c, L.State(limits, map[], map[]), pre, op, t, from, to);
      assert ops == pre + [op];
    }
  }

  lemma OneTakesToken(c: Config, limiter: L.State, pre: seq<Op>, op: Op, t: string, from: real, to: real)
    ensures var before := L.Calls(limiter, LimiterCalls(c, pre), t);
            var after := L.Calls(limiter, LimiterCalls(c, pre + [op]), t);
            AdmittedDuring(after, from, to, |after|) == AdmittedDuring(before, from, to, |before|)
            + if TakesToken(c, L.Run(limiter, LimiterCalls(c, pre)), op, t, from, to) then 1 else 0
  {
    assert (pre + [op])[..|pre|] == pre;
    if op.Serve? && Screen(c, op.q).Go? {
      AdmittedAfterCall(limiter, LimiterCalls(c, pre), Screen(c, op.q).tenant, op.clock.allow, t, from, to);
    }
  }

  /** What one more limiter call adds to the tenant's admitted calls. */
  lemma AdmittedAfterCall(limiter: L.State, ops: seq<L.Op>, tenant: string, now: real, t: string, from: real, to: real)
    ensures var before, after := L.Calls(limiter, ops, t), L.Calls(limiter, ops + [L.Allow(tenant, now)], t);
            AdmittedDuring(after, from, to, |after|) == AdmittedDuring(before, from, to, |before|)
            + if tenant == t && L.Admits(L.Run(limiter, ops), t, now) && from <= now < to then 1 else 0
  {
    var before := L.Calls(limiter, ops, t);
    LP.RunSnoc(limiter, ops, L.Allow(tenant, now), t);
    if tenant == t {
      DuringSnoc(before, L.Call(now, L.Admits(L.Run(limiter, ops), t, now)), from, to, |before|);
    }
  }

  /** Only an admitted request is handed on. */
  lemma ForwardingTakesToken(c: Config, t: string, from: real, to: real)
    ensures forall s, op :: Forwarding(c, t, from, to)(s, op) ==> TakesToken(c, s.limiter, op, t, from, to)
  {
    forall s, op: Op | Forwarding(c, t, from, to)(s, op) ensures TakesToken(c, s.limiter, op, t, from, to) {
      ForwardedReaches(c, s, op.q, op.clock);
    }
  }

  lemma ForwardedReaches(c: Config, s: State, q: Incoming, clock: Clock)
    requires OutcomeOf(c, s, q, clock).Forwarded?
    ensures Reaches(c, s, q, clock)
  {
  }

  /** With the clock in order the limiter is asked in order too. */
  lemma {:induction false} LimiterAskedInOrder(c: Config, s: L.State, ops: seq<Op>, start: real, now: real, t: string)
    requires InOrder(ops, start, now)
    ensures forall op :: op in LimiterCalls(c, ops) ==> op.Allow?
    ensures L.InOrder(L.Calls(s, LimiterCalls(c, ops), t))
    ensures forall call :: call in L.Calls(s, LimiterCalls(c, ops), t) ==> call.at <= now
  {
    if ops != [] {
      var pre, op := ops[..|ops| - 1], ops[|ops| - 1];
      match op
      case Serve(q, clock) =>
        LimiterAskedInOrder(c, s, pre, start, clock.allow, t);
        if Screen(c, q).Go? {
          LP.RunSnoc(s, LimiterCalls(c, pre), L.Allow(Screen(c, q).tenant, clock.allow), t);
        }
      case Cleanup(at) => LimiterAskedInOrder(c, s, pre, start, at, t);
      case FailedAuth(_, _, at) => LimiterAskedInOrder(c, s, pre, start, at, t);
    }
  }

  /** Over all addresses together, no window of `span` seconds of a run hands on more requests
      of a tenant than its limit and what its rate earns; none for a tenant without a limit,
      and in a half-open minute fewer than twice the limit. */
  lemma TenantForwardingBound(c: Config, limits: map<string, int>, ops: seq<Op>, start: real, now: real,
                              t: string, from: real, span: real)
    requires InOrder(ops, start, now) && 0.0 <= span
    ensures TenantForwards(c, Start(limits), ops, t, from, from + span) as real <= Allowance(limits, t, span)
    ensures t in limits && 1 <= limits[t] && span <= 60.0 ==>
            TenantForwards(c, Start(limits), ops, t, from, from + span) <= 2 * limits[t] - 1
  {
    ForwardingTakesToken(c, t, from, from + span);
    KindTakesTokens(c, limits, ops, t, from, from + span, Forwarding(c, t, from, from + span));
    LimiterAskedInOrder(c, L.State(limits, map[], map[]), ops, start, now, t);
    WindowAllowance(limits, LimiterCalls(c, ops), t, from, span);
  }

  // ---------- Refused requests leave no trace ----------

  /** The run without the requests that are stopped early or denied by the limiter. */
  function Reaching(c: Config, s: State, ops: seq<Op>): seq<Op> {
    if ops == [] then [] else
      var pre, op := ops[..|ops| - 1], ops[|ops| - 1];
      if op.Serve? && !Reaches(c, Run(c, s, pre), op.q, op.clock) then Reaching(c, s, pre)
      else Reaching(c, s, pre) + [op]
  }

  /** The answers to the requests that reach the detector. */
  function Answers(c: Config, s: State, ops: seq<Op>): seq<Outcome> {
    if ops == [] then [] else
      var pre, op := ops[..|ops| - 1], ops[|ops| - 1];
      var before := Run(c, s, pre);
      if op.Serve? && Reaches(c, before, op.q, op.clock)
      then Answers(c, s, pre) + [OutcomeOf(c, before, op.q, op.clock)]
      else Answers(c, s, pre)
  }

  /** Limiters that no call from `now` on can tell apart. */
  ghost predicate SameLimiter(a: L.State, b: L.State, now: real) {
    && L.WellKeyed(a) && L.WellKeyed(b)
    && (forall t :: t in a.last ==> a.last[t] <= now)
    && forall t :: LP.Indistinguishable(a, b, t, now)
  }

  lemma SameLimiterLater(a: L.State, b: L.State, now: real, later: real)
    requires SameLimiter(a, b, now) && now <= later
    ensures SameLimiter(a, b, later)
  {
    forall t ensures LP.Indistinguishable(a, b, t, later) {
      assert LP.Indistinguishable(a, b, t, now);
    }
  }

  lemma SameLimiterAdmitted(a: L.State, b: L.State, tenant: string, now: real)
    requires SameLimiter(a, b, now) && L.Admits(a, tenant, now)
    ensures L.Admits(b, tenant, now) && SameLimiter(L.AfterAllow(a, tenant, now), L.AfterAllow(b, tenant, now), now)
  {
    var op := L.Allow(tenant, now);
    assert LP.Indistinguishable(a, b, tenant, now);
    LP.IndistinguishableStep(a, b, tenant, now, op);
    forall t ensures LP.Indistinguishable(L.AfterAllow(a, tenant, now), L.AfterAllow(b, tenant, now), t, now) {
      assert LP.Indistinguishable(a, b, t, now);
      if t in a.limits {
        LP.IndistinguishableStep(a, b, t, now, op);
      }
    }
  }

  lemma SameLimiterDenied(a: L.State, b: L.State, tenant: string, now: real)
    requires SameLimiter(a, b, now) && !L.Admits(a, tenant, now)
    ensures SameLimiter(L.AfterAllow(a, tenant, now), b, now)
  {
    LP.DeniedStepIndistinguishable(a, tenant, now);
    forall t ensures LP.Indistinguishable(L.AfterAllow(a, tenant, now), b, t, now) {
      assert LP.Indistinguishable(a, b, t, now);
      if t != tenant {
        LP.OtherStep(a, t, L.Allow(tenant, now));
      }
    }
  }

  /** Two middlewares that no request from `now` on can tell apart. */
  ghost predicate SameEdge(a: State, b: State, now: real) {
    SameLimiter(a.limiter, b.limiter, now) && a.store == b.store && a.forwarded == b.forwarded
  }

  lemma ServeSame(c: Config, a: State, b: State, q: Incoming, clock: Clock)
    requires SameEdge(a, b, clock.allow)
    ensures Reaches(c, a, q, clock) ==>
            && Reaches(c, b, q, clock) && OutcomeOf(c, a, q, clock) == OutcomeOf(c, b, q, clock)
            && SameEdge(Served(c, a, q, clock), Served(c, b, q, clock), clock.allow)
    ensures !Reaches(c, a, q, clock) ==> SameEdge(Served(c, a, q, clock), b, clock.allow)
  {
    if Screen(c, q).Go? {
      var tenant := Screen(c, q).tenant;
      if Reaches(c, a, q, clock) {
        SameLimiterAdmitted(a.limiter, b.limiter, tenant, clock.allow);
      } else {
        SameLimiterDenied(a.limiter, b.limiter, tenant, clock.allow);
      }
    }
  }

  /** Deleting from a run every request that is refused before the detector, at any stage and
      for whatever reason, changes no other answer, no history and nothing the backend gets. */
  lemma {:induction false} RefusedRequestsInvisible(c: Config, limits: map<string, int>, ops: seq<Op>, start: real,
                                                    now: real)
    requires InOrder(ops, start, now)
    ensures var kept := Reaching(c, Start(limits), ops);
            && SameEdge(Run(c, Start(limits), ops), Run(c, Start(limits), kept), now)
            && Answers(c, Start(limits), ops) == Answers(c, Start(limits), kept)
  {
    var begin := Start(limits);
    if ops != [] {
      var pre, op := ops[..|ops| - 1], ops[|ops| - 1];
      var kept := Reaching(c, begin, pre);
      assert (kept + [op])[..|kept|] == kept;
      RefusedRequestsInvisible(c, limits, pre, start, Begins(op));
      var a, b := Run(c, begin, pre), Run(c, begin, kept);
      if op.Serve? {
        ServeSame(c, a, b, op.q, op.clock);
      }
      SameLimiterLater(Run(c, begin, ops).limiter, Run(c, begin, Reaching(c, begin, ops)).limiter, Begins(op), now);
    }
  }
}
