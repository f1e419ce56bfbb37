/** What the composition of limiter and detector guarantees over whole runs of the middleware. */
module EdgeProofs {
  import opened RequestHistory
  import L = RateLimit
  import LP = RateLimitProofs
  import D = AbuseDetector
  import opened Edge

  datatype Op =
    | Serve(q: Incoming, clock: Clock)
    | Cleanup(now: real)
    | FailedAuth(tenant: string, ip: string, now: real)

  function Apply(c: Config, s: State, op: Op): State {
    match op
    case Serve(q, clock) => Served(c, s, q, clock)
    case Cleanup(now) => s.(store := Clean(s.store, now))
    case FailedAuth(tenant, ip, now) => s.(store := Fail(s.store, D.SourceKey(tenant, ip), now))
  }

  /** Before any request: some limits, nothing else. */
  function Start(limits: map<string, int>): State {
    State(L.State(limits, map[], map[]), map[], [])
  }

  function Run(c: Config, s: State, ops: seq<Op>): State {
    if ops == [] then s else Apply(c, Run(c, s, ops[..|ops| - 1]), ops[|ops| - 1])
  }

  /** The request reaches the detector: only then is its source looked at and tracked. */
  predicate Reaches(c: Config, s: State, q: Incoming, clock: Clock) {
    Screen(c, q).Go? && L.Admits(s.limiter, Screen(c, q).tenant, clock.allow)
  }

  /** Requests one at a time: all clock readings are in order between `start` and `now`. */
  predicate InOrder(ops: seq<Op>, start: real, now: real) {
    if ops == [] then start <= now else
      match ops[|ops| - 1]
      case Serve(_, clock) =>
        clock.Ordered() && clock.detect.track <= now && InOrder(ops[..|ops| - 1], start, clock.allow)
      case Cleanup(at) => at <= now && InOrder(ops[..|ops| - 1], start, at)
      case FailedAuth(_, _, at) => at <= now && InOrder(ops[..|ops| - 1], start, at)
  }

  /** The clock reading an operation starts from. */
  function Begins(op: Op): real {
    match op
    case Serve(_, clock) => clock.allow
    case Cleanup(at) => at
    case FailedAuth(_, _, at) => at
  }

  /** Its later readings are in order and not after `now`. */
  predicate EndsBy(op: Op, now: real) {
    match op
    case Serve(_, clock) => clock.Ordered() && clock.detect.track <= now
    case Cleanup(at) => at <= now
    case FailedAuth(_, _, at) => at <= now
  }

  /** Tenant names that cannot be confused inside a history key. */
  predicate PlainTenants(limits: map<string, int>) {
    forall t :: t in limits ==> '|' !in t && t != "velocity"
  }

  lemma ConfiguredTenantsArePlain()
    ensures PlainTenants(L.Initial().limits)
  {
    assert "alpha"[0] == 'a' && "beta"[0] == 'b' && "gamma"[0] == 'g';
  }

  // ---------- Bucket separation ----------

  /** Where the first separator is. */
  function FirstBar(s: string): nat {
    if s == "" || s[0] == '|' then 0 else 1 + FirstBar(s[1..])
  }

  lemma {:induction false} FirstBarEndsTenant(t: string, ip: string)
    requires '|' !in t
    ensures FirstBar(D.SourceKey(t, ip)) == |t|
  {
    if t != "" {
      FirstBarEndsTenant(t[1..], ip);
      assert D.SourceKey(t, ip)[1..] == D.SourceKey(t[1..], ip);
    }
  }

  /** A source key determines its tenant and address. */
  lemma KeysAreInjective(a: string, ipA: string, b: string, ipB: string)
    requires '|' !in a && '|' !in b && D.SourceKey(a, ipA) == D.SourceKey(b, ipB)
    ensures a == b && ipA == ipB
  {
    FirstBarEndsTenant(a, ipA);
    FirstBarEndsTenant(b, ipB);
    var x, y := D.SourceKey(a, ipA), D.SourceKey(b, ipB);
    assert a == x[..|a|] && b == y[..|b|];
    assert ipA == x[|a| + 1..] && ipB == y[|b| + 1..];
  }

  lemma SourceIsNotVelocity(t: string, ip: string, ip': string)
    requires '|' !in t && t != "velocity"
    ensures D.SourceKey(t, ip) != D.VelocityKey(ip')
  {
    if D.SourceKey(t, ip) == D.VelocityKey(ip') {
      assert D.VelocityKey(ip') == D.SourceKey("velocity", ip');
      KeysAreInjective(t, ip, "velocity", ip');
    }
  }

  /** The requests stored under a key after `Detect`. */
  lemma RequestsAfterDetect(s: Store, tenant: string, ip: string, now: real, abusive: bool, key: string)
    ensures Lookup(D.DetectStore(s, tenant, ip, now, abusive), key).requests ==
            if key == D.SourceKey(tenant, ip) then Recent(Lookup(s, key).requests + [now], now - 60.0)
            else Lookup(s, key).requests
  {
  }

  lemma RequestsAfterOthers(s: Store, key: string, now: real, failing: string)
    ensures Lookup(Clean(s, now), key).requests == Recent(Lookup(s, key).requests, now - 300.0)
    ensures Lookup(Fail(s, failing, now), key).requests == Lookup(s, key).requests
  {
  }

  /** Limits are never touched, and only a configured tenant gets past the limiter. */
  lemma {:induction false} LimitsStay(c: Config, limits: map<string, int>, ops: seq<Op>)
    ensures Run(c, Start(limits), ops).limiter.limits == limits
  {
    if ops != [] {
      LimitsStay(c, limits, ops[..|ops| - 1]);
    }
  }

  /** Velocity histories stay empty in every run, because requests are only ever tracked under
      the key of a configured tenant: the velocity check never fires. */
  lemma {:induction false} VelocityNeverFires(c: Config, limits: map<string, int>, ops: seq<Op>, ip: string, at: real)
    requires PlainTenants(limits)
    ensures Lookup(Run(c, Start(limits), ops).store, D.VelocityKey(ip)).requests == []
    ensures 0 <= c.detector.limits.velocity ==>
            var h := Lookup(Run(c, Start(limits), ops).store, D.VelocityKey(ip));
            D.VelocitySignal(c.detector.limits, h, at, ip) == D.QUIET
  {
    if ops != [] {
      var pre, op := ops[..|ops| - 1], ops[|ops| - 1];
      VelocityNeverFires(c, limits, pre, ip, at);
      LimitsStay(c, limits, pre);
      var s := Run(c, Start(limits), pre);
      match op
      case Serve(q, clock) =>
        var gate := Screen(c, q);
        if gate.Go? && L.Admits(s.limiter, gate.tenant, clock.allow) {
          SourceIsNotVelocity(gate.tenant, q.info.clientIP, ip);
          RequestsAfterDetect(s.store, gate.tenant, q.info.clientIP, clock.detect.track,
                              SignalFor(c, s, q.info, gate, clock).detected, D.VelocityKey(ip));
        }
      case Cleanup(now) => RequestsAfterOthers(s.store, D.VelocityKey(ip), now, "");
      case FailedAuth(tenant, from, now) =>
        RequestsAfterOthers(s.store, D.VelocityKey(ip), now, D.SourceKey(tenant, from));
    }
  }

  // ---------- The limiter bounds the detector's lists ----------

  /** The entries after number `i` were paid for by tokens earned since it was made. */
  predicate PaidSince(ts: seq<real>, i: nat, limit: int, held: real, last: real)
    requires i < |ts|
  {
    (|ts| - 1 - i) as real + held <= limit as real + L.Refill(limit, last - ts[i])
  }

  ghost predicate Backed(ts: seq<real>, limit: int, held: real, last: real) {
    forall i: nat :: i < |ts| - 1 ==> PaidSince(ts, i, limit, held, last)
  }

  lemma LaterBacked(ts: seq<real>, limit: int, held: real, last: real, held': real, at: real)
    requires Backed(ts, limit, held, last) && held' <= held + L.Refill(limit, at - last)
    ensures Backed(ts, limit, held', at)
  {
    forall i: nat | i < |ts| - 1 ensures PaidSince(ts, i, limit, held', at) {
      assert PaidSince(ts, i, limit, held, last);
      LP.RefillSplit(limit, last - ts[i], at - last);
    }
  }

  lemma AppendBacked(ts: seq<real>, limit: int, held: real, last: real, held': real, at: real, t: real)
    requires 0 <= limit && Sorted(ts, at) && Backed(ts, limit, held, last)
    requires held' + 1.0 <= limit as real
    requires |ts| > 1 ==> held' + 1.0 <= held + L.Refill(limit, at - last)
    ensures Backed(ts + [t], limit, held', at)
  {
    forall i: nat | i < |ts| ensures PaidSince(ts + [t], i, limit, held', at) {
      if i < |ts| - 1 {
        assert PaidSince(ts, i, limit, held, last);
        LP.RefillSplit(limit, last - ts[i], at - last);
      } else {
        LP.RefillNonNegative(limit, at - ts[i]);
      }
    }
  }

  /** Pruning a list in time order drops its front. */
  lemma {:induction false} RecentIsSuffix(ts: seq<real>, cutoff: real, now: real, n: nat) returns (d: nat)
    requires n <= |ts| && Sorted(ts, now)
    ensures d <= n && RecentAmong(ts, cutoff, n) == ts[d..n] && (d < n ==> cutoff < ts[d])
  {
    if n == 0 {
      d := 0;
    } else {
      d := RecentIsSuffix(ts, cutoff, now, n - 1);
      assert d < n - 1 ==> ts[d] <= ts[n - 1];
      if ts[n - 1] > cutoff {
        assert ts[d..n] == ts[d..n - 1] + [ts[n - 1]];
      } else {
        d := n;
      }
    }
  }

  lemma SuffixBacked(ts: seq<real>, d: nat, limit: int, held: real, last: real, now: real)
    requires d <= |ts| && Backed(ts, limit, held, last) && Sorted(ts, now)
    ensures Backed(ts[d..], limit, held, last) && Sorted(ts[d..], now)
  {
    forall i: nat | i < |ts[d..]| - 1 ensures PaidSince(ts[d..], i, limit, held, last) {
      assert PaidSince(ts, d + i, limit, held, last);
    }
  }

  lemma LengthBound(ts: seq<real>, limit: int, held: real, last: real)
    requires 1 <= limit && 0.0 <= held && Backed(ts, limit, held, last)
    requires ts != [] ==> last < ts[0] + 60.0
    ensures |ts| <= 2 * limit
  {
    if |ts| > 1 {
      assert PaidSince(ts, 0, limit, held, last);
      LP.RefillUnderAMinute(limit, last - ts[0]);
    }
  }

  /** One source's list against its tenant's bucket. */
  ghost predicate Paced(s: State, limits: map<string, int>, t: string, ip: string, now: real) {
    var ts := Lookup(s.store, D.SourceKey(t, ip)).requests;
    && s.limiter.limits == limits && t in limits
    && (t in s.limiter.last ==> t in s.limiter.tokens && s.limiter.last[t] <= now
                                && (1 <= limits[t] ==> 0.0 <= s.limiter.tokens[t] <= limits[t] as real))
    && Sorted(ts, now)
    && (ts != [] ==> 1 <= limits[t] && t in s.limiter.last && |ts| <= 2 * limits[t]
                     && Backed(ts, limits[t], s.limiter.tokens[t], s.limiter.last[t]))
  }

  /** The limiter's part of a served request, for the tenant it belongs to. */
  lemma AllowPaced(s: State, limits: map<string, int>, t: string, ip: string, now: real, at: real)
    requires Paced(s, limits, t, ip, now) && now <= at
    ensures Paced(s.(limiter := L.AfterAllow(s.limiter, t, at)), limits, t, ip, at)
  {
    var ts := Lookup(s.store, D.SourceKey(t, ip)).requests;
    var after := L.AfterAllow(s.limiter, t, at);
    if t in s.limiter.last && 1 <= limits[t] {
      LP.RefillNonNegative(limits[t], at - s.limiter.last[t]);
      if ts != [] {
        LaterBacked(ts, limits[t], s.limiter.tokens[t], s.limiter.last[t], after.tokens[t], at);
      }
    }
  }

  /** An admitted request tracked under the source's own key. */
  lemma TrackPaced(s: State, limits: map<string, int>, t: string, ip: string, now: real, at: real, track: real,
                   abusive: bool)
    requires Paced(s, limits, t, ip, now) && now <= at <= track && L.Admits(s.limiter, t, at)
    ensures Paced(State(L.AfterAllow(s.limiter, t, at), D.DetectStore(s.store, t, ip, track, abusive), s.forwarded),
                  limits, t, ip, track)
  {
    var key := D.SourceKey(t, ip);
    var ts := Lookup(s.store, key).requests;
    var after := L.AfterAllow(s.limiter, t, at);
    AllowPaced(s, limits, t, ip, now, at);
    RequestsAfterDetect(s.store, t, ip, track, abusive, key);
    if ts == [] {
      GrownList([], limits[t], 0.0, 0.0, after.tokens[t], at, track);
    } else {
      GrownList(ts, limits[t], s.limiter.tokens[t], s.limiter.last[t], after.tokens[t], at, track);
    }
  }

  /** A list that gains one admitted request and loses what is a minute old. */
  lemma GrownList(ts: seq<real>, limit: int, held: real, last: real, held': real, at: real, track: real)
    requires 1 <= limit && Sorted(ts, at) && at <= track
    requires 0.0 <= held' && held' + 1.0 <= limit as real
    requires Backed(ts, limit, held, last) && (ts != [] ==> held' + 1.0 <= held + L.Refill(limit, at - last))
    ensures var after := Recent(ts + [track], track - 60.0);
            Sorted(after, track) && |after| <= 2 * limit && Backed(after, limit, held', at)
  {
    AppendBacked(ts, limit, held, last, held', at, track);
    var all := ts + [track];
    var d := RecentIsSuffix(all, track - 60.0, track, |all|);
    assert all[d..|all|] == all[d..];
    SuffixBacked(all, d, limit, held', at, track);
    LengthBound(all[d..], limit, held', at);
  }

  /** Pruning or cleaning the source's list, or leaving it alone, keeps the pace. */
  lemma PrunePaced(s: State, limits: map<string, int>, t: string, ip: string, now: real, s': State, later: real,
                   cutoff: real)
    requires Paced(s, limits, t, ip, now) && now <= later && s'.limiter == s.limiter
    requires var before := Lookup(s.store, D.SourceKey(t, ip)).requests;
             var after := Lookup(s'.store, D.SourceKey(t, ip)).requests;
             after == before || after == Recent(before, cutoff)
    ensures Paced(s', limits, t, ip, later)
  {
    var ts := Lookup(s.store, D.SourceKey(t, ip)).requests;
    var d := RecentIsSuffix(ts, cutoff, now, |ts|);
    assert ts[d..|ts|] == ts[d..];
    if ts != [] {
      SuffixBacked(ts, d, limits[t], s.limiter.tokens[t], s.limiter.last[t], now);
    }
  }

  lemma ServePaced(c: Config, s: State, limits: map<string, int>, t: string, ip: string, now: real, q: Incoming,
                   clock: Clock)
    requires PlainTenants(limits) && Paced(s, limits, t, ip, now) && now <= clock.allow && clock.Ordered()
    ensures Paced(Served(c, s, q, clock), limits, t, ip, clock.detect.track)
  {
    var s', track, gate := Served(c, s, q, clock), clock.detect.track, Screen(c, q);
    if gate.Stop? {
      PrunePaced(s, limits, t, ip, now, s, track, 0.0);
    } else {
      var limited := s.(limiter := L.AfterAllow(s.limiter, gate.tenant, clock.allow));
      LimitedPaced(s, limits, t, ip, now, gate.tenant, clock.allow);
      if L.Admits(s.limiter, gate.tenant, clock.allow) {
        var abusive := SignalFor(c, s, q.info, gate, clock).detected;
        RequestsAfterDetect(s.store, gate.tenant, q.info.clientIP, track, abusive, D.SourceKey(t, ip));
        if gate.tenant == t && q.info.clientIP == ip {
          TrackPaced(s, limits, t, ip, now, clock.allow, track, abusive);
        } else {
          if D.SourceKey(t, ip) == D.SourceKey(gate.tenant, q.info.clientIP) {
            KeysAreInjective(t, ip, gate.tenant, q.info.clientIP);
          }
          PrunePaced(limited, limits, t, ip, clock.allow, s', track, 0.0);
        }
      } else {
        PrunePaced(limited, limits, t, ip, clock.allow, s', track, 0.0);
      }
    }
  }

  lemma LimitedPaced(s: State, limits: map<string, int>, t: string, ip: string, now: real, tenant: string, at: real)
    requires Paced(s, limits, t, ip, now) && now <= at
    ensures Paced(s.(limiter := L.AfterAllow(s.limiter, tenant, at)), limits, t, ip, at)
  {
    if tenant == t {
      AllowPaced(s, limits, t, ip, now, at);
    }
  }

  /** In every sequential run the list of a configured tenant's source never holds more than
      twice the tenant's limit, right after a request is tracked and at any other time. */
  lemma {:induction false} HistoryBoundedByLimit(c: Config, limits: map<string, int>, ops: seq<Op>, start: real,
                                                 now: real, t: string, ip: string)
    requires PlainTenants(limits) && t in limits && InOrder(ops, start, now)
    ensures Paced(Run(c, Start(limits), ops), limits, t, ip, now)
    ensures |Lookup(Run(c, Start(limits), ops).store, D.SourceKey(t, ip)).requests| <=
            if limits[t] < 1 then 0 else 2 * limits[t]
  {
    if ops != [] {
      var pre, op := ops[..|ops| - 1], ops[|ops| - 1];
      var s, s' := Run(c, Start(limits), pre), Run(c, Start(limits), ops);
      match op
      case Serve(q, clock) =>
        HistoryBoundedByLimit(c, limits, pre, start, clock.allow, t, ip);
        ServePaced(c, s, limits, t, ip, clock.allow, q, clock);
        PrunePaced(s', limits, t, ip, clock.detect.track, s', now, 0.0);
      case Cleanup(at) =>
        HistoryBoundedByLimit(c, limits, pre, start, at, t, ip);
        RequestsAfterOthers(s.store, D.SourceKey(t, ip), at, "");
        PrunePaced(s, limits, t, ip, at, s', now, at - 300.0);
      case FailedAuth(tenant, from, at) =>
        HistoryBoundedByLimit(c, limits, pre, start, at, t, ip);
        RequestsAfterOthers(s.store, D.SourceKey(t, ip), at, D.SourceKey(tenant, from));
        PrunePaced(s, limits, t, ip, at, s', now, 0.0);
    }
  }

  /** In every run, whatever requests are stored belong to a source of a configured tenant. */
  lemma {:induction false} OnlyConfiguredTracked(c: Config, limits: map<string, int>, ops: seq<Op>, key: string)
    returns (t: string, ip: string)
    ensures Lookup(Run(c, Start(limits), ops).store, key).requests != [] ==> t in limits && key == D.SourceKey(t, ip)
  {
    t, ip := "", "";
    if ops != [] {
      var pre, op := ops[..|ops| - 1], ops[|ops| - 1];
      var s := Run(c, Start(limits), pre);
      t, ip := OnlyConfiguredTracked(c, limits, pre, key);
      LimitsStay(c, limits, pre);
      match op {
        case Serve(q, clock) =>
          var gate := Screen(c, q);
          if gate.Go? && L.Admits(s.limiter, gate.tenant, clock.allow) {
            RequestsAfterDetect(s.store, gate.tenant, q.info.clientIP, clock.detect.track,
                                SignalFor(c, s, q.info, gate, clock).detected, key);
            if key == D.SourceKey(gate.tenant, q.info.clientIP) {
              t, ip := gate.tenant, q.info.clientIP;
            }
          }
        case Cleanup(now) =>
          RequestsAfterOthers(s.store, key, now, "");
          RecentMembers(Lookup(s.store, key).requests, now - 300.0, |Lookup(s.store, key).requests|);
        case FailedAuth(tenant, from, now) =>
          RequestsAfterOthers(s.store, key, now, D.SourceKey(tenant, from));
      }
    }
  }
}
