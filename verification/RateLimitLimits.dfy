/** Where the token bucket does not do what its documentation says, and exactly when it does. */
module RateLimitLimits {
  import opened Common
  import opened RateLimit
  import opened RateLimitProofs

  // ---------- "Requests per minute" ----------

  /** No half-open minute of a run that keeps the tenant's limit admits more than `most` calls. */
  ghost predicate MinuteWithin(s: State, t: string, most: int)
    requires t in s.limits
  {
    forall ops: seq<Op>, i: nat, j: nat ::
      WithinMinute(s, ops, t, i, j) ==> Admitted(Calls(s, ops, t), i, j + 1) <= most
  }

  /** Calls `i` to `j` of a run with a fixed limit and a clock in order lie in a half-open minute. */
  ghost predicate WithinMinute(s: State, ops: seq<Op>, t: string, i: nat, j: nat)
    requires t in s.limits
  {
    && FixedLimit(ops, t, s.limits[t]) && InOrder(Calls(s, ops, t))
    && i <= j < |Calls(s, ops, t)| && Calls(s, ops, t)[j].at < Calls(s, ops, t)[i].at + 60.0
  }

  /** `n` calls at one instant. */
  function Burst(t: string, at: real, n: nat): seq<Op> {
    if n == 0 then [] else Burst(t, at, n - 1) + [Allow(t, at)]
  }

  function AllAdmitted(at: real, n: nat): seq<Call> {
    if n == 0 then [] else AllAdmitted(at, n - 1) + [Call(at, true)]
  }

  /** A state in which the tenant's bucket holds `n` tokens at `at`. */
  ghost predicate HoldsTokens(s: State, t: string, at: real, n: int) {
    t in s.limits && n <= s.limits[t] && Available(s, t, at) == n as real
  }

  ghost predicate SettledAt(s: State, t: string, at: real, n: int) {
    t in s.last && s.last[t] == at && t in s.tokens && s.tokens[t] == n as real
  }

  lemma TakeToken(s: State, t: string, at: real, n: int)
    requires HoldsTokens(s, t, at, n) && 1 <= n
    ensures var s' := AfterAllow(s, t, at);
            && Admits(s, t, at) && HoldsTokens(s', t, at, n - 1) && s'.limits == s.limits
            && SettledAt(s', t, at, n - 1)
  {
    assert Refill(s.limits[t], at - at) == 0.0;
  }

  lemma BurstSnoc(s: State, t: string, at: real, n: nat)
    ensures Run(s, Burst(t, at, n + 1)) == AfterAllow(Run(s, Burst(t, at, n)), t, at)
    ensures Calls(s, Burst(t, at, n + 1), t)
            == Calls(s, Burst(t, at, n), t) + [Call(at, Admits(Run(s, Burst(t, at, n)), t, at))]
  {
    RunSnoc(s, Burst(t, at, n), Allow(t, at), t);
  }

  /** `m` of the `n` tokens found at `at` are taken. */
  ghost predicate Drained(s: State, s': State, t: string, at: real, n: nat, m: nat) {
    HoldsTokens(s', t, at, n - m) && s'.limits == s.limits && (m > 0 ==> SettledAt(s', t, at, n - m))
  }

  lemma DrainOne(s: State, s': State, t: string, at: real, n: nat, m: nat)
    requires Drained(s, s', t, at, n, m) && m < n
    ensures Admits(s', t, at) && Drained(s, AfterAllow(s', t, at), t, at, n, m + 1)
  {
    TakeToken(s', t, at, n - m);
  }

  lemma {:induction false} DrainState(s: State, t: string, at: real, n: nat, m: nat)
    requires HoldsTokens(s, t, at, n) && m <= n
    ensures Drained(s, Run(s, Burst(t, at, m)), t, at, n, m)
    ensures m > 0 ==> Admits(Run(s, Burst(t, at, m - 1)), t, at)
  {
    if m > 0 {
      DrainState(s, t, at, n, m - 1);
      DrainOne(s, Run(s, Burst(t, at, m - 1)), t, at, n, m - 1);
      BurstSnoc(s, t, at, m - 1);
    }
  }

  /** A burst that finds `n` tokens has its first `n` calls admitted. */
  lemma {:induction false} Drain(s: State, t: string, at: real, n: nat, m: nat)
    requires HoldsTokens(s, t, at, n) && m <= n
    ensures Calls(s, Burst(t, at, m), t) == AllAdmitted(at, m)
  {
    if m > 0 {
      DrainState(s, t, at, n, m);
      Drain(s, t, at, n, m - 1);
      BurstSnoc(s, t, at, m - 1);
    }
  }

  lemma {:induction false} AllAdmittedFacts(at: real, n: nat)
    ensures |AllAdmitted(at, n)| == n && forall k :: 0 <= k < n ==> AllAdmitted(at, n)[k] == Call(at, true)
  {
    if n > 0 {
      AllAdmittedFacts(at, n - 1);
    }
  }

  lemma {:induction false} CountAll(cs: seq<Call>, j: nat)
    requires j <= |cs| && forall k :: 0 <= k < |cs| ==> cs[k].admitted
    ensures Admitted(cs, 0, j) == j
  {
    if j > 0 {
      CountAll(cs, j - 1);
    }
  }

  lemma {:induction false} BurstIsAllow(t: string, at: real, n: nat)
    ensures forall op :: op in Burst(t, at, n) ==> op == Allow(t, at)
  {
    if n > 0 {
      BurstIsAllow(t, at, n - 1);
    }
  }

  /** Just before a minute is over all but one token of a drained bucket are back. */
  lemma RefilledInTime(limit: nat) returns (late: real)
    requires 1 <= limit
    ensures Refill(limit, late) == (limit - 1) as real && 0.0 <= late < 60.0
  {
    var l := limit as real;
    assert 60.0 / l * l == 60.0;
    assert 1.0 <= l;
    assert 60.0 / l <= 60.0 by {
      assert 60.0 / l * (l - 1.0) >= 0.0;
    }
    late := 60.0 - 60.0 / l;
    assert 60.0 / l * (l / 60.0) == 1.0;
    assert (60.0 - 60.0 / l) * (l / 60.0) == 60.0 * (l / 60.0) - 60.0 / l * (l / 60.0);
  }

  /** A full bucket emptied at once, and what is back later emptied at once. */
  function TwoBursts(t: string, early: real, late: real, limit: nat): seq<Op>
    requires 1 <= limit
  {
    Burst(t, early, limit) + Burst(t, late, limit - 1)
  }

  lemma Waited(s: State, t: string, limit: nat, early: real, late: real)
    requires t in s.limits && 1 <= limit == s.limits[t] && SettledAt(s, t, early, 0)
    requires Refill(limit, late - early) == (limit - 1) as real
    ensures HoldsTokens(s, t, late, limit - 1)
  {
  }

  lemma DrainAndWait(s: State, t: string, limit: nat, early: real, late: real)
    requires t in s.limits && t !in s.last && 1 <= limit == s.limits[t]
    requires Refill(limit, late - early) == (limit - 1) as real
    ensures Calls(s, Burst(t, early, limit), t) == AllAdmitted(early, limit)
    ensures HoldsTokens(Run(s, Burst(t, early, limit)), t, late, limit - 1)
  {
    Drain(s, t, early, limit, limit);
    DrainState(s, t, early, limit, limit);
    Waited(Run(s, Burst(t, early, limit)), t, limit, early, late);
  }

  lemma DrainAgain(s: State, t: string, late: real, n: nat)
    requires HoldsTokens(s, t, late, n)
    ensures Calls(s, Burst(t, late, n), t) == AllAdmitted(late, n)
  {
    Drain(s, t, late, n, n);
  }

  lemma TwoBurstsAdmitted(s: State, t: string, limit: nat, early: real, late: real)
    requires t in s.limits && t !in s.last && 1 <= limit == s.limits[t]
    requires Refill(limit, late - early) == (limit - 1) as real
    ensures Calls(s, TwoBursts(t, early, late, limit), t) == AllAdmitted(early, limit) + AllAdmitted(late, limit - 1)
  {
    DrainAndWait(s, t, limit, early, late);
    DrainAgain(Run(s, Burst(t, early, limit)), t, late, limit - 1);
    RunAppend(s, Burst(t, early, limit), Burst(t, late, limit - 1), t);
  }

  lemma TwoBurstsCounted(early: real, n: nat, late: real, m: nat)
    requires early <= late
    ensures var cs := AllAdmitted(early, n) + AllAdmitted(late, m);
            && |cs| == n + m && InOrder(cs) && Admitted(cs, 0, n + m) == n + m
            && forall k :: 0 <= k < n + m ==> cs[k].at == if k < n then early else late
  {
    AllAdmittedFacts(early, n);
    AllAdmittedFacts(late, m);
    CountAll(AllAdmitted(early, n) + AllAdmitted(late, m), n + m);
  }

  /** For every limit from 1 up, a tenant's first minute can admit one less than twice the
      limit, whenever it starts. */
  lemma BusyMinute(s: State, t: string, early: real) returns (ops: seq<Op>)
    requires t in s.limits && t !in s.last && 1 <= s.limits[t]
    ensures Calls(s, ops, t) != [] && Calls(s, ops, t)[0].at == early
    ensures var limit := s.limits[t];
            WithinMinute(s, ops, t, 0, 2 * limit - 2) && Admitted(Calls(s, ops, t), 0, 2 * limit - 1) == 2 * limit - 1
  {
    var limit: nat := s.limits[t];
    var wait := RefilledInTime(limit);
    var late := early + wait;
    assert late - early == wait;
    ops := TwoBursts(t, early, late, limit);
    TwoBurstsAdmitted(s, t, limit, early, late);
    TwoBurstsCounted(early, limit, late, limit - 1);
    BurstIsAllow(t, early, limit);
    BurstIsAllow(t, late, limit - 1);
  }

  lemma {:induction false} BelowOneNeverAdmits(s: State, ops: seq<Op>, t: string)
    requires t in s.limits && s.limits[t] < 1 && FixedLimit(ops, t, s.limits[t])
    ensures t in Run(s, ops).limits && Run(s, ops).limits[t] == s.limits[t]
    ensures forall c :: c in Calls(s, ops, t) ==> !c.admitted
  {
    if ops != [] {
      BelowOneNeverAdmits(s, ops[..|ops| - 1], t);
    }
  }

  /** The most a half-open minute can admit. */
  function BusiestMinute(limit: int): nat {
    if limit < 1 then 0 else 2 * limit - 1
  }

  /** The exact cap on a half-open minute, for every limit: not the limit, but one less than
      twice the limit, and no smaller cap holds. */
  lemma MinuteCap(s: State, t: string, most: int)
    requires t in s.limits && t !in s.last
    ensures MinuteWithin(s, t, most) <==> BusiestMinute(s.limits[t]) <= most
  {
    var limit := s.limits[t];
    if BusiestMinute(limit) <= most {
      forall ops: seq<Op>, i: nat, j: nat | WithinMinute(s, ops, t, i, j)
        ensures Admitted(Calls(s, ops, t), i, j + 1) <= most
      {
        if limit < 1 {
          BelowOneNeverAdmits(s, ops, t);
          NoneAdmitted(Calls(s, ops, t), i, j + 1);
        } else {
          MinuteAdmitsBelowTwiceLimit(s, ops, t, limit, i, j);
        }
      }
    } else if limit < 1 {
      RunSnoc(s, [], Allow(t, 0.0), t);
      assert [] + [Allow(t, 0.0)] == [Allow(t, 0.0)];
      assert WithinMinute(s, [Allow(t, 0.0)], t, 0, 0);
    } else {
      var ops := BusyMinute(s, t, 0.0);
      assert WithinMinute(s, ops, t, 0, 2 * limit - 2);
    }
  }

  /** "Requests per minute" holds of every minute exactly when the limit is at most 1 and not
      negative. */
  lemma LimitIsMinuteCapOnlyUpToOne(s: State, t: string)
    requires t in s.limits && t !in s.last
    ensures MinuteWithin(s, t, s.limits[t]) <==> 0 <= s.limits[t] <= 1
  {
    MinuteCap(s, t, s.limits[t]);
  }

  /** As shipped: a minute can admit 1999, 999 and 499 requests under limits of 1000, 500 and 250. */
  lemma ShippedMinutes(most: int)
    ensures MinuteWithin(Initial(), "alpha", most) <==> 1999 <= most
    ensures MinuteWithin(Initial(), "beta", most) <==> 999 <= most
    ensures MinuteWithin(Initial(), "gamma", most) <==> 499 <= most
  {
    MinuteCap(Initial(), "alpha", most);
    MinuteCap(Initial(), "beta", most);
    MinuteCap(Initial(), "gamma", most);
  }

  // ---------- A status that is not honoured ----------

  /** Each shipped tenant can be told "requests allowed" and be denied ever after: its first
      call, then any limit below 1. */
  lemma StatusCanBreak(t: string, at: real, limit: int, later: real)
    requires t in Initial().limits && limit < 1
    ensures var s := Run(Initial(), [Allow(t, at), SetLimit(t, limit)]);
            StatusOf(s, t).allowed && !Admits(s, t, later)
  {
    var a, b := Allow(t, at), SetLimit(t, limit);
    RunSnoc(Initial(), [], a, t);
    RunSnoc(Initial(), [a], b, t);
    assert [] + [a] == [a] && [a] + [b] == [a, b];
  }

  // ---------- A denied call before a change of limit ----------

  /** What the new limit finds in the bucket at `now` when the denied call was made. */
  function WithDenied(s: State, t: string, now: real, limit: int): State {
    AfterSetLimit(AfterAllow(s, t, now), t, limit)
  }

  /** A change to `limit` leaves a call denied at `now` without trace: no call is ever admitted
      again, or the tenant was seen before and either its limit does not really change or no
      time has passed since, and its stored tokens are within the old limit. */
  predicate LeavesNoTrace(s: State, t: string, now: real, limit: int) {
    || limit < 1 || t !in s.limits
    || (t in s.last && (limit == s.limits[t] || (s.last[t] == now && TokensOf(s, t) <= s.limits[t] as real)))
  }

  /** When two buckets under one limit hold different amounts, some later call tells them apart
      unless both already hold a token. */
  lemma Distinguish(limit: int, low: real, high: real, now: real) returns (x: real)
    requires 1 <= limit && low < high && low < 1.0
    ensures now <= x && low + Refill(limit, x - now) < 1.0 <= high + Refill(limit, x - now)
  {
    var rate := limit as real / 60.0;
    assert 0.0 < rate;
    if 1.0 <= high {
      x := now;
    } else {
      var d := (1.0 - high) / rate;
      assert d * rate == 1.0 - high;
      assert 0.0 <= d;
      x := now + d;
    }
  }

  /** What a call at `x` finds after the change, in terms of the bucket at `now`. */
  lemma AvailableAfterChange(s: State, t: string, now: real, limit: int, x: real)
    requires WellKeyed(s) && t in s.last && !Admits(s, t, now)
    ensures Available(WithDenied(s, t, now, limit), t, x)
            == MinReal(limit as real, Available(s, t, now) + Refill(limit, x - now))
    ensures Available(AfterSetLimit(s, t, limit), t, x)
            == MinReal(limit as real, s.tokens[t] + Refill(limit, now - s.last[t]) + Refill(limit, x - now))
  {
    RefillSplit(limit, now - s.last[t], x - now);
  }

  /** For a tenant seen before, the two buckets coincide at the time of the denied call exactly
      when it leaves no trace. */
  lemma SameBucket(s: State, t: string, now: real, limit: int)
    requires WellKeyed(s) && t in s.last && s.last[t] <= now && !Admits(s, t, now) && 1 <= limit
    ensures Available(s, t, now) == s.tokens[t] + Refill(limit, now - s.last[t]) <==> LeavesNoTrace(s, t, now, limit)
  {
    var was, d := s.limits[t], now - s.last[t];
    if 0.0 < d {
      RefillOrder(0, limit, d);
      if limit < was {
        RefillStrict(limit, was, d);
      } else if was < limit {
        RefillStrict(was, limit, d);
      }
    } else {
      assert d == 0.0;
      RefillNone(limit);
      RefillNone(was);
    }
  }

  lemma RefillNone(limit: int)
    ensures Refill(limit, 0.0) == 0.0
  {
  }

  lemma RefillStrict(low: int, high: int, d: real)
    requires low < high && 0.0 < d
    ensures Refill(low, d) < Refill(high, d)
  {
    assert low as real / 60.0 < high as real / 60.0;
    assert 0.0 < d * (high as real / 60.0 - low as real / 60.0);
  }

  /** All later calls are answered alike with and without the denied call. */
  ghost predicate AnsweredAlike(a: State, b: State, t: string, now: real) {
    forall x :: now <= x ==> (Admits(a, t, x) <==> Admits(b, t, x))
  }

  lemma TraceShows(s: State, t: string, now: real, limit: int) returns (x: real)
    requires WellKeyed(s) && !Admits(s, t, now) && (t in s.last ==> s.last[t] <= now)
    requires !LeavesNoTrace(s, t, now, limit)
    ensures now <= x
    ensures Admits(WithDenied(s, t, now, limit), t, x) != Admits(AfterSetLimit(s, t, limit), t, x)
  {
    if t in s.last {
      SameBucket(s, t, now, limit);
      var with, without := Available(s, t, now), s.tokens[t] + Refill(limit, now - s.last[t]);
      if s.limits[t] < 1 {
        assert with < 1.0;
      }
      if with < without {
        x := Distinguish(limit, with, without, now);
      } else {
        x := Distinguish(limit, without, with, now);
      }
      AvailableAfterChange(s, t, now, limit, x);
    } else {
      x := now;
      assert Refill(limit, now - now) == 0.0;
    }
  }

  /** Exactly when deleting a denied call from a trace can be noticed, by any later call, after
      the limit is set to `limit`. */
  lemma DeniedCallTrace(s: State, t: string, now: real, limit: int)
    requires WellKeyed(s) && !Admits(s, t, now) && (t in s.last ==> s.last[t] <= now)
    ensures AnsweredAlike(WithDenied(s, t, now, limit), AfterSetLimit(s, t, limit), t, now)
            <==> LeavesNoTrace(s, t, now, limit)
  {
    if LeavesNoTrace(s, t, now, limit) {
      NoTraceIndistinguishable(s, t, now, limit);
    } else {
      var x := TraceShows(s, t, now, limit);
    }
  }

  lemma NoTraceIndistinguishable(s: State, t: string, now: real, limit: int)
    requires WellKeyed(s) && !Admits(s, t, now) && (t in s.last ==> s.last[t] <= now)
    requires LeavesNoTrace(s, t, now, limit)
    ensures Indistinguishable(WithDenied(s, t, now, limit), AfterSetLimit(s, t, limit), t, now)
  {
    if 1 <= limit && t in s.last {
      SameBucket(s, t, now, limit);
      forall x | now <= x
        ensures Available(WithDenied(s, t, now, limit), t, x) == Available(AfterSetLimit(s, t, limit), t, x)
      {
        AvailableAfterChange(s, t, now, limit, x);
      }
    }
  }

  /** The rest of a trace: the tenant's limit stays, its calls are not earlier than `now`. */
  ghost predicate Continues(after: seq<Op>, t: string, limit: int, now: real) {
    FixedLimit(after, t, limit) && forall op :: op in after && op.Allow? && op.tenant == t ==> now <= op.now
  }

  /** In no continuation does the tenant get different answers from the two limiters. */
  ghost predicate SameCalls(a: State, b: State, t: string, limit: int, now: real) {
    forall after :: Continues(after, t, limit, now) ==> Calls(a, after, t) == Calls(b, after, t)
  }

  lemma NoTraceSameCalls(s: State, t: string, now: real, limit: int)
    requires WellKeyed(s) && !Admits(s, t, now) && (t in s.last ==> s.last[t] <= now)
    requires LeavesNoTrace(s, t, now, limit)
    ensures SameCalls(WithDenied(s, t, now, limit), AfterSetLimit(s, t, limit), t, limit, now)
  {
    var a, b := WithDenied(s, t, now, limit), AfterSetLimit(s, t, limit);
    NoTraceIndistinguishable(s, t, now, limit);
    forall after | Continues(after, t, limit, now) ensures Calls(a, after, t) == Calls(b, after, t) {
      IndistinguishableRun(a, b, t, now, after);
    }
  }

  lemma TraceShowsInCalls(s: State, t: string, now: real, limit: int)
    requires WellKeyed(s) && !Admits(s, t, now) && (t in s.last ==> s.last[t] <= now)
    requires !LeavesNoTrace(s, t, now, limit)
    ensures !SameCalls(WithDenied(s, t, now, limit), AfterSetLimit(s, t, limit), t, limit, now)
  {
    var a, b := WithDenied(s, t, now, limit), AfterSetLimit(s, t, limit);
    var x := TraceShows(s, t, now, limit);
    OneCall(a, t, x);
    OneCall(b, t, x);
    assert Continues([Allow(t, x)], t, limit, now);
    assert Call(x, Admits(a, t, x)) != Call(x, Admits(b, t, x));
  }

  lemma OneCall(s: State, t: string, now: real)
    ensures Calls(s, [Allow(t, now)], t) == [Call(now, Admits(s, t, now))]
  {
    RunSnoc(s, [], Allow(t, now), t);
    assert [] + [Allow(t, now)] == [Allow(t, now)];
  }

  /** The same over whole traces: deleting the denied call changes none of the tenant's answers
      in any continuation if and only if it leaves no trace. */
  lemma DeniedCallInvisibleIff(s: State, before: seq<Op>, t: string, now: real, limit: int)
    requires WellKeyed(s) && !Admits(Run(s, before), t, now)
    requires var u := Run(s, before); t in u.last ==> u.last[t] <= now
    ensures SameCalls(Run(s, before + [Allow(t, now)] + [SetLimit(t, limit)]), Run(s, before + [SetLimit(t, limit)]),
                      t, limit, now)
            <==> LeavesNoTrace(Run(s, before), t, now, limit)
  {
    ReachableWellKeyed(s, before);
    RunSnoc(s, before, Allow(t, now), t);
    RunSnoc(s, before + [Allow(t, now)], SetLimit(t, limit), t);
    RunSnoc(s, before, SetLimit(t, limit), t);
    if LeavesNoTrace(Run(s, before), t, now, limit) {
      NoTraceSameCalls(Run(s, before), t, now, limit);
    } else {
      TraceShowsInCalls(Run(s, before), t, now, limit);
    }
  }

  /** A trace from the shipped state: under a limit of 1, a call denied half a minute after an
      admitted one is refilled at the old rate; once the limit is 60, a quarter of a second
      later, the next call is denied because of it. */
  lemma DeniedCallNoticed()
    ensures var s := Run(Initial(), [SetLimit("alpha", 1), Allow("alpha", 0.0)]);
            && !Admits(s, "alpha", 30.0)
            && !Admits(WithDenied(s, "alpha", 30.0, 60), "alpha", 30.25)
            && Admits(AfterSetLimit(s, "alpha", 60), "alpha", 30.25)
  {
    var a, b := SetLimit("alpha", 1), Allow("alpha", 0.0);
    RunSnoc(Initial(), [], a, "alpha");
    RunSnoc(Initial(), [a], b, "alpha");
    assert [] + [a] == [a] && [a] + [b] == [a, b];
    var s := Run(Initial(), [a, b]);
    assert s.limits["alpha"] == 1 && s.tokens["alpha"] == 0.0 && s.last["alpha"] == 0.0;
    assert Refill(1, 30.0) == 0.5 && Refill(60, 30.25) == 30.25 && Refill(60, 0.25) == 0.25;
    assert Available(s, "alpha", 30.0) == 0.5;
  }
}
