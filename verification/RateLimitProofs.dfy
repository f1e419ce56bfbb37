/** What the token bucket promises over whole runs. */
module RateLimitProofs {
  import opened RateLimit

  lemma RefillSplit(limit: int, a: real, b: real)
    ensures Refill(limit, a) + Refill(limit, b) == Refill(limit, a + b)
  {
  }

  lemma RefillOrder(low: int, high: int, d: real)
    requires low <= high && 0.0 <= d
    ensures Refill(low, d) <= Refill(high, d)
  {
    assert low as real / 60.0 <= high as real / 60.0;
  }

  lemma RefillNonNegative(limit: int, d: real)
    requires 0 <= limit && 0.0 <= d
    ensures 0.0 <= Refill(limit, d)
  {
    RefillOrder(0, limit, d);
  }

  lemma RefillUnderAMinute(limit: int, d: real)
    requires 1 <= limit && d < 60.0
    ensures Refill(limit, d) < limit as real
  {
    var rate := limit as real / 60.0;
    assert 0.0 < (60.0 - d) * rate;
  }

  lemma {:induction false} AdmittedExtends(cs: seq<Call>, c: Call, i: nat, j: nat)
    requires j <= |cs|
    ensures Admitted(cs + [c], i, j) == Admitted(cs, i, j)
  {
    if i < j {
      AdmittedExtends(cs, c, i, j - 1);
    }
  }

  // ---------- The bucket is the tightest window ----------

  /** What the window opened by call `j` would still grant at time `now`. */
  function Slack(limit: int, cs: seq<Call>, j: nat, now: real): real
    requires j < |cs|
  {
    limit as real + Refill(limit, now - cs[j].at) - Admitted(cs, j, |cs|) as real
  }

  ghost predicate TightestWindow(x: real, limit: int, cs: seq<Call>, now: real) {
    && (forall j: nat :: j < |cs| ==> x <= Slack(limit, cs, j, now))
    && (exists j: nat :: j < |cs| && x == Slack(limit, cs, j, now))
  }

  ghost predicate BucketMatches(s: State, t: string, limit: int, cs: seq<Call>) {
    && t in s.limits && s.limits[t] == limit
    && (cs == [] <==> t !in s.last)
    && (cs != [] ==> t in s.tokens && s.last[t] == cs[|cs| - 1].at
                     && TightestWindow(s.tokens[t], limit, cs, s.last[t]))
  }

  lemma SlackMoves(limit: int, cs: seq<Call>, j: nat, before: real, now: real)
    requires j < |cs|
    ensures Slack(limit, cs, j, now) == Slack(limit, cs, j, before) + Refill(limit, now - before)
  {
    RefillSplit(limit, before - cs[j].at, now - before);
  }

  lemma SlackAfterCall(limit: int, cs: seq<Call>, c: Call, j: nat)
    requires j <= |cs|
    ensures Slack(limit, cs + [c], j, c.at) ==
            (if j < |cs| then Slack(limit, cs, j, c.at) else limit as real) - if c.admitted then 1.0 else 0.0
  {
    AdmittedExtends(cs, c, j, |cs|);
    assert |cs + [c]| == |cs| + 1 && (cs + [c])[|cs|] == c;
    assert Refill(limit, c.at - c.at) == 0.0;
  }

  /** A call finds the minimum of the limit and all past windows moved to the present. */
  lemma AvailableIsTightest(s: State, t: string, limit: int, cs: seq<Call>, now: real)
    requires BucketMatches(s, t, limit, cs)
    ensures Available(s, t, now) <= limit as real
    ensures forall j: nat :: j < |cs| ==> Available(s, t, now) <= Slack(limit, cs, j, now)
    ensures Available(s, t, now) == limit as real
            || exists j: nat :: j < |cs| && Available(s, t, now) == Slack(limit, cs, j, now)
  {
    if cs != [] {
      forall j: nat | j < |cs|
        ensures Slack(limit, cs, j, now) == Slack(limit, cs, j, s.last[t]) + Refill(limit, now - s.last[t])
      {
        SlackMoves(limit, cs, j, s.last[t], now);
      }
    }
  }

  lemma AllowKeepsMatch(s: State, t: string, limit: int, cs: seq<Call>, now: real)
    requires BucketMatches(s, t, limit, cs)
    ensures BucketMatches(AfterAllow(s, t, now), t, limit, cs + [Call(now, Admits(s, t, now))])
  {
    var c := Call(now, Admits(s, t, now));
    var cs' := cs + [c];
    AvailableIsTightest(s, t, limit, cs, now);
    forall j: nat | j <= |cs|
      ensures Slack(limit, cs', j, now) ==
              (if j < |cs| then Slack(limit, cs, j, now) else limit as real) - if c.admitted then 1.0 else 0.0
    {
      SlackAfterCall(limit, cs, c, j);
    }
    if Available(s, t, now) == limit as real {
      assert AfterAllow(s, t, now).tokens[t] == Slack(limit, cs', |cs|, now);
    }
  }

  /** After any run with a fixed limit the stored tokens are the minimum over all past windows. */
  lemma {:induction false} BucketIsTightestWindow(s: State, ops: seq<Op>, t: string)
    requires t in s.limits && t !in s.last && FixedLimit(ops, t, s.limits[t])
    ensures BucketMatches(Run(s, ops), t, s.limits[t], Calls(s, ops, t))
  {
    if ops != [] {
      var pre, op := ops[..|ops| - 1], ops[|ops| - 1];
      BucketIsTightestWindow(s, pre, t);
      if op.Allow? && op.tenant == t {
        AllowKeepsMatch(Run(s, pre), t, s.limits[t], Calls(s, pre, t), op.now);
      }
    }
  }

  /** The window opened by call `j` has room for call `n`. */
  ghost predicate HasRoom(limit: int, cs: seq<Call>, j: nat, n: nat)
    requires j <= n < |cs|
  {
    1.0 + Admitted(cs, j, n) as real <= limit as real + Refill(limit, cs[n].at - cs[j].at)
  }

  lemma HasRoomExtends(limit: int, cs: seq<Call>, c: Call, j: nat, n: nat)
    requires j <= n <= |cs|
    ensures n < |cs| ==> (HasRoom(limit, cs + [c], j, n) <==> HasRoom(limit, cs, j, n))
    ensures n == |cs| ==> (HasRoom(limit, cs + [c], j, n) <==>
                           1.0 <= if j < n then Slack(limit, cs, j, c.at) else limit as real)
  {
    AdmittedExtends(cs, c, j, n);
  }

  /** Call `n` is admitted exactly when every window ending at it has room for one more:
      for any limit, any clock and any interleaving with other tenants. */
  lemma {:induction false} WindowCharacterisation(s: State, ops: seq<Op>, t: string, n: nat)
    requires t in s.limits && t !in s.last && FixedLimit(ops, t, s.limits[t])
    requires n < |Calls(s, ops, t)|
    ensures Calls(s, ops, t)[n].admitted <==>
            forall j: nat :: j <= n ==> HasRoom(s.limits[t], Calls(s, ops, t), j, n)
  {
    var pre, op := ops[..|ops| - 1], ops[|ops| - 1];
    var limit, cs := s.limits[t], Calls(s, pre, t);
    if op.Allow? && op.tenant == t {
      var c := Call(op.now, Admits(Run(s, pre), t, op.now));
      assert Calls(s, ops, t) == cs + [c];
      forall j: nat | j <= n
        ensures n < |cs| ==> (HasRoom(limit, cs + [c], j, n) <==> HasRoom(limit, cs, j, n))
        ensures n == |cs| ==> (HasRoom(limit, cs + [c], j, n) <==>
                               1.0 <= if j < n then Slack(limit, cs, j, c.at) else limit as real)
      {
        HasRoomExtends(limit, cs, c, j, n);
      }
      if n < |cs| {
        WindowCharacterisation(s, pre, t, n);
      } else {
        BucketIsTightestWindow(s, pre, t);
        AvailableIsTightest(Run(s, pre), t, limit, cs, op.now);
        assert HasRoom(limit, cs + [c], n, n) <==> 1.0 <= limit as real;
      }
    } else {
      WindowCharacterisation(s, pre, t, n);
    }
  }

  // ---------- Rate bound while limits change ----------

  predicate LimitsWithin(s: State, ops: seq<Op>, t: string, most: int) {
    && 0 <= most
    && (t in s.limits ==> 0 <= s.limits[t] <= most)
    && forall op :: op in ops && op.SetLimit? && op.tenant == t ==> 0 <= op.limit <= most
  }

  /** The calls from `i` on fit under the fastest rate with `held` tokens left at `now`. */
  predicate Fits(most: int, cs: seq<Call>, i: nat, held: real, now: real)
    requires i < |cs|
  {
    Admitted(cs, i, |cs|) as real + held <= most as real + Refill(most, now - cs[i].at)
  }

  /** Every window's admissions plus the tokens still held are covered by the fastest rate. */
  ghost predicate Funded(s: State, t: string, most: int, cs: seq<Call>) {
    && (t in s.limits ==> 0 <= s.limits[t] <= most)
    && (t in s.last ==>
          && t in s.limits && t in s.tokens && 0.0 <= s.tokens[t] && cs != [] && s.last[t] == cs[|cs| - 1].at
          && forall i: nat :: i < |cs| ==> Fits(most, cs, i, s.tokens[t], s.last[t]))
    && (t !in s.last ==> forall c :: c in cs ==> !c.admitted)
  }

  lemma {:induction false} NoneAdmitted(cs: seq<Call>, i: nat, j: nat)
    requires j <= |cs| && forall c :: c in cs ==> !c.admitted
    ensures Admitted(cs, i, j) == 0
  {
    if i < j {
      assert cs[j - 1] in cs;
      NoneAdmitted(cs, i, j - 1);
    }
  }

  lemma FitsAfterCall(most: int, cs: seq<Call>, i: nat, held: real, before: real, c: Call, held': real)
    requires 0 <= most && i < |cs| && cs[i].at <= c.at && before <= c.at
    requires Fits(most, cs, i, held, before)
    requires held' + (if c.admitted then 1.0 else 0.0) <= held + Refill(most, c.at - before)
    ensures Fits(most, cs + [c], i, held', c.at)
  {
    AdmittedExtends(cs, c, i, |cs|);
    RefillSplit(most, before - cs[i].at, c.at - before);
  }

  lemma FitsFromScratch(most: int, cs: seq<Call>, i: nat, c: Call, held': real)
    requires 0 <= most && i <= |cs| && (cs + [c])[i].at <= c.at
    requires Admitted(cs, i, |cs|) == 0
    requires held' + (if c.admitted then 1.0 else 0.0) <= most as real
    ensures Fits(most, cs + [c], i, held', c.at)
  {
    AdmittedExtends(cs, c, i, |cs|);
    RefillNonNegative(most, c.at - (cs + [c])[i].at);
  }

  lemma AllowKeepsFunded(s: State, t: string, most: int, cs: seq<Call>, now: real)
    requires 0 <= most && Funded(s, t, most, cs)
    requires forall c :: c in cs ==> c.at <= now
    ensures Funded(AfterAllow(s, t, now), t, most, cs + [Call(now, Admits(s, t, now))])
  {
    if t in s.limits {
      var c, held' := Call(now, Admits(s, t, now)), AfterAllow(s, t, now).tokens[t];
      assert held' + (if c.admitted then 1.0 else 0.0) == Available(s, t, now) <= most as real;
      if t in s.last {
        RefillNonNegative(s.limits[t], now - s.last[t]);
        RefillOrder(s.limits[t], most, now - s.last[t]);
      }
      forall i: nat | i <= |cs|
        ensures Fits(most, cs + [c], i, held', now)
      {
        assert i < |cs| ==> cs[i] in cs;
        if t in s.last && i < |cs| {
          FitsAfterCall(most, cs, i, s.tokens[t], s.last[t], c, held');
        } else {
          if i < |cs| { NoneAdmitted(cs, i, |cs|); }
          FitsFromScratch(most, cs, i, c, held');
        }
      }
    }
  }

  lemma {:induction false} RunFunded(s: State, ops: seq<Op>, t: string, most: int)
    requires t !in s.last && LimitsWithin(s, ops, t, most) && InOrder(Calls(s, ops, t))
    ensures Funded(Run(s, ops), t, most, Calls(s, ops, t))
  {
    if ops != [] {
      var pre, op := ops[..|ops| - 1], ops[|ops| - 1];
      var cs := Calls(s, pre, t);
      var all := Calls(s, ops, t);
      assert forall i :: 0 <= i < |cs| ==> all[i] == cs[i];
      RunFunded(s, pre, t, most);
      if op.Allow? && op.tenant == t {
        assert all == cs + [Call(op.now, Admits(Run(s, pre), t, op.now))];
        assert forall c :: c in cs ==> exists i :: 0 <= i < |cs| && all[i] == c;
        assert all[|cs|].at == op.now;
        AllowKeepsFunded(Run(s, pre), t, most, cs, op.now);
      }
    }
  }

  /** With limits that only ever lie in 0..most, the calls admitted from call `i` to call `j`
      never exceed `most` plus what the fastest rate earns in between. */
  lemma {:induction false} RateBound(s: State, ops: seq<Op>, t: string, most: int, i: nat, j: nat)
    requires t !in s.last && LimitsWithin(s, ops, t, most) && InOrder(Calls(s, ops, t))
    requires i <= j < |Calls(s, ops, t)|
    ensures var cs := Calls(s, ops, t);
            Admitted(cs, i, j + 1) as real <= most as real + Refill(most, cs[j].at - cs[i].at)
  {
    var pre, op := ops[..|ops| - 1], ops[|ops| - 1];
    var cs, before := Calls(s, ops, t), Calls(s, pre, t);
    assert forall i :: 0 <= i < |before| ==> cs[i] == before[i];
    if j < |before| {
      RateBound(s, pre, t, most, i, j);
      if op.Allow? && op.tenant == t {
        AdmittedExtends(before, cs[|before|], i, j + 1);
      }
    } else {
      RunFunded(s, ops, t, most);
      if t in Run(s, ops).last {
        assert Fits(most, cs, i, Run(s, ops).tokens[t], Run(s, ops).last[t]);
      } else {
        NoneAdmitted(cs, i, j + 1);
        RefillNonNegative(most, cs[j].at - cs[i].at);
      }
    }
  }

  lemma RunSnoc(s: State, ops: seq<Op>, op: Op, t: string)
    ensures Run(s, ops + [op]) == Step(Run(s, ops), op)
    ensures Calls(s, ops + [op], t) ==
            if op.Allow? && op.tenant == t
            then Calls(s, ops, t) + [Call(op.now, Admits(Run(s, ops), t, op.now))]
            else Calls(s, ops, t)
  {
    assert (ops + [op])[..|ops|] == ops;
  }

  /** In every half-open minute fewer than twice the largest limit are admitted. */
  lemma MinuteAdmitsBelowTwiceLimit(s: State, ops: seq<Op>, t: string, most: int, i: nat, j: nat)
    requires 1 <= most && t !in s.last && LimitsWithin(s, ops, t, most) && InOrder(Calls(s, ops, t))
    requires i <= j < |Calls(s, ops, t)| && Calls(s, ops, t)[j].at < Calls(s, ops, t)[i].at + 60.0
    ensures Admitted(Calls(s, ops, t), i, j + 1) <= 2 * most - 1
  {
    RateBound(s, ops, t, most, i, j);
    RefillUnderAMinute(most, Calls(s, ops, t)[j].at - Calls(s, ops, t)[i].at);
  }

  // ---------- Tenants do not affect one another ----------

  /** Two limiters agree on everything they hold for one tenant. */
  ghost predicate SameTenant(a: State, b: State, t: string) {
    && (t in a.limits <==> t in b.limits) && (t in a.limits ==> a.limits[t] == b.limits[t])
    && (t in a.tokens <==> t in b.tokens) && (t in a.tokens ==> a.tokens[t] == b.tokens[t])
    && (t in a.last <==> t in b.last) && (t in a.last ==> a.last[t] == b.last[t])
  }

  lemma SameTenantStep(a: State, b: State, t: string, op: Op)
    requires SameTenant(a, b, t)
    ensures SameTenant(Step(a, op), Step(b, op), t)
    ensures op.Allow? ==> (Admits(a, t, op.now) <==> Admits(b, t, op.now))
  {
  }

  lemma OtherStep(a: State, t: string, op: Op)
    requires op.tenant != t
    ensures SameTenant(a, Step(a, op), t)
  {
  }

  /** A tenant's answers and stored state in a run over all tenants are those of the run
      from which every other tenant's operations are removed. */
  lemma {:induction false} Isolation(s: State, ops: seq<Op>, t: string)
    ensures Calls(s, ops, t) == Calls(s, Only(ops, t), t)
    ensures SameTenant(Run(s, ops), Run(s, Only(ops, t)), t)
  {
    if ops != [] {
      var pre, op := ops[..|ops| - 1], ops[|ops| - 1];
      Isolation(s, pre, t);
      if op.tenant == t {
        RunSnoc(s, Only(pre, t), op, t);
        SameTenantStep(Run(s, pre), Run(s, Only(pre, t)), t, op);
      } else {
        OtherStep(Run(s, pre), t, op);
      }
    }
  }

  lemma {:induction false} ReachableWellKeyed(s: State, ops: seq<Op>)
    requires WellKeyed(s)
    ensures WellKeyed(Run(s, ops)) && s.limits.Keys <= Run(s, ops).limits.Keys
  {
    if ops != [] {
      ReachableWellKeyed(s, ops[..|ops| - 1]);
    }
  }

  lemma {:induction false} OthersLeaveTenant(s: State, ops: seq<Op>, t: string)
    requires forall op :: op in ops ==> op.tenant != t
    ensures SameTenant(s, Run(s, ops), t) && Calls(s, ops, t) == []
  {
    if ops != [] {
      OthersLeaveTenant(s, ops[..|ops| - 1], t);
    }
  }

  /** In any reachable state a status of "requests allowed" is honoured by the tenant's next
      call, at any later time and whatever other tenants do before it, exactly when the limit
      is at least 1. A limit lowered below 1 is the one way the status can be wrong. */
  lemma StatusHonoured(ops: seq<Op>, others: seq<Op>, t: string, now: real)
    requires StatusOf(Run(Initial(), ops), t).allowed
    requires forall op :: op in others ==> op.tenant != t
    requires var s := Run(Initial(), ops); t in s.last ==> s.last[t] <= now
    ensures Admits(Run(Run(Initial(), ops), others), t, now) <==>
            StatusOf(Run(Initial(), ops), t).limit >= 1
  {
    var s := Run(Initial(), ops);
    ReachableWellKeyed(Initial(), ops);
    OthersLeaveTenant(s, others, t);
    if t in s.last && s.limits[t] >= 1 {
      RefillNonNegative(s.limits[t], now - s.last[t]);
    }
  }

  // ---------- Denied calls leave no trace ----------

  lemma {:induction false} RunAppend(s: State, a: seq<Op>, b: seq<Op>, t: string)
    ensures Run(s, a + b) == Run(Run(s, a), b)
    ensures Calls(s, a + b, t) == Calls(s, a, t) + Calls(Run(s, a), b, t)
  {
    if b == [] {
      assert a + b == a;
    } else {
      assert (a + b)[..|a + b| - 1] == a + b[..|b| - 1];
      RunAppend(s, a, b[..|b| - 1], t);
    }
  }

  /** From `from` on, both limiters answer the tenant alike. */
  ghost predicate Indistinguishable(a: State, b: State, t: string, from: real) {
    && (t in a.limits <==> t in b.limits) && (t in a.limits ==> a.limits[t] == b.limits[t])
    && (t in a.limits ==>
          || a.limits[t] < 1
          || forall x :: from <= x ==> Available(a, t, x) == Available(b, t, x))
  }

  lemma DeniedStepIndistinguishable(s: State, t: string, now: real)
    requires WellKeyed(s) && !Admits(s, t, now) && (t in s.last ==> s.last[t] <= now)
    ensures Indistinguishable(AfterAllow(s, t, now), s, t, now)
  {
    if t in s.limits && 1 <= s.limits[t] {
      var limit := s.limits[t];
      forall x | now <= x
        ensures Available(AfterAllow(s, t, now), t, x) == Available(s, t, x)
      {
        RefillSplit(limit, now - s.last[t], x - now);
        RefillNonNegative(limit, x - now);
      }
    }
  }

  lemma IndistinguishableStep(a: State, b: State, t: string, from: real, op: Op)
    requires WellKeyed(a) && WellKeyed(b) && Indistinguishable(a, b, t, from) && t in a.limits
    requires op.tenant == t ==> if op.SetLimit? then op.limit == a.limits[t] else from <= op.now
    ensures Indistinguishable(Step(a, op), Step(b, op), t, from)
    ensures op.tenant == t && op.Allow? ==> (Admits(a, t, op.now) <==> Admits(b, t, op.now))
  {
    var a', b' := Step(a, op), Step(b, op);
    if 1 <= a.limits[t] {
      if op.tenant == t && op.Allow? {
        assert a'.tokens[t] == b'.tokens[t] && a'.last[t] == b'.last[t];
      } else {
        forall x | from <= x
          ensures Available(a', t, x) == Available(a, t, x) && Available(b', t, x) == Available(b, t, x)
        {
        }
      }
    }
  }

  lemma {:induction false} IndistinguishableRun(a: State, b: State, t: string, from: real, ops: seq<Op>)
    requires WellKeyed(a) && WellKeyed(b) && Indistinguishable(a, b, t, from)
    requires t in a.limits ==> FixedLimit(ops, t, a.limits[t])
    requires t !in a.limits ==> SameTenant(a, b, t)
    requires forall op :: op in ops && op.Allow? && op.tenant == t ==> from <= op.now
    ensures Calls(a, ops, t) == Calls(b, ops, t)
    ensures t in a.limits ==>
            && Indistinguishable(Run(a, ops), Run(b, ops), t, from)
            && t in Run(a, ops).limits && Run(a, ops).limits[t] == a.limits[t]
    ensures t !in a.limits ==> SameTenant(Run(a, ops), Run(b, ops), t)
  {
    if ops != [] {
      var pre, op := ops[..|ops| - 1], ops[|ops| - 1];
      assert forall op :: op in pre ==> op in ops;
      IndistinguishableRun(a, b, t, from, pre);
      ReachableWellKeyed(a, pre);
      ReachableWellKeyed(b, pre);
      if t in a.limits {
        IndistinguishableStep(Run(a, pre), Run(b, pre), t, from, op);
      } else {
        SameTenantStep(Run(a, pre), Run(b, pre), t, op);
      }
    }
  }

  /** Removing a denied call of tenant `t` changes no other answer, to `t` or to anyone else,
      as long as `t`'s limit stays what it was and its later calls are not earlier in time. */
  lemma DeniedCallInvisible(s: State, before: seq<Op>, t: string, now: real, after: seq<Op>, who: string)
    requires WellKeyed(s) && !Admits(Run(s, before), t, now)
    requires var u := Run(s, before);
             && (t in u.last ==> u.last[t] <= now)
             && (t in u.limits ==> FixedLimit(after, t, u.limits[t]))
    requires forall op :: op in after && op.Allow? && op.tenant == t ==> now <= op.now
    ensures Calls(s, before + [Allow(t, now)] + after, who) ==
            Calls(s, before, who) + (if who == t then [Call(now, false)] else [])
            + Calls(Run(s, before), after, who)
    ensures Calls(s, before + after, who) == Calls(s, before, who) + Calls(Run(s, before), after, who)
  {
    var u := Run(s, before);
    var denied := [Allow(t, now)];
    ReachableWellKeyed(s, before);
    RunAppend(s, before, after, who);
    RunAppend(s, before, denied, who);
    RunAppend(s, before + denied, after, who);
    assert denied[..0] == [];
    assert Calls(u, denied, who) == if who == t then [Call(now, false)] else [];
    var u' := AfterAllow(u, t, now);
    if who == t {
      DeniedStepIndistinguishable(u, t, now);
      IndistinguishableRun(u', u, t, now, after);
    } else {
      SameTenantRun(u', u, who, after);
    }
  }

  lemma {:induction false} SameTenantRun(a: State, b: State, t: string, ops: seq<Op>)
    requires SameTenant(a, b, t)
    ensures SameTenant(Run(a, ops), Run(b, ops), t) && Calls(a, ops, t) == Calls(b, ops, t)
  {
    if ops != [] {
      var pre, op := ops[..|ops| - 1], ops[|ops| - 1];
      SameTenantRun(a, b, t, pre);
      SameTenantStep(Run(a, pre), Run(b, pre), t, op);
    }
  }
}
