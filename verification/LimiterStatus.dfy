/** What `GetStatus` and `SetLimit` mean over whole runs from the shipped limiter. */
module LimiterStatus {
  import opened RateLimit
  import opened RateLimitProofs

  // ---------- The reported limit ----------

  /** The limit a tenant is shipped with, 0 for none. */
  function Shipped(t: string): int {
    if t == "alpha" then 1000 else if t == "beta" then 500 else if t == "gamma" then 250 else 0
  }

  predicate Configured(t: string) {
    t == "alpha" || t == "beta" || t == "gamma"
  }

  /** The limit last set for a tenant, or else the shipped one. */
  function LastSet(ops: seq<Op>, t: string): int {
    if ops == [] then Shipped(t) else
      var op := ops[|ops| - 1];
      if op.SetLimit? && op.tenant == t then op.limit else LastSet(ops[..|ops| - 1], t)
  }

  /** A tenant has a limit when it is shipped with one or was given one. */
  predicate Known(ops: seq<Op>, t: string) {
    if ops == [] then Configured(t) else
      var op := ops[|ops| - 1];
      Known(ops[..|ops| - 1], t) || (op.SetLimit? && op.tenant == t)
  }

  lemma ShippedLimits(t: string)
    ensures t in Initial().limits <==> Configured(t)
    ensures t in Initial().limits ==> Initial().limits[t] == Shipped(t)
  {
  }

  lemma {:induction false} LimitsOfRun(ops: seq<Op>, t: string)
    ensures t in Run(Initial(), ops).limits <==> Known(ops, t)
    ensures t in Run(Initial(), ops).limits ==> Run(Initial(), ops).limits[t] == LastSet(ops, t)
    ensures t !in Run(Initial(), ops).limits ==> LastSet(ops, t) == 0
  {
    ShippedLimits(t);
    if ops != [] {
      LimitsOfRun(ops[..|ops| - 1], t);
    }
  }

  // ---------- The reported tokens ----------

  /** The limiter holds tokens for a tenant: it was given a limit, or called while it had one. */
  predicate Seen(ops: seq<Op>, t: string) {
    ops != [] &&
    var pre, op := ops[..|ops| - 1], ops[|ops| - 1];
    Seen(pre, t) || (op.tenant == t && (op.SetLimit? || Known(pre, t)))
  }

  /** The tenant was called while it had a limit. */
  predicate Called(ops: seq<Op>, t: string) {
    ops != [] &&
    var pre, op := ops[..|ops| - 1], ops[|ops| - 1];
    Called(pre, t) || (op.tenant == t && op.Allow? && Known(pre, t))
  }

  /** The clock reading of the tenant's last call while it had a limit. */
  function LastCall(ops: seq<Op>, t: string): real {
    if ops == [] then 0.0 else
      var pre, op := ops[..|ops| - 1], ops[|ops| - 1];
      if op.tenant == t && op.Allow? && Known(pre, t) then op.now else LastCall(pre, t)
  }

  lemma {:induction false} SeenOfRun(ops: seq<Op>, t: string)
    ensures t in Run(Initial(), ops).tokens <==> Seen(ops, t)
    ensures t in Run(Initial(), ops).last <==> Called(ops, t)
    ensures Called(ops, t) ==> Seen(ops, t) && Run(Initial(), ops).last[t] == LastCall(ops, t)
  {
    if ops != [] {
      SeenOfRun(ops[..|ops| - 1], t);
      LimitsOfRun(ops[..|ops| - 1], t);
    }
  }

  // ---------- What GetStatus reports ----------

  /** Name and limit: the last one set or the shipped one, 0 for a tenant without. A tenant the
      limiter holds nothing for has no tokens; and a call is allowed from one token on. */
  lemma StatusNamesLimit(ops: seq<Op>, t: string)
    ensures var status := StatusOf(Run(Initial(), ops), t);
            && status.tenant == t && status.limit == LastSet(ops, t)
            && (!Seen(ops, t) ==> status.tokens == 0.0)
            && (status.allowed <==> status.tokens >= 1.0)
  {
    LimitsOfRun(ops, t);
    SeenOfRun(ops, t);
  }

  /** With a limit of at least 1, "requests allowed" says exactly that one more call at the time
      of the last one would be admitted, whatever limits were set before. */
  lemma AllowedMeansOneMore(ops: seq<Op>, t: string)
    requires Called(ops, t) && 1 <= LastSet(ops, t)
    ensures StatusOf(Run(Initial(), ops), t).allowed <==> Admits(Run(Initial(), ops), t, LastCall(ops, t))
  {
    var s := Run(Initial(), ops);
    SeenOfRun(ops, t);
    LimitsOfRun(ops, t);
    ReachableWellKeyed(Initial(), ops);
    assert Refill(s.limits[t], s.last[t] - s.last[t]) == 0.0;
  }

  /** In a run that keeps the shipped limit the reported tokens are what the tightest window of
      the tenant's calls leaves. */
  lemma TokensAreTightestWindow(ops: seq<Op>, t: string)
    requires Configured(t) && FixedLimit(ops, t, Shipped(t)) && Calls(Initial(), ops, t) != []
    ensures var cs := Calls(Initial(), ops, t);
            TightestWindow(StatusOf(Run(Initial(), ops), t).tokens, Shipped(t), cs, cs[|cs| - 1].at)
  {
    var s, cs := Run(Initial(), ops), Calls(Initial(), ops, t);
    ShippedLimits(t);
    BucketIsTightestWindow(Initial(), ops, t);
    assert s.last[t] == cs[|cs| - 1].at && StatusOf(s, t).tokens == s.tokens[t];
  }

  /** A bucket after `elapsed` seconds at `limit` per minute; it never holds more than the limit. */
  function ToppedUp(limit: int, tokens: real, elapsed: real): real {
    var more := tokens + Refill(limit, elapsed);
    if more > limit as real then limit as real else more
  }

  /** What a call finds: a full bucket the first time, a topped-up one later. */
  function Found(ops: seq<Op>, t: string, tokens: real, now: real): real {
    if Called(ops, t) then ToppedUp(LastSet(ops, t), tokens, now - LastCall(ops, t)) else LastSet(ops, t) as real
  }

  lemma FoundIsAvailable(ops: seq<Op>, t: string, now: real)
    requires Known(ops, t)
    ensures t in Run(Initial(), ops).limits
    ensures Available(Run(Initial(), ops), t, now) == Found(ops, t, TokensOf(Run(Initial(), ops), t), now)
  {
    LimitsOfRun(ops, t);
    SeenOfRun(ops, t);
    AvailableIsToppedUp(Run(Initial(), ops), t, now);
  }

  lemma AvailableIsToppedUp(s: State, t: string, now: real)
    requires t in s.limits
    ensures Available(s, t, now) ==
            if t in s.last then ToppedUp(s.limits[t], TokensOf(s, t), now - s.last[t]) else s.limits[t] as real
  {
  }

  lemma TokensAfterAllow(s: State, t: string, now: real)
    requires t in s.limits
    ensures var found := Available(s, t, now);
            TokensOf(AfterAllow(s, t, now), t) == if found >= 1.0 then found - 1.0 else found
  {
  }

  /** What one more call leaves: what it found less the token it took. */
  lemma StatusAfterCall(ops: seq<Op>, t: string, now: real)
    requires Known(ops, t)
    ensures var before, after := StatusOf(Run(Initial(), ops), t), StatusOf(Run(Initial(), ops + [Allow(t, now)]), t);
            var found := Found(ops, t, before.tokens, now);
            && after.limit == before.limit
            && after.tokens == (if found >= 1.0 then found - 1.0 else found)
            && (Admits(Run(Initial(), ops), t, now) <==> found >= 1.0)
  {
    RunSnoc(Initial(), ops, Allow(t, now), t);
    FoundIsAvailable(ops, t, now);
    TokensAfterAllow(Run(Initial(), ops), t, now);
  }

  /** Setting a limit reports the new limit and leaves the tokens of a tenant that has any; one
      that has none is given the limit. Nothing changes for anyone else. */
  lemma StatusAfterSetLimit(ops: seq<Op>, t: string, limit: int, who: string)
    ensures var before := StatusOf(Run(Initial(), ops), who);
            var after := StatusOf(Run(Initial(), ops + [SetLimit(t, limit)]), who);
            if who != t then after == before
            else
              && after.limit == limit
              && after.tokens == (if Seen(ops, t) then before.tokens else limit as real)
              && (!Seen(ops, t) ==> (after.allowed <==> 1 <= limit))
  {
    SeenOfRun(ops, t);
    RunSnoc(Initial(), ops, SetLimit(t, limit), t);
  }
}
