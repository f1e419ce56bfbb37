/** The per-tenant token bucket of pkg/ratelimit/ratelimit.go.

    Tokens, rates and clock readings are exact reals. Every exported operation runs
    wholly under the limiter's mutex, so each one is a single atomic step and the
    clock reading it makes becomes a parameter. */
module RateLimit {
  import opened Common

  /** The three maps of the limiter, as a value. */
  datatype State = State(limits: map<string, int>, tokens: map<string, real>, last: map<string, real>)

  datatype Status = Status(tenant: string, limit: int, tokens: real, allowed: bool)

  function Initial(): State {
    State(map["alpha" := 1000, "beta" := 500, "gamma" := 250], map[], map[])
  }

  /** Tokens earned over `d` seconds. */
  function Refill(limit: int, d: real): real {
    d * (limit as real / 60.0)
  }

  /** Reading a map at a missing key yields the zero value. */
  function TokensOf(s: State, t: string): real {
    if t in s.tokens then s.tokens[t] else 0.0
  }

  /** What a call at `now` finds in the bucket; a tenant never seen before has a full one. */
  function Available(s: State, t: string, now: real): real
    requires t in s.limits
  {
    var limit := s.limits[t];
    if t in s.last
    then MinReal(limit as real, TokensOf(s, t) + Refill(limit, now - s.last[t]))
    else limit as real
  }

  predicate Admits(s: State, t: string, now: real) {
    t in s.limits && Available(s, t, now) >= 1.0
  }

  function AfterAllow(s: State, t: string, now: real): State {
    if t !in s.limits then s else
      var a := Available(s, t, now);
      s.(tokens := s.tokens[t := if a >= 1.0 then a - 1.0 else a], last := s.last[t := now])
  }

  function AfterSetLimit(s: State, t: string, limit: int): State {
    State(s.limits[t := limit],
          if t in s.tokens then s.tokens else s.tokens[t := limit as real],
          s.last)
  }

  function StatusOf(s: State, t: string): Status {
    Status(t, if t in s.limits then s.limits[t] else 0, TokensOf(s, t), TokensOf(s, t) >= 1.0)
  }

  class TenantLimiter {
    var limits: map<string, int>
    var tokens: map<string, real>
    var last: map<string, real>

    ghost function Contents(): State
      reads this
    {
      State(limits, tokens, last)
    }

    constructor ()
      ensures Contents() == Initial()
    {
      limits := map["alpha" := 1000, "beta" := 500, "gamma" := 250];
      tokens := map[];
      last := map[];
    }

    method Allow(tenant: string, now: real) returns (ok: bool)
      modifies this
      ensures ok == Admits(old(Contents()), tenant, now)
      ensures Contents() == AfterAllow(old(Contents()), tenant, now)
    {
      if tenant !in limits {
        return false;
      }
      var limit := limits[tenant];
      var lastRefresh := now;
      if tenant in last {
        lastRefresh := last[tenant];
      } else {
        last := last[tenant := now];
        tokens := tokens[tenant := limit as real];
      }
      var elapsed := now - lastRefresh;
      last := last[tenant := now];

      var refillRate := limit as real / 60.0;
      var tokensToAdd := elapsed * refillRate;
      var current := if tenant in tokens then tokens[tenant] else 0.0;
      tokens := tokens[tenant := MinReal(limit as real, current + tokensToAdd)];

      assert elapsed == 0.0 ==> tokensToAdd == 0.0;
      assert tokens[tenant] == Available(old(Contents()), tenant, now);
      assert tokens == old(tokens)[tenant := Available(old(Contents()), tenant, now)];
      if tokens[tenant] >= 1.0 {
        tokens := tokens[tenant := tokens[tenant] - 1.0];
        assert Contents() == AfterAllow(old(Contents()), tenant, now);
        return true;
      }
      return false;
    }

    method GetStatus(tenant: string) returns (status: Status)
      ensures status == StatusOf(Contents(), tenant)
    {
      var limit := if tenant in limits then limits[tenant] else 0;
      var current := if tenant in tokens then tokens[tenant] else 0.0;
      status := Status(tenant, limit, current, current >= 1.0);
    }

    method SetLimit(tenant: string, limit: int)
      modifies this
      ensures Contents() == AfterSetLimit(old(Contents()), tenant, limit)
    {
      limits := limits[tenant := limit];
      if tenant !in tokens {
        tokens := tokens[tenant := limit as real];
      }
    }
  }

  // ---------- Runs ----------

  datatype Op = Allow(tenant: string, now: real) | SetLimit(tenant: string, limit: int)

  function Step(s: State, op: Op): State {
    match op
    case Allow(t, now) => AfterAllow(s, t, now)
    case SetLimit(t, limit) => AfterSetLimit(s, t, limit)
  }

  function Run(s: State, ops: seq<Op>): State {
    if ops == [] then s else Step(Run(s, ops[..|ops| - 1]), ops[|ops| - 1])
  }

  /** One `Allow` call of a tenant and the answer it got. */
  datatype Call = Call(at: real, admitted: bool)

  /** The calls of tenant `t` in a run over all tenants, oldest first. */
  function Calls(s: State, ops: seq<Op>, t: string): seq<Call> {
    if ops == [] then [] else
      var pre, op := ops[..|ops| - 1], ops[|ops| - 1];
      if op.Allow? && op.tenant == t
      then Calls(s, pre, t) + [Call(op.now, Admits(Run(s, pre), t, op.now))]
      else Calls(s, pre, t)
  }

  /** How many of the calls i, ..., j-1 were admitted. */
  function Admitted(cs: seq<Call>, i: nat, j: nat): nat
    requires j <= |cs|
  {
    if j <= i then 0 else Admitted(cs, i, j - 1) + if cs[j - 1].admitted then 1 else 0
  }

  /** The tenant's limit is never changed to anything but `limit`. */
  predicate FixedLimit(ops: seq<Op>, t: string, limit: int) {
    forall op :: op in ops && op.SetLimit? && op.tenant == t ==> op.limit == limit
  }

  predicate InOrder(cs: seq<Call>) {
    forall i, j :: 0 <= i < j < |cs| ==> cs[i].at <= cs[j].at
  }

  /** Which maps know a tenant. */
  predicate WellKeyed(s: State) {
    s.last.Keys <= s.tokens.Keys <= s.limits.Keys
  }

  /** The operations of one tenant, in order. */
  function Only(ops: seq<Op>, t: string): seq<Op> {
    if ops == [] then [] else
      var pre, op := ops[..|ops| - 1], ops[|ops| - 1];
      if op.tenant == t then Only(pre, t) + [op] else Only(pre, t)
  }
}
