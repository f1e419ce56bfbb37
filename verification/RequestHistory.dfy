/** The request histories of cmd/edge-service/abuse.go as values, and what each
    operation of the detector does to them. */
module RequestHistory {
  import opened Common

  /** One source's record; times in seconds. */
  datatype History = History(requests: seq<real>, failures: seq<real>, suspicious: nat, lastRequest: Option<real>)

  type Store = map<string, History>

  const NEW_HISTORY := History([], [], 0, None)

  /** The entries among the first `n` that lie strictly after `cutoff`, in order. */
  function RecentAmong(ts: seq<real>, cutoff: real, n: nat): seq<real>
    requires n <= |ts|
  {
    if n == 0 then []
    else if ts[n - 1] > cutoff then RecentAmong(ts, cutoff, n - 1) + [ts[n - 1]]
    else RecentAmong(ts, cutoff, n - 1)
  }

  /** The entries strictly after `cutoff`, in order. */
  function Recent(ts: seq<real>, cutoff: real): seq<real> {
    RecentAmong(ts, cutoff, |ts|)
  }

  function Lookup(s: Store, key: string): History {
    if key in s then s[key] else NEW_HISTORY
  }

  /** Fetching a history creates it. */
  function Touch(s: Store, key: string): Store {
    s[key := Lookup(s, key)]
  }

  function Tracked(h: History, now: real, abusive: bool): History {
    History(Recent(h.requests + [now], now - 60.0), h.failures,
            if abusive then h.suspicious + 1 else h.suspicious, Some(now))
  }

  function Track(s: Store, key: string, now: real, abusive: bool): Store {
    s[key := Tracked(Lookup(s, key), now, abusive)]
  }

  function Failed(h: History, now: real): History {
    h.(failures := Recent(h.failures + [now], now - 60.0))
  }

  function Fail(s: Store, key: string, now: real): Store {
    s[key := Failed(Lookup(s, key), now)]
  }

  function Trimmed(h: History, now: real): History {
    h.(requests := Recent(h.requests, now - 300.0), failures := Recent(h.failures, now - 300.0))
  }

  predicate Survives(h: History, now: real) {
    Trimmed(h, now).requests != [] || Trimmed(h, now).failures != []
  }

  function Clean(s: Store, now: real): Store {
    map key | key in s && Survives(s[key], now) :: Trimmed(s[key], now)
  }

  /** The loop every window check and every pruning step runs. */
  method KeepAfter(ts: seq<real>, cutoff: real) returns (valid: seq<real>)
    ensures valid == Recent(ts, cutoff)
  {
    valid := [];
    for i := 0 to |ts|
      invariant valid == RecentAmong(ts, cutoff, i)
    {
      if ts[i] > cutoff {
        valid := valid + [ts[i]];
      }
    }
  }

  /** The counting form of the same loop. */
  method CountAfter(ts: seq<real>, cutoff: real) returns (count: nat)
    ensures count == |Recent(ts, cutoff)|
  {
    count := 0;
    for i := 0 to |ts|
      invariant count == |RecentAmong(ts, cutoff, i)|
    {
      if ts[i] > cutoff {
        count := count + 1;
      }
    }
  }

  /** Times in order, none after `now`. */
  predicate Sorted(ts: seq<real>, now: real) {
    && (forall i, j :: 0 <= i < j < |ts| ==> ts[i] <= ts[j])
    && (forall i :: 0 <= i < |ts| ==> ts[i] <= now)
  }

  // ---------- Facts about pruning ----------

  lemma {:induction false} RecentPrefix(ts: seq<real>, t: real, cutoff: real, n: nat)
    requires n <= |ts|
    ensures RecentAmong(ts + [t], cutoff, n) == RecentAmong(ts, cutoff, n)
  {
    if n > 0 {
      RecentPrefix(ts, t, cutoff, n - 1);
    }
  }

  lemma RecentAppend(ts: seq<real>, t: real, cutoff: real)
    ensures Recent(ts + [t], cutoff) == if t > cutoff then Recent(ts, cutoff) + [t] else Recent(ts, cutoff)
  {
    RecentPrefix(ts, t, cutoff, |ts|);
  }

  /** Pruning twice is pruning once at the later cutoff. */
  lemma {:induction false} RecentTwice(ts: seq<real>, first: real, second: real, n: nat)
    requires n <= |ts|
    ensures Recent(RecentAmong(ts, first, n), second) == RecentAmong(ts, if first <= second then second else first, n)
  {
    if n > 0 {
      var kept, t := RecentAmong(ts, first, n - 1), ts[n - 1];
      RecentTwice(ts, first, second, n - 1);
      if t > first {
        RecentAppend(kept, t, second);
        assert Recent(RecentAmong(ts, first, n), second)
            == if t > second then Recent(kept, second) + [t] else Recent(kept, second);
      } else {
        assert RecentAmong(ts, first, n) == kept;
      }
    }
  }

  lemma {:induction false} RecentMembers(ts: seq<real>, cutoff: real, n: nat)
    requires n <= |ts|
    ensures |RecentAmong(ts, cutoff, n)| <= n
    ensures forall t :: t in RecentAmong(ts, cutoff, n) ==> t in ts && t > cutoff
    ensures |RecentAmong(ts, cutoff, n)| == n <==> forall i :: 0 <= i < n ==> ts[i] > cutoff
    ensures (forall i :: 0 <= i < n ==> ts[i] <= cutoff) ==> RecentAmong(ts, cutoff, n) == []
  {
    if n > 0 {
      RecentMembers(ts, cutoff, n - 1);
    }
  }
}
