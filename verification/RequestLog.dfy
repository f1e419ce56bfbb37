/** The pruned, trimmed, deleted and recreated histories, compared with the complete log of
    everything that ever happened. */
module RequestLog {
  import opened Common
  import opened RequestHistory
  import D = AbuseDetector

  datatype Event =
    | Touched(key: string)
    | Recorded(key: string, at: real, abusive: bool)
    | AuthFailed(key: string, at: real)
    | Cleaned(at: real)

  function Apply(s: Store, e: Event): Store {
    match e
    case Touched(key) => Touch(s, key)
    case Recorded(key, at, abusive) => Track(s, key, at, abusive)
    case AuthFailed(key, at) => Fail(s, key, at)
    case Cleaned(at) => Clean(s, at)
  }

  /** The store after a run that starts with an empty detector. */
  function StoreOf(es: seq<Event>): Store {
    if es == [] then map[] else Apply(StoreOf(es[..|es| - 1]), es[|es| - 1])
  }

  /** Every request of a source ever tracked. */
  function RequestsOf(es: seq<Event>, key: string): seq<real> {
    if es == [] then [] else
      var pre, e := es[..|es| - 1], es[|es| - 1];
      if e.Recorded? && e.key == key then RequestsOf(pre, key) + [e.at] else RequestsOf(pre, key)
  }

  /** Every failed authentication of a source ever tracked. */
  function FailuresOf(es: seq<Event>, key: string): seq<real> {
    if es == [] then [] else
      var pre, e := es[..|es| - 1], es[|es| - 1];
      if e.AuthFailed? && e.key == key then FailuresOf(pre, key) + [e.at] else FailuresOf(pre, key)
  }

  /** Every clock reading up to `now` is in order. */
  predicate InTime(es: seq<Event>, now: real) {
    es == [] ||
    var e := es[|es| - 1];
    if e.Touched? then InTime(es[..|es| - 1], now) else e.at <= now && InTime(es[..|es| - 1], e.at)
  }

  /** What a source's stored request list has lost: everything up to the horizon. Only the
      last track and any cleanup after it matter. */
  function Horizon(es: seq<Event>, key: string): real {
    if es == [] then 0.0 else
      var pre, e := es[..|es| - 1], es[|es| - 1];
      match e
      case Recorded(k, at, _) => if k == key then at - 60.0 else Horizon(pre, key)
      case Cleaned(at) => if at - 300.0 > Horizon(pre, key) then at - 300.0 else Horizon(pre, key)
      case _ => Horizon(pre, key)
  }

  function FailureHorizon(es: seq<Event>, key: string): real {
    if es == [] then 0.0 else
      var pre, e := es[..|es| - 1], es[|es| - 1];
      match e
      case AuthFailed(k, at) => if k == key then at - 60.0 else FailureHorizon(pre, key)
      case Cleaned(at) => if at - 300.0 > FailureHorizon(pre, key) then at - 300.0 else FailureHorizon(pre, key)
      case _ => FailureHorizon(pre, key)
  }

  lemma {:induction false} HorizonInPast(es: seq<Event>, key: string, now: real)
    requires InTime(es, now)
    ensures RequestsOf(es, key) == [] || Horizon(es, key) <= now - 60.0
    ensures FailuresOf(es, key) == [] || FailureHorizon(es, key) <= now - 60.0
  {
    if es != [] {
      var pre, e := es[..|es| - 1], es[|es| - 1];
      HorizonInPast(pre, key, if e.Touched? then now else e.at);
    }
  }

  ghost predicate StoresTail(stored: seq<real>, log: seq<real>, horizon: real) {
    stored == Recent(log, horizon)
  }

  /** Exactly what is stored after any run with a clock that never goes back: the tail of the
      complete log beyond the horizon, whatever was pruned, deleted or recreated meanwhile. */
  lemma {:induction false} StoredIsLogTail(es: seq<Event>, key: string, now: real)
    requires InTime(es, now)
    ensures StoresTail(Lookup(StoreOf(es), key).requests, RequestsOf(es, key), Horizon(es, key))
    ensures StoresTail(Lookup(StoreOf(es), key).failures, FailuresOf(es, key), FailureHorizon(es, key))
  {
    if es != [] {
      var pre, e := es[..|es| - 1], es[|es| - 1];
      var earlier := if e.Touched? then now else e.at;
      StoredIsLogTail(pre, key, earlier);
      HorizonInPast(pre, key, earlier);
      LookupAfter(StoreOf(pre), e, key);
      var h := Lookup(StoreOf(pre), key);
      TailAfter(h, RequestsOf(pre, key), Horizon(pre, key), FailuresOf(pre, key), FailureHorizon(pre, key), e);
    }
  }

  lemma TailAfter(h: History, requests: seq<real>, horizon: real, failures: seq<real>, failureHorizon: real, e: Event)
    requires StoresTail(h.requests, requests, horizon) && StoresTail(h.failures, failures, failureHorizon)
    requires e.Touched? || requests == [] || horizon <= e.at - 60.0
    requires e.Touched? || failures == [] || failureHorizon <= e.at - 60.0
    ensures e.Recorded? ==> StoresTail(Tracked(h, e.at, e.abusive).requests, requests + [e.at], e.at - 60.0)
    ensures e.AuthFailed? ==> StoresTail(Failed(h, e.at).failures, failures + [e.at], e.at - 60.0)
    ensures e.Cleaned? ==>
            && StoresTail(Trimmed(h, e.at).requests, requests,
                          if e.at - 300.0 > horizon then e.at - 300.0 else horizon)
            && StoresTail(Trimmed(h, e.at).failures, failures,
                          if e.at - 300.0 > failureHorizon then e.at - 300.0 else failureHorizon)
  {
    match e
    case Touched(_) =>
    case Recorded(_, at, _) => LogGrows(requests, h.requests, horizon, at);
    case AuthFailed(_, at) => LogGrows(failures, h.failures, failureHorizon, at);
    case Cleaned(at) =>
      LogTrimmed(requests, horizon, at - 300.0);
      LogTrimmed(failures, failureHorizon, at - 300.0);
  }

  /** What one event does to the lists found under one key, existing or not. */
  lemma LookupAfter(s: Store, e: Event, key: string)
    ensures var h, h' := Lookup(s, key), Lookup(Apply(s, e), key);
            match e
            case Touched(_) => h' == h
            case Recorded(k, at, abusive) => h' == if k == key then Tracked(h, at, abusive) else h
            case AuthFailed(k, at) => h' == if k == key then Failed(h, at) else h
            case Cleaned(at) => h'.requests == Trimmed(h, at).requests && h'.failures == Trimmed(h, at).failures
  {
  }

  lemma LogGrows(log: seq<real>, stored: seq<real>, horizon: real, at: real)
    requires stored == Recent(log, horizon) && (log == [] || horizon <= at - 60.0)
    ensures Recent(stored + [at], at - 60.0) == Recent(log + [at], at - 60.0)
  {
    RecentAppend(stored, at, at - 60.0);
    RecentAppend(log, at, at - 60.0);
    RecentTwice(log, horizon, at - 60.0, |log|);
  }

  lemma LogTrimmed(log: seq<real>, horizon: real, cutoff: real)
    ensures Recent(Recent(log, horizon), cutoff) == Recent(log, if cutoff > horizon then cutoff else horizon)
  {
    RecentTwice(log, horizon, cutoff, |log|);
  }

  /** The window counts the checks make are counts over the complete log. */
  lemma WindowCountIsLogCount(es: seq<Event>, key: string, now: real, span: real)
    requires InTime(es, now) && span <= 60.0
    ensures Recent(Lookup(StoreOf(es), key).requests, now - span) == Recent(RequestsOf(es, key), now - span)
    ensures Recent(Lookup(StoreOf(es), key).failures, now - span) == Recent(FailuresOf(es, key), now - span)
  {
    StoredIsLogTail(es, key, now);
    HorizonInPast(es, key, now);
    RecentTwice(RequestsOf(es, key), Horizon(es, key), now - span, |RequestsOf(es, key)|);
    RecentTwice(FailuresOf(es, key), FailureHorizon(es, key), now - span, |FailuresOf(es, key)|);
  }

  // ---------- What the checks see, in terms of the log ----------

  /** Each windowed check fires exactly on the complete log's count; the bot check's guard on
      the raw list length never matters. */
  lemma ChecksSeeTheLog(es: seq<Event>, key: string, ip: string, limits: D.Thresholds, now: real)
    requires InTime(es, now)
    ensures D.RateSignal(limits, Lookup(StoreOf(es), key), now).detected <==>
            |Recent(RequestsOf(es, key), now - 1.0)| > limits.maxRequestsPerSecond
    ensures D.VelocitySignal(limits, Lookup(StoreOf(es), key), now, ip).detected <==>
            |Recent(RequestsOf(es, key), now - 60.0)| > limits.velocity
    ensures D.BotSignal(Lookup(StoreOf(es), key), now).detected <==>
            |Recent(RequestsOf(es, key), now - 60.0)| > 50
  {
    WindowCountIsLogCount(es, key, now, 1.0);
    WindowCountIsLogCount(es, key, now, 60.0);
    BotCheckSeesTheLog(es, key, now);
  }

  lemma BotCheckSeesTheLog(es: seq<Event>, key: string, now: real)
    requires InTime(es, now)
    ensures D.BotFires(Lookup(StoreOf(es), key), now) <==> |Recent(RequestsOf(es, key), now - 60.0)| > 50
  {
    WindowCountIsLogCount(es, key, now, 60.0);
    RecentIsShorter(Lookup(StoreOf(es), key).requests, now - 60.0);
  }

  lemma RecentIsShorter(ts: seq<real>, cutoff: real)
    ensures |Recent(ts, cutoff)| <= |ts|
  {
    RecentMembers(ts, cutoff, |ts|);
  }

  /** The count a failed authentication returns is the log's count of the last minute. */
  lemma FailedAuthCountsTheLog(es: seq<Event>, key: string, now: real)
    requires InTime(es, now)
    ensures |Lookup(Fail(StoreOf(es), key, now), key).failures| ==
            |Recent(FailuresOf(es + [AuthFailed(key, now)], key), now - 60.0)|
  {
    StoredIsLogTail(es, key, now);
    HorizonInPast(es, key, now);
    Snoc(es, AuthFailed(key, now), key, now);
    LogGrows(FailuresOf(es, key), Lookup(StoreOf(es), key).failures, FailureHorizon(es, key), now);
  }

  // ---------- The method check counts the raw list ----------

  lemma {:induction false} LogAscends(es: seq<Event>, key: string, now: real)
    requires InTime(es, now)
    ensures Sorted(RequestsOf(es, key), now)
  {
    if es != [] {
      var e := es[|es| - 1];
      LogAscends(es[..|es| - 1], key, if e.Touched? then now else e.at);
    }
  }

  /** In an ordered list more than `k` entries are recent exactly when the one `k` from the end is. */
  lemma {:induction false} RecentFromEnd(ts: seq<real>, now: real, cutoff: real, n: nat, k: nat)
    requires Sorted(ts, now) && n <= |ts|
    ensures |RecentAmong(ts, cutoff, n)| > k <==> k < n && ts[n - 1 - k] > cutoff
  {
    if n > 0 {
      RecentFromEnd(ts, now, cutoff, n - 1, 0);
      if k > 0 {
        RecentFromEnd(ts, now, cutoff, n - 1, k - 1);
      }
    }
  }

  predicate UnusualVerb(verb: string) {
    verb == "HEAD" || verb == "OPTIONS" || verb == "TRACE"
  }

  /** The sixth last request of the source ever tracked lies in the given span of time. */
  predicate SixthLastIn(log: seq<real>, after: real, until: real) {
    |log| >= 6 && after < log[|log| - 6] <= until
  }

  /** The method check in terms of the complete log: it sees everything since the horizon. */
  lemma MethodCheckSeesHorizon(es: seq<Event>, key: string, now: real, verb: string)
    requires InTime(es, now)
    ensures D.MethodSignal(Lookup(StoreOf(es), key), verb).detected <==>
            UnusualVerb(verb) && SixthLastIn(RequestsOf(es, key), Horizon(es, key), now)
  {
    var log := RequestsOf(es, key);
    StoredIsLogTail(es, key, now);
    LogAscends(es, key, now);
    RecentFromEnd(log, now, Horizon(es, key), |log|, 5);
  }

  /** Its answer is wrong about the last minute, "more than 5 requests", exactly when the sixth
      last request is older than a minute and no later track or cleanup has pruned it. */
  lemma MethodCheckWrongIff(es: seq<Event>, key: string, now: real, verb: string)
    requires InTime(es, now)
    ensures (D.MethodSignal(Lookup(StoreOf(es), key), verb).detected
             <==> UnusualVerb(verb) && |Recent(RequestsOf(es, key), now - 60.0)| > 5)
            <==> !(UnusualVerb(verb) && SixthLastIn(RequestsOf(es, key), Horizon(es, key), now - 60.0))
  {
    var log := RequestsOf(es, key);
    MethodCheckSeesHorizon(es, key, now, verb);
    HorizonInPast(es, key, now);
    LogAscends(es, key, now);
    RecentFromEnd(log, now, now - 60.0, |log|, 5);
  }

  /** A cleanup at `at` changes the answer exactly when the sixth last request is still stored
      and at least five minutes old. */
  lemma CleanupChangesAnswerIff(es: seq<Event>, key: string, at: real, verb: string)
    requires InTime(es, at)
    ensures (D.MethodSignal(Lookup(StoreOf(es + [Cleaned(at)]), key), verb).detected
             <==> D.MethodSignal(Lookup(StoreOf(es), key), verb).detected)
            <==> !(UnusualVerb(verb) && SixthLastIn(RequestsOf(es, key), Horizon(es, key), at - 300.0))
  {
    MethodCheckSeesHorizon(es, key, at, verb);
    Snoc(es, Cleaned(at), key, at);
    MethodCheckSeesHorizon(es + [Cleaned(at)], key, at, verb);
    assert (es + [Cleaned(at)])[..|es|] == es;
  }

  /** A burst of requests of one source at one instant. */
  function Burst(key: string, at: real, n: nat): seq<Event> {
    if n == 0 then [] else Burst(key, at, n - 1) + [Recorded(key, at, false)]
  }

  lemma {:induction false} BurstLog(key: string, at: real, n: nat)
    ensures InTime(Burst(key, at, n), at) && |RequestsOf(Burst(key, at, n), key)| == n
    ensures forall i :: 0 <= i < n ==> RequestsOf(Burst(key, at, n), key)[i] == at
    ensures n > 0 ==> Horizon(Burst(key, at, n), key) == at - 60.0
  {
    if n > 0 {
      BurstLog(key, at, n - 1);
      Snoc(Burst(key, at, n - 1), Recorded(key, at, false), key, at);
    }
  }

  /** One more event. */
  lemma Snoc(es: seq<Event>, e: Event, key: string, now: real)
    ensures StoreOf(es + [e]) == Apply(StoreOf(es), e)
    ensures RequestsOf(es + [e], key) ==
            if e.Recorded? && e.key == key then RequestsOf(es, key) + [e.at] else RequestsOf(es, key)
    ensures FailuresOf(es + [e], key) ==
            if e.AuthFailed? && e.key == key then FailuresOf(es, key) + [e.at] else FailuresOf(es, key)
    ensures InTime(es + [e], now) <==> if e.Touched? then InTime(es, now) else e.at <= now && InTime(es, e.at)
  {
    assert (es + [e])[..|es|] == es;
  }

  /** Six requests at one instant make a HEAD request suspicious however much later it comes,
      unless a cleanup runs in between: the answer depends on housekeeping. */
  lemma CleanupChangesMethodCheck(key: string, at: real, later: real)
    requires at + 300.0 <= later
    ensures var burst := Burst(key, at, 6);
            && InTime(burst, later) && Recent(RequestsOf(burst, key), later - 60.0) == []
            && D.MethodSignal(Lookup(StoreOf(burst), key), "HEAD").detected
            && !D.MethodSignal(Lookup(StoreOf(burst + [Cleaned(later)]), key), "HEAD").detected
  {
    var burst := Burst(key, at, 6);
    BurstLog(key, at, 6);
    InTimeLater(burst, at, later);
    MethodCheckSeesHorizon(burst, key, later, "HEAD");
    CleanupChangesAnswerIff(burst, key, later, "HEAD");
    RecentMembers(RequestsOf(burst, key), later - 60.0, 6);
  }

  lemma {:induction false} InTimeLater(es: seq<Event>, now: real, later: real)
    requires InTime(es, now) && now <= later
    ensures InTime(es, later)
  {
    if es != [] && es[|es| - 1].Touched? {
      InTimeLater(es[..|es| - 1], now, later);
    }
  }

  // ---------- Which histories exist ----------

  /** Some entry of the log beyond the horizon is later than `cutoff`. */
  predicate SomeLater(log: seq<real>, horizon: real, cutoff: real) {
    exists t :: t in log && horizon < t && cutoff < t
  }

  /** A cleanup keeps a history exactly when the source had one and a stored request or failure
      of it is younger than five minutes; whatever else it holds does not save it. */
  lemma CleanupKeepsIff(es: seq<Event>, key: string, at: real)
    requires InTime(es, at)
    ensures key in StoreOf(es + [Cleaned(at)]) <==>
            && key in StoreOf(es)
            && (SomeLater(RequestsOf(es, key), Horizon(es, key), at - 300.0)
                || SomeLater(FailuresOf(es, key), FailureHorizon(es, key), at - 300.0))
  {
    Snoc(es, Cleaned(at), key, at);
    StoredIsLogTail(es, key, at);
    var h := Lookup(StoreOf(es), key);
    KeptIfLater(h.requests, RequestsOf(es, key), Horizon(es, key), at - 300.0);
    KeptIfLater(h.failures, FailuresOf(es, key), FailureHorizon(es, key), at - 300.0);
  }

  lemma KeptIfLater(stored: seq<real>, log: seq<real>, horizon: real, cutoff: real)
    requires StoresTail(stored, log, horizon)
    ensures Recent(stored, cutoff) != [] <==> SomeLater(log, horizon, cutoff)
  {
    var later := if cutoff > horizon then cutoff else horizon;
    LogTrimmed(log, horizon, cutoff);
    RecentIsWhatIsLater(log, later, |log|);
    assert log[..|log|] == log;
    if Recent(log, later) != [] {
      var t := Recent(log, later)[0];
      assert t in Recent(log, later);
      assert t in log && later < t;
    }
  }

  lemma {:induction false} RecentIsWhatIsLater(ts: seq<real>, cutoff: real, n: nat)
    requires n <= |ts|
    ensures forall t :: t in RecentAmong(ts, cutoff, n) <==> t in ts[..n] && t > cutoff
  {
    if n > 0 {
      RecentIsWhatIsLater(ts, cutoff, n - 1);
      assert ts[..n] == ts[..n - 1] + [ts[n - 1]];
    }
  }

  /** Nothing but a cleanup removes a history, and only fetching one makes it. */
  lemma OthersKeepHistories(es: seq<Event>, e: Event, key: string)
    requires !e.Cleaned?
    ensures key in StoreOf(es + [e]) <==> key in StoreOf(es) || e.key == key
  {
    Snoc(es, e, key, 0.0);
  }

  /** When the source was last tracked, if its history was not deleted since. */
  function LastTracked(es: seq<Event>, key: string): Option<real> {
    if es == [] then None else
      var pre, e := es[..|es| - 1], es[|es| - 1];
      if e.Recorded? && e.key == key then Some(e.at)
      else if key in StoreOf(es) then LastTracked(pre, key)
      else None
  }

  /** The time of the last request survives pruning, and goes only with the history. */
  lemma {:induction false} LastRequestIsLastTracked(es: seq<Event>, key: string)
    ensures Lookup(StoreOf(es), key).lastRequest == LastTracked(es, key)
  {
    if es != [] {
      LastRequestIsLastTracked(es[..|es| - 1], key);
    }
  }

  // ---------- Suspicious counts ----------

  /** How many of the events i, ..., j-1 are detected requests of the source. */
  function AbusiveBetween(es: seq<Event>, i: nat, j: nat, key: string): nat
    requires j <= |es|
  {
    if j <= i then 0 else
      AbusiveBetween(es, i, j - 1, key)
      + if es[j - 1].Recorded? && es[j - 1].key == key && es[j - 1].abusive then 1 else 0
  }

  /** The source has a history after the first `n` events. */
  predicate Exists(es: seq<Event>, key: string, n: nat)
    requires n <= |es|
  {
    key in StoreOf(es[..n])
  }

  /** A surviving history counts its detected requests since it was last created. */
  lemma {:induction false} SuspiciousCountsSinceCreation(es: seq<Event>, key: string, birth: nat, n: nat)
    requires birth < n <= |es|
    requires !Exists(es, key, birth) && forall j: nat :: birth < j <= n ==> Exists(es, key, j)
    ensures Exists(es, key, n) && Lookup(StoreOf(es[..n]), key).suspicious == AbusiveBetween(es, birth, n, key)
  {
    assert Exists(es, key, n);
    SuspiciousStep(es, key, n - 1);
    if n - 1 > birth {
      SuspiciousCountsSinceCreation(es, key, birth, n - 1);
    }
  }

  lemma SuspiciousStep(es: seq<Event>, key: string, i: nat)
    requires i < |es| && key in StoreOf(es[..i + 1])
    ensures Lookup(StoreOf(es[..i + 1]), key).suspicious == Lookup(StoreOf(es[..i]), key).suspicious
            + if es[i].Recorded? && es[i].key == key && es[i].abusive then 1 else 0
  {
    assert es[..i + 1] == es[..i] + [es[i]];
    Snoc(es[..i], es[i], key, 0.0);
    SuspiciousAfter(StoreOf(es[..i]), es[i], key);
  }

  lemma SuspiciousAfter(s: Store, e: Event, key: string)
    requires key in Apply(s, e)
    ensures Apply(s, e)[key].suspicious ==
            Lookup(s, key).suspicious + if e.Recorded? && e.key == key && e.abusive then 1 else 0
  {
  }
}
