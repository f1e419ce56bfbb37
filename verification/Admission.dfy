/** How many requests of one source the detector lets through, with handlers running side by
    side: each handler looks at the history in its last check and tracks its request later,
    and other handlers, failed logins and cleanups may come in between. */
module Admission {
  import opened Common
  import opened RequestHistory
  import opened RequestLog
  import D = AbuseDetector

  /** A handler that has run its checks and not yet tracked its request. */
  datatype Handler = Handler(key: string, abusive: bool)

  datatype Step =
    | Checked(id: nat, key: string, now: real, flagged: bool) // the bot check; flagged: another check fired
    | Finished(id: nat, now: real)
    | Other(e: Event)

  datatype System = System(events: seq<Event>, pending: map<nat, Handler>, now: real)

  function Start(now: real): System {
    System([], map[], now)
  }

  predicate Possible(s: System, step: Step) {
    match step
    case Checked(id, _, now, _) => s.now <= now && id !in s.pending
    case Finished(id, now) => s.now <= now && id in s.pending
    case Other(e) => !e.Recorded? && (!e.Touched? ==> s.now <= e.at)
  }

  function Take(s: System, step: Step): System
    requires Possible(s, step)
  {
    match step
    case Checked(id, key, now, flagged) =>
      var fired := D.BotFires(Lookup(StoreOf(s.events), key), now);
      System(s.events + [Touched(key)], s.pending[id := Handler(key, flagged || fired)], now)
    case Finished(id, now) =>
      System(s.events + [Recorded(s.pending[id].key, now, s.pending[id].abusive)], s.pending - {id}, now)
    case Other(e) =>
      System(s.events + [e], s.pending, if e.Touched? then s.now else e.at)
  }

  /** The state after a run of steps; None when some step was not possible. */
  function RunOf(s: System, steps: seq<Step>): Option<System> {
    if steps == [] then Some(s) else
      var before, step := RunOf(s, steps[..|steps| - 1]), steps[|steps| - 1];
      if before.Some? && Possible(before.value, step) then Some(Take(before.value, step)) else None
  }

  /** Handlers of the source that passed every check and are about to track. */
  function PassedInFlight(s: System, key: string): set<nat> {
    set id | id in s.pending && s.pending[id] == Handler(key, false)
  }

  /** Requests of the source that were let through and tracked in [from, to). */
  function AdmittedIn(es: seq<Event>, key: string, from: real, to: real): nat {
    if es == [] then 0 else
      var e := es[|es| - 1];
      AdmittedIn(es[..|es| - 1], key, from, to)
      + if e.Recorded? && e.key == key && !e.abusive && from <= e.at < to then 1 else 0
  }

  lemma AdmittedSnoc(es: seq<Event>, e: Event, key: string, from: real, to: real)
    ensures AdmittedIn(es + [e], key, from, to) ==
            AdmittedIn(es, key, from, to)
            + if e.Recorded? && e.key == key && !e.abusive && from <= e.at < to then 1 else 0
  {
    assert (es + [e])[..|es|] == es;
  }

  lemma {:induction false} AdmittedAreRecent(es: seq<Event>, key: string, from: real, to: real, cutoff: real)
    requires cutoff < from
    ensures AdmittedIn(es, key, from, to) <= |Recent(RequestsOf(es, key), cutoff)|
  {
    if es != [] {
      var pre, e := es[..|es| - 1], es[|es| - 1];
      AdmittedAreRecent(pre, key, from, to, cutoff);
      if e.Recorded? && e.key == key {
        RecentAppend(RequestsOf(pre, key), e.at, cutoff);
      }
    }
  }

  /** Until the window closes, what it holds and what may still enter it stay within 50 + k. */
  ghost predicate WindowBounded(s: System, key: string, from: real, k: nat) {
    && InTime(s.events, s.now)
    && AdmittedIn(s.events, key, from, from + 60.0)
       + (if s.now < from + 60.0 then |PassedInFlight(s, key)| else 0) <= 50 + k
  }

  lemma CheckKeepsBound(s: System, id: nat, key': string, now: real, flagged: bool, key: string, from: real, k: nat)
    requires Possible(s, Checked(id, key', now, flagged)) && WindowBounded(s, key, from, k)
    requires |PassedInFlight(Take(s, Checked(id, key', now, flagged)), key)| <= k
    ensures WindowBounded(Take(s, Checked(id, key', now, flagged)), key, from, k)
  {
    var s' := Take(s, Checked(id, key', now, flagged));
    AdmittedSnoc(s.events, Touched(key'), key, from, from + 60.0);
    Snoc(s.events, Touched(key'), key, now);
    InTimeLater(s.events, s.now, now);
    if s'.pending[id] != Handler(key, false) {
      assert PassedInFlight(s', key) == PassedInFlight(s, key);
    } else if now < from + 60.0 {
      BotCheckSeesTheLog(s.events, key, now);
      AdmittedAreRecent(s.events, key, from, from + 60.0, now - 60.0);
    }
  }

  lemma FinishKeepsBound(s: System, id: nat, now: real, key: string, from: real, k: nat)
    requires Possible(s, Finished(id, now)) && WindowBounded(s, key, from, k)
    ensures WindowBounded(Take(s, Finished(id, now)), key, from, k)
  {
    var s' := Take(s, Finished(id, now));
    var e := Recorded(s.pending[id].key, now, s.pending[id].abusive);
    AdmittedSnoc(s.events, e, key, from, from + 60.0);
    Snoc(s.events, e, key, s'.now);
    InTimeLater(s.events, s.now, now);
    if s.pending[id] == Handler(key, false) {
      assert PassedInFlight(s, key) == PassedInFlight(s', key) + {id};
    } else {
      assert PassedInFlight(s, key) == PassedInFlight(s', key);
    }
  }

  lemma TakeKeepsBound(s: System, step: Step, key: string, from: real, k: nat)
    requires Possible(s, step) && WindowBounded(s, key, from, k)
    requires |PassedInFlight(Take(s, step), key)| <= k
    ensures WindowBounded(Take(s, step), key, from, k)
  {
    match step
    case Checked(id, key', now, flagged) => CheckKeepsBound(s, id, key', now, flagged, key, from, k);
    case Finished(id, now) => FinishKeepsBound(s, id, now, key, from, k);
    case Other(e) =>
      var s' := Take(s, step);
      AdmittedSnoc(s.events, e, key, from, from + 60.0);
      Snoc(s.events, e, key, s'.now);
      InTimeLater(s.events, s.now, s'.now);
      assert PassedInFlight(s, key) == PassedInFlight(s', key);
  }

  /** At every moment of the run at most `k` passed handlers of the source are in flight. */
  ghost predicate InFlightWithin(s: System, steps: seq<Step>, key: string, k: nat)
    requires RunOf(s, steps).Some?
  {
    && |PassedInFlight(RunOf(s, steps).value, key)| <= k
    && (steps != [] ==> InFlightWithin(s, steps[..|steps| - 1], key, k))
  }

  /** With never more than `k` passed handlers of a source between check and track, no
      half-open minute sees more than 50 + k of its requests let through. */
  lemma {:induction false} ConcurrentAdmissionBound(start: real, steps: seq<Step>, key: string, from: real, k: nat)
    requires RunOf(Start(start), steps).Some? && InFlightWithin(Start(start), steps, key, k)
    ensures WindowBounded(RunOf(Start(start), steps).value, key, from, k)
    ensures AdmittedIn(RunOf(Start(start), steps).value.events, key, from, from + 60.0) <= 50 + k
  {
    if steps == [] {
      assert PassedInFlight(Start(start), key) == {};
    } else {
      var pre, last := steps[..|steps| - 1], steps[|steps| - 1];
      ConcurrentAdmissionBound(start, pre, key, from, k);
      TakeKeepsBound(RunOf(Start(start), pre).value, last, key, from, k);
    }
  }

  // ---------- One request at a time ----------

  /** A whole `Detect` call, or anything else that happens between two of them. */
  datatype Serial =
    | Request(key: string, bot: real, track: real, flagged: bool)
    | Between(e: Event)

  function StepsOf(x: Serial): seq<Step> {
    match x
    case Request(key, bot, track, flagged) => [Checked(0, key, bot, flagged), Finished(0, track)]
    case Between(e) => [Other(e)]
  }

  function Unfold(xs: seq<Serial>): seq<Step> {
    if xs == [] then [] else Unfold(xs[..|xs| - 1]) + StepsOf(xs[|xs| - 1])
  }

  predicate SerialClock(xs: seq<Serial>, start: real, now: real) {
    if xs == [] then start <= now else
      match xs[|xs| - 1]
      case Request(_, bot, track, _) => bot <= track <= now && SerialClock(xs[..|xs| - 1], start, bot)
      case Between(e) =>
        !e.Recorded? && if e.Touched? then SerialClock(xs[..|xs| - 1], start, now)
                        else e.at <= now && SerialClock(xs[..|xs| - 1], start, e.at)
  }

  /** What a sequential run leaves behind: nothing in flight, the clock not ahead of `now`. */
  ghost predicate Quiescent(s: Option<System>, now: real) {
    s.Some? && s.value.pending == map[] && s.value.now <= now
  }

  lemma RunSnoc(s: System, steps: seq<Step>, step: Step, key: string, k: nat)
    ensures RunOf(s, steps + [step]) ==
            var before := RunOf(s, steps);
            if before.Some? && Possible(before.value, step) then Some(Take(before.value, step)) else None
    ensures RunOf(s, steps + [step]).Some? ==>
            (InFlightWithin(s, steps + [step], key, k) <==>
             InFlightWithin(s, steps, key, k) && |PassedInFlight(RunOf(s, steps + [step]).value, key)| <= k)
  {
    assert (steps + [step])[..|steps|] == steps;
  }

  lemma RunTwo(s: System, steps: seq<Step>, a: Step, b: Step, before: System)
    requires RunOf(s, steps) == Some(before) && Possible(before, a) && Possible(Take(before, a), b)
    ensures RunOf(s, steps + [a] + [b]) == Some(Take(Take(before, a), b))
  {
    assert (steps + [a])[..|steps|] == steps;
    assert (steps + [a] + [b])[..|steps| + 1] == steps + [a];
  }

  /** Checking and finishing with nobody else in flight. */
  lemma TakeRequest(sys: System, x: Serial)
    requires x.Request? && sys.pending == map[] && sys.now <= x.bot <= x.track
    ensures var check, finish := Checked(0, x.key, x.bot, x.flagged), Finished(0, x.track);
            var abusive := x.flagged || D.BotFires(Lookup(StoreOf(sys.events), x.key), x.bot);
            && Possible(sys, check) && Possible(Take(sys, check), finish)
            && Take(sys, check).pending.Keys == {0}
            && Take(Take(sys, check), finish)
               == System(sys.events + [Touched(x.key)] + [Recorded(x.key, x.track, abusive)], map[], x.track)
  {
    var abusive := x.flagged || D.BotFires(Lookup(StoreOf(sys.events), x.key), x.bot);
    var mid := Take(sys, Checked(0, x.key, x.bot, x.flagged));
    assert mid.pending == map[0 := Handler(x.key, abusive)];
    assert mid.pending - {0} == map[];
  }

  lemma SerialRequest(s: System, steps: seq<Step>, x: Serial, key: string)
    requires x.Request? && x.bot <= x.track && Quiescent(RunOf(s, steps), x.bot) && InFlightWithin(s, steps, key, 1)
    ensures Quiescent(RunOf(s, steps + StepsOf(x)), x.track) && InFlightWithin(s, steps + StepsOf(x), key, 1)
  {
    var check, finish := Checked(0, x.key, x.bot, x.flagged), Finished(0, x.track);
    var before := RunOf(s, steps).value;
    TakeRequest(before, x);
    OnePending(Take(before, check), key);
    NobodyPending(Take(Take(before, check), finish), key);
    Extends(s, steps, check, key);
    Extends(s, steps + [check], finish, key);
    assert steps + StepsOf(x) == steps + [check] + [finish];
  }

  lemma Extends(s: System, steps: seq<Step>, step: Step, key: string)
    requires RunOf(s, steps).Some? && Possible(RunOf(s, steps).value, step) && InFlightWithin(s, steps, key, 1)
    requires |PassedInFlight(Take(RunOf(s, steps).value, step), key)| <= 1
    ensures RunOf(s, steps + [step]) == Some(Take(RunOf(s, steps).value, step))
    ensures InFlightWithin(s, steps + [step], key, 1)
  {
    RunSnoc(s, steps, step, key, 1);
  }

  lemma OnePending(s: System, key: string)
    requires s.pending.Keys == {0}
    ensures |PassedInFlight(s, key)| <= 1
  {
    assert PassedInFlight(s, key) <= {0};
    SubsetOfOne(PassedInFlight(s, key));
  }

  lemma SerialBetween(s: System, steps: seq<Step>, e: Event, now: real, key: string)
    requires !e.Recorded? && Quiescent(RunOf(s, steps), if e.Touched? then now else e.at)
    requires (e.Touched? || e.at <= now) && InFlightWithin(s, steps, key, 1)
    ensures Quiescent(RunOf(s, steps + StepsOf(Between(e))), now)
    ensures InFlightWithin(s, steps + StepsOf(Between(e)), key, 1)
  {
    var before := RunOf(s, steps).value;
    assert StepsOf(Between(e)) == [Other(e)] && Possible(before, Other(e));
    RunSnoc(s, steps, Other(e), key, 1);
    NobodyPending(Take(before, Other(e)), key);
  }

  lemma NobodyPending(s: System, key: string)
    requires s.pending == map[]
    ensures PassedInFlight(s, key) == {}
  {
  }

  lemma {:induction false} SerialRun(xs: seq<Serial>, start: real, now: real, key: string)
    requires SerialClock(xs, start, now)
    ensures Quiescent(RunOf(Start(start), Unfold(xs)), now)
    ensures InFlightWithin(Start(start), Unfold(xs), key, 1)
  {
    if xs == [] {
      assert PassedInFlight(Start(start), key) == {};
    } else {
      var pre, x := xs[..|xs| - 1], xs[|xs| - 1];
      match x
      case Request(_, bot, _, _) =>
        SerialRun(pre, start, bot, key);
        SerialRequest(Start(start), Unfold(pre), x, key);
      case Between(e) =>
        SerialRun(pre, start, if e.Touched? then now else e.at, key);
        SerialBetween(Start(start), Unfold(pre), e, now, key);
    }
  }

  lemma SubsetOfOne(ids: set<nat>)
    requires ids <= {0}
    ensures |ids| <= 1
  {
    if 0 in ids {
      assert ids == {0};
    } else {
      assert ids == {};
    }
  }

  /** One request at a time: no half-open minute sees more than 51 requests of one source let
      through, whatever else the detector does in between. */
  lemma SequentialAdmissionBound(xs: seq<Serial>, start: real, now: real, key: string, from: real)
    requires SerialClock(xs, start, now)
    ensures RunOf(Start(start), Unfold(xs)).Some?
    ensures AdmittedIn(RunOf(Start(start), Unfold(xs)).value.events, key, from, from + 60.0) <= 51
  {
    SerialRun(xs, start, now, key);
    ConcurrentAdmissionBound(start, Unfold(xs), key, from, 1);
  }

  // ---------- The bound is attained ----------

  /** 0, ..., n-1 */
  function Ids(n: nat): set<nat> {
    if n == 0 then {} else Ids(n - 1) + {n - 1}
  }

  lemma {:induction false} IdsBelow(n: nat)
    ensures forall id: nat :: id in Ids(n) <==> id < n
    ensures |Ids(n)| == n
  {
    if n > 0 {
      IdsBelow(n - 1);
      assert n - 1 !in Ids(n - 1);
    }
  }

  /** The handlers that checked and did not finish yet. */
  function Waiting(checks: nat, done: nat): set<nat> {
    Ids(checks) - Ids(done)
  }

  lemma WaitingFacts(checks: nat, done: nat)
    requires done <= checks
    ensures |Waiting(checks, done)| <= checks && Waiting(done, done) == {} && Waiting(checks, 0) == Ids(checks)
    ensures checks !in Ids(checks) && Ids(checks) + {checks} == Ids(checks + 1)
    ensures done < checks ==>
              done in Waiting(checks, done) && Waiting(checks, done) - {done} == Waiting(checks, done + 1)
  {
    IdsBelow(checks);
    IdsBelow(done);
    IdsBelow(done + 1);
    SubsetSize(Waiting(checks, done), Ids(checks));
  }

  lemma OneMoreWaits(checks: nat)
    ensures checks !in Waiting(checks, 0) && Waiting(checks, 0) + {checks} == Waiting(checks + 1, 0)
    ensures |Waiting(checks, 0) + {checks}| <= checks + 1
  {
    WaitingFacts(checks, 0);
    WaitingFacts(checks + 1, 0);
  }

  lemma OneFewerWaits(checks: nat, done: nat)
    requires done < checks
    ensures done in Waiting(checks, done) && Waiting(checks, done) - {done} == Waiting(checks, done + 1)
    ensures |Waiting(checks, done) - {done}| <= checks
  {
    WaitingFacts(checks, done);
    WaitingFacts(checks, done + 1);
  }

  lemma {:induction false} SubsetSize(a: set<nat>, b: set<nat>)
    requires a <= b
    ensures |a| <= |b|
  {
    if x :| x in a {
      SubsetSize(a - {x}, b - {x});
    }
  }

  /** At time 0: `tracked` requests of the source tracked, all let through, and the handlers
      in `waiting` past their checks. */
  ghost predicate Crowd(s: System, key: string, tracked: nat, waiting: set<nat>) {
    && s.now == 0.0 && InTime(s.events, 0.0)
    && AdmittedIn(s.events, key, 0.0, 60.0) == |RequestsOf(s.events, key)| == tracked
    && s.pending.Keys == waiting && (forall id :: id in waiting ==> s.pending[id] == Handler(key, false))
  }

  lemma CrowdChecks(s: System, key: string, tracked: nat, waiting: set<nat>, id: nat)
    requires Crowd(s, key, tracked, waiting) && tracked <= 50 && id !in waiting
    ensures Possible(s, Checked(id, key, 0.0, false))
    ensures Crowd(Take(s, Checked(id, key, 0.0, false)), key, tracked, waiting + {id})
  {
    CrowdPasses(s.events, key, tracked);
  }

  lemma CrowdFinishes(s: System, key: string, tracked: nat, waiting: set<nat>, id: nat)
    requires Crowd(s, key, tracked, waiting) && id in waiting
    ensures Possible(s, Finished(id, 0.0))
    ensures Crowd(Take(s, Finished(id, 0.0)), key, tracked + 1, waiting - {id})
  {
    var e := Recorded(key, 0.0, false);
    Snoc(s.events, e, key, 0.0);
    AdmittedSnoc(s.events, e, key, 0.0, 60.0);
  }

  lemma CrowdInFlight(s: System, key: string, tracked: nat, waiting: set<nat>)
    requires Crowd(s, key, tracked, waiting)
    ensures PassedInFlight(s, key) == waiting
  {
  }

  /** Up to 50 tracked requests the bot check stays silent, and looking changes nothing. */
  lemma CrowdPasses(es: seq<Event>, key: string, tracked: nat)
    requires InTime(es, 0.0) && |RequestsOf(es, key)| == tracked <= 50
    ensures !D.BotFires(Lookup(StoreOf(es), key), 0.0)
    ensures InTime(es + [Touched(key)], 0.0) && RequestsOf(es + [Touched(key)], key) == RequestsOf(es, key)
    ensures AdmittedIn(es + [Touched(key)], key, 0.0, 60.0) == AdmittedIn(es, key, 0.0, 60.0)
  {
    BotCheckSeesTheLog(es, key, 0.0);
    RecentIsShorter(RequestsOf(es, key), -60.0);
    Snoc(es, Touched(key), key, 0.0);
    AdmittedSnoc(es, Touched(key), key, 0.0, 60.0);
  }

  ghost predicate CrowdRun(steps: seq<Step>, key: string, tracked: nat, waiting: set<nat>, k: nat) {
    var o := RunOf(Start(0.0), steps);
    o.Some? && Crowd(o.value, key, tracked, waiting) && InFlightWithin(Start(0.0), steps, key, k)
  }

  lemma CrowdExtends(steps: seq<Step>, step: Step, key: string, tracked: nat, waiting: set<nat>, k: nat)
    requires RunOf(Start(0.0), steps).Some? && InFlightWithin(Start(0.0), steps, key, k)
    requires var s := RunOf(Start(0.0), steps).value;
             Possible(s, step) && Crowd(Take(s, step), key, tracked, waiting) && |waiting| <= k
    ensures CrowdRun(steps + [step], key, tracked, waiting, k)
  {
    CrowdInFlight(Take(RunOf(Start(0.0), steps).value, step), key, tracked, waiting);
    RunSnoc(Start(0.0), steps, step, key, k);
  }

  lemma CrowdRunChecks(steps: seq<Step>, key: string, tracked: nat, waiting: set<nat>, id: nat, k: nat)
    requires CrowdRun(steps, key, tracked, waiting, k) && tracked <= 50 && id !in waiting && |waiting + {id}| <= k
    ensures CrowdRun(steps + [Checked(id, key, 0.0, false)], key, tracked, waiting + {id}, k)
  {
    CrowdChecks(RunOf(Start(0.0), steps).value, key, tracked, waiting, id);
    CrowdExtends(steps, Checked(id, key, 0.0, false), key, tracked, waiting + {id}, k);
  }

  lemma CrowdRunFinishes(steps: seq<Step>, key: string, tracked: nat, waiting: set<nat>, id: nat, k: nat)
    requires CrowdRun(steps, key, tracked, waiting, k) && id in waiting && |waiting - {id}| <= k
    ensures CrowdRun(steps + [Finished(id, 0.0)], key, tracked + 1, waiting - {id}, k)
  {
    CrowdFinishes(RunOf(Start(0.0), steps).value, key, tracked, waiting, id);
    CrowdExtends(steps, Finished(id, 0.0), key, tracked + 1, waiting - {id}, k);
  }

  lemma NextChecks(steps: seq<Step>, key: string, tracked: nat, checks: nat, k: nat)
    requires CrowdRun(steps, key, tracked, Waiting(checks, 0), k) && tracked <= 50 && checks < k
    ensures CrowdRun(steps + [Checked(checks, key, 0.0, false)], key, tracked, Waiting(checks + 1, 0), k)
  {
    OneMoreWaits(checks);
    CrowdRunChecks(steps, key, tracked, Waiting(checks, 0), checks, k);
  }

  lemma NextFinishes(steps: seq<Step>, key: string, tracked: nat, checks: nat, done: nat, k: nat)
    requires CrowdRun(steps, key, tracked, Waiting(checks, done), k) && done < checks <= k
    ensures CrowdRun(steps + [Finished(done, 0.0)], key, tracked + 1, Waiting(checks, done + 1), k)
  {
    OneFewerWaits(checks, done);
    CrowdRunFinishes(steps, key, tracked, Waiting(checks, done), done, k);
  }

  /** `n` requests one after the other, then `checks` handlers checking, then `done` of them tracking. */
  lemma {:induction false} CrowdGrows(key: string, n: nat, checks: nat, done: nat, k: nat) returns (steps: seq<Step>)
    requires done <= checks <= k && 1 <= k && n <= 50
    ensures CrowdRun(steps, key, n + done, Waiting(checks, done), k)
    decreases n, checks, done
  {
    if done > 0 {
      var before := CrowdGrows(key, n, checks, done - 1, k);
      NextFinishes(before, key, n + done - 1, checks, done - 1, k);
      steps := before + [Finished(done - 1, 0.0)];
    } else if checks > 0 {
      var before := CrowdGrows(key, n, checks - 1, 0, k);
      NextChecks(before, key, n, checks - 1, k);
      steps := before + [Checked(checks - 1, key, 0.0, false)];
    } else if n > 0 {
      steps := CrowdGrows(key, n - 1, 1, 1, k);
      NobodyWaits(1, 0);
    } else {
      CrowdStarts(key, k);
      steps := [];
    }
  }

  lemma NobodyWaits(a: nat, b: nat)
    ensures Waiting(a, a) == Waiting(b, b)
  {
    WaitingFacts(a, a);
    WaitingFacts(b, b);
  }

  lemma CrowdStarts(key: string, k: nat)
    ensures CrowdRun([], key, 0, Waiting(0, 0), k)
  {
    WaitingFacts(0, 0);
    assert PassedInFlight(Start(0.0), key) == {};
  }

  /** For every k the bound 50 + k is reached by some run with at most k handlers in flight. */
  lemma AdmissionBoundAttained(key: string, k: nat)
    requires 1 <= k
    ensures exists steps ::
              && RunOf(Start(0.0), steps).Some? && InFlightWithin(Start(0.0), steps, key, k)
              && AdmittedIn(RunOf(Start(0.0), steps).value.events, key, 0.0, 60.0) == 50 + k
  {
    var steps := CrowdGrows(key, 50, k, k, k);
    assert RunOf(Start(0.0), steps).Some?;
  }

  // ---------- The link to Detect ----------

  /** The bot check is the last of the nine, so a request is let through exactly when none of
      the other eight fired and the bot check does not either: what `Checked` records. */
  lemma DetectIsFlagOrBot(c: D.Config, s: Store, q: D.Info, body: Option<D.Bytes>, tenant: string, clock: D.Clock)
    ensures D.DetectSignal(c, s, q, body, tenant, clock).detected <==>
            || D.Aggregate(D.Verdicts(c, s, q, body, tenant, clock, 8)).detected
            || D.BotFires(Lookup(s, D.SourceKey(tenant, q.clientIP)), clock.bot)
  {
    var eight := D.Verdicts(c, s, q, body, tenant, clock, 8);
    var last := D.Verdict(c, s, q, body, tenant, clock, D.CHECKS[8]);
    assert (eight + [last])[..|eight|] == eight;
  }

  /** The events of one `Detect` call leave exactly the store it leaves. */
  lemma DetectEvents(es: seq<Event>, tenant: string, ip: string, now: real, abusive: bool)
    ensures var key := D.SourceKey(tenant, ip);
            StoreOf(es + [Touched(key), Touched(D.VelocityKey(ip)), Recorded(key, now, abusive)])
            == D.DetectStore(StoreOf(es), tenant, ip, now, abusive)
  {
    var key := D.SourceKey(tenant, ip);
    var a, b, c := Touched(key), Touched(D.VelocityKey(ip)), Recorded(key, now, abusive);
    Snoc(es, a, key, now);
    Snoc(es + [a], b, key, now);
    Snoc(es + [a] + [b], c, key, now);
    assert es + [a, b, c] == es + [a] + [b] + [c];
  }
}
