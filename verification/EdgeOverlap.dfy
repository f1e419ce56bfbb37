/** The middleware with any number of requests in flight: limiter, each of the nine checks, and
    tracking are separate moments, and other requests, failed logins and cleanups come in between. */
module EdgeOverlap {
  import opened Common
  import opened RequestHistory
  import opened RequestLog
  import L = RateLimit
  import LP = RateLimitProofs
  import D = AbuseDetector
  import A = Admission
  import opened Edge
  import P = EdgeProofs
  import R = EdgeRuns

  /** A request past the limiter: how many checks it has had, and what they said. */
  datatype Flight = Flight(info: D.Info, tenant: string, first: D.Bytes, body: Option<D.Bytes>, since: real,
                           done: nat, signal: D.Signal)

  /** The bot check is the detector's; what the other eight say is open, because the bounds do
      not depend on it. */
  datatype Setup = Setup(config: Config, verdict: (Store, Flight, real) -> D.Signal)

  datatype System = System(edge: State, flights: map<nat, Flight>, now: real)

  datatype Move =
    | Arrive(id: nat, q: Incoming, now: real)  // secret scan, tenant, limiter
    | Check(id: nat, now: real)                // the next of the nine checks
    | Finish(id: nat, now: real)               // track, then block or hand on
    | Cleanup(now: real)
    | FailedAuth(tenant: string, ip: string, now: real)

  function Begin(limits: map<string, int>, now: real): System {
    System(P.Start(limits), map[], now)
  }

  predicate Possible(s: System, m: Move) {
    s.now <= m.now &&
    match m
    case Arrive(id, _, _) => id !in s.flights
    case Check(id, _) => id in s.flights && s.flights[id].done < |D.CHECKS|
    case Finish(id, _) => id in s.flights && s.flights[id].done == |D.CHECKS|
    case _ => true
  }

  function KeyOf(f: Flight): string {
    D.SourceKey(f.tenant, f.info.clientIP)
  }

  function Arrived(u: Setup, s: System, id: nat, q: Incoming, now: real): System {
    var gate := Screen(u.config, q);
    if gate.Stop? then s
    else
      var after := s.edge.(limiter := L.AfterAllow(s.edge.limiter, gate.tenant, now));
      if !L.Admits(s.edge.limiter, gate.tenant, now) then s.(edge := after)
      else s.(edge := after,
              flights := s.flights[id := Flight(q.info, gate.tenant, gate.body, Some(gate.body), now, 0, D.QUIET)])
  }

  /** One check of one request, on the histories and the body as they are now. */
  function Checked(u: Setup, store: Store, f: Flight, now: real): Flight
    requires f.done < |D.CHECKS|
  {
    var check := D.CHECKS[f.done];
    var result := if check.BotPatterns? then D.BotSignal(Lookup(store, KeyOf(f)), now) else u.verdict(store, f, now);
    f.(done := f.done + 1, signal := D.Merge(f.signal, result),
       body := if check.PayloadInjection? then D.BodyAfterScan(f.body, f.info.contentLength) else f.body)
  }

  /** What a move does; an impossible one does nothing. */
  function Apply(u: Setup, s: System, m: Move): System {
    if !Possible(s, m) then s else
      var next := s.(now := m.now);
      match m
      case Arrive(id, q, now) => Arrived(u, next, id, q, now)
      case Check(id, now) =>
        var f := s.flights[id];
        next.(flights := s.flights[id := Checked(u, s.edge.store, f, now)],
              edge := s.edge.(store := D.StoreAfterCheck(s.edge.store, f.info, f.tenant, D.CHECKS[f.done])))
      case Finish(id, now) =>
        var f := s.flights[id];
        next.(flights := s.flights - {id},
              edge := s.edge.(store := Track(s.edge.store, KeyOf(f), now, f.signal.detected),
                              forwarded := s.edge.forwarded + if f.signal.detected then [] else [f.first]))
      case Cleanup(now) => next.(edge := s.edge.(store := Clean(s.edge.store, now)))
      case FailedAuth(tenant, ip, now) =>
        next.(edge := s.edge.(store := Fail(s.edge.store, D.SourceKey(tenant, ip), now)))
  }

  function Run(u: Setup, s: System, moves: seq<Move>): System {
    if moves == [] then s else Apply(u, Run(u, s, moves[..|moves| - 1]), moves[|moves| - 1])
  }

  lemma RunSnoc(u: Setup, s: System, moves: seq<Move>, m: Move)
    ensures Run(u, s, moves + [m]) == Apply(u, Run(u, s, moves), m)
  {
    assert (moves + [m])[..|moves|] == moves;
  }

  // ---------- Undisturbed, this is the middleware ----------

  /** The next check of a request says what the detector's check says. */
  predicate VerdictOfDetector(u: Setup, store: Store, f: Flight, now: real) {
    f.done < |D.CHECKS| ==>
      u.verdict(store, f, now)
      == D.Verdict(u.config.detector, store, f.info, f.body, f.tenant, D.Clock(now, now, now, now), D.CHECKS[f.done])
  }

  ghost predicate IsDetector(u: Setup) {
    forall store, f, now :: VerdictOfDetector(u, store, f, now)
  }

  /** The setup of a middleware with this configuration. */
  function SetupOf(c: Config): Setup {
    Setup(c, (store, f: Flight, now) =>
               if f.done < |D.CHECKS|
               then D.Verdict(c.detector, store, f.info, f.body, f.tenant, D.Clock(now, now, now, now),
                              D.CHECKS[f.done])
               else D.QUIET)
  }

  lemma SetupIsDetector(c: Config)
    ensures IsDetector(SetupOf(c)) && SetupOf(c).config == c
  {
  }

  /** The reading a check makes. */
  function ReadingFor(clock: D.Clock, check: D.Check): real {
    match check
    case Velocity => clock.velocity
    case UserAgent => clock.velocity
    case HttpMethods => clock.velocity
    case PathTraversal => clock.velocity
    case BotPatterns => clock.bot
    case _ => clock.rate
  }

  /** Arrival, and the first `n` checks. */
  function ChecksAlone(id: nat, q: Incoming, clock: Clock, n: nat): seq<Move>
    requires n <= |D.CHECKS|
  {
    if n == 0 then [Arrive(id, q, clock.allow)]
    else ChecksAlone(id, q, clock, n - 1) + [Check(id, ReadingFor(clock.detect, D.CHECKS[n - 1]))]
  }

  lemma ReadingsInOrder(clock: D.Clock, n: nat)
    requires clock.Ordered() && n < |D.CHECKS|
    ensures clock.rate <= ReadingFor(clock, D.CHECKS[n]) <= clock.track
    ensures n > 0 ==> ReadingFor(clock, D.CHECKS[n - 1]) <= ReadingFor(clock, D.CHECKS[n])
  {
  }

  /** What a sequential `Detect` has found after `n` checks. */
  function SignalAfter(u: Setup, store: Store, info: D.Info, gate: Gate, clock: D.Clock, n: nat): D.Signal
    requires n <= |D.CHECKS| && gate.Go?
  {
    D.Aggregate(D.Verdicts(u.config.detector, store, info, Some(gate.body), gate.tenant, clock, n))
  }

  /** After `n` undisturbed checks: the store, the body and the signal of a sequential `Detect`. */
  ghost predicate CheckedAlone(u: Setup, s: System, id: nat, q: Incoming, clock: Clock, n: nat, s': System)
    requires n <= |D.CHECKS| && Screen(u.config, q).Go?
  {
    var gate := Screen(u.config, q);
    && s'.now == (if n == 0 then clock.allow else ReadingFor(clock.detect, D.CHECKS[n - 1]))
    && s'.edge == State(L.AfterAllow(s.edge.limiter, gate.tenant, clock.allow),
                        D.StoreBefore(s.edge.store, gate.tenant, q.info.clientIP, n), s.edge.forwarded)
    && s'.flights == s.flights[id :=
         Flight(q.info, gate.tenant, gate.body, D.BodyBefore(Some(gate.body), q.info.contentLength, n), clock.allow, n,
                SignalAfter(u, s.edge.store, q.info, gate, clock.detect, n))]
  }

  lemma OneReading(u: Setup, s: Store, q: D.Info, body: Option<D.Bytes>, tenant: string, clock: D.Clock,
                   check: D.Check)
    ensures var now := ReadingFor(clock, check);
            D.Verdict(u.config.detector, s, q, body, tenant, D.Clock(now, now, now, now), check)
            == D.Verdict(u.config.detector, s, q, body, tenant, clock, check)
  {
  }

  /** The next check of an undisturbed request is the next check of the sequential `Detect`. */
  lemma CheckedLikeDetect(u: Setup, store: Store, f: Flight, clock: D.Clock, n: nat)
    requires IsDetector(u) && n < |D.CHECKS| && f.done == n
    requires f.body == D.BodyBefore(Some(f.first), f.info.contentLength, n)
    requires f.signal == SignalAfter(u, store, f.info, Go(f.tenant, f.first), clock, n)
    ensures var now := D.StoreBefore(store, f.tenant, f.info.clientIP, n);
            Checked(u, now, f, ReadingFor(clock, D.CHECKS[n])) ==
            f.(done := n + 1, body := D.BodyBefore(Some(f.first), f.info.contentLength, n + 1),
               signal := SignalAfter(u, store, f.info, Go(f.tenant, f.first), clock, n + 1))
    ensures D.StoreAfterCheck(D.StoreBefore(store, f.tenant, f.info.clientIP, n), f.info, f.tenant, D.CHECKS[n])
            == D.StoreBefore(store, f.tenant, f.info.clientIP, n + 1)
  {
    var before := D.StoreBefore(store, f.tenant, f.info.clientIP, n);
    assert VerdictOfDetector(u, before, f, ReadingFor(clock, D.CHECKS[n]));
    OneReading(u, before, f.info, f.body, f.tenant, clock, D.CHECKS[n]);
    D.CheckStep(u.config.detector, store, f.info, Some(f.first), f.tenant, clock, n);
    D.AggregateStep(u.config.detector, store, f.info, Some(f.first), f.tenant, clock, n);
  }

  lemma CheckAlone(u: Setup, s: System, id: nat, q: Incoming, clock: Clock, n: nat, before: System)
    requires IsDetector(u) && n < |D.CHECKS| && clock.Ordered() && Screen(u.config, q).Go?
    requires CheckedAlone(u, s, id, q, clock, n, before)
    ensures CheckedAlone(u, s, id, q, clock, n + 1,
                         Apply(u, before, Check(id, ReadingFor(clock.detect, D.CHECKS[n]))))
  {
    ReadingsInOrder(clock.detect, n);
    CheckedLikeDetect(u, s.edge.store, before.flights[id], clock.detect, n);
  }

  lemma ArrivesAlone(u: Setup, s: System, id: nat, q: Incoming, clock: Clock)
    requires id !in s.flights && s.now <= clock.allow && P.Reaches(u.config, s.edge, q, clock)
    ensures CheckedAlone(u, s, id, q, clock, 0, Run(u, s, ChecksAlone(id, q, clock, 0)))
  {
    RunSnoc(u, s, [], Arrive(id, q, clock.allow));
    assert [] + [Arrive(id, q, clock.allow)] == ChecksAlone(id, q, clock, 0);
  }

  lemma {:induction false} ChecksAloneAreDetect(u: Setup, s: System, id: nat, q: Incoming, clock: Clock, n: nat)
    requires n <= |D.CHECKS| && id !in s.flights && s.now <= clock.allow && clock.Ordered()
    requires IsDetector(u) && P.Reaches(u.config, s.edge, q, clock)
    ensures CheckedAlone(u, s, id, q, clock, n, Run(u, s, ChecksAlone(id, q, clock, n)))
  {
    if n == 0 {
      ArrivesAlone(u, s, id, q, clock);
    } else {
      var moves, m := ChecksAlone(id, q, clock, n - 1), Check(id, ReadingFor(clock.detect, D.CHECKS[n - 1]));
      ChecksAloneAreDetect(u, s, id, q, clock, n - 1);
      CheckAlone(u, s, id, q, clock, n - 1, Run(u, s, moves));
      RunSnoc(u, s, moves, m);
      assert ChecksAlone(id, q, clock, n) == moves + [m];
    }
  }

  /** A refused request is over on arrival; the moves after that find nothing to do. */
  lemma {:induction false} RefusedOnArrival(u: Setup, s: System, id: nat, q: Incoming, clock: Clock, n: nat)
    requires n <= |D.CHECKS| && id !in s.flights && s.now <= clock.allow && !P.Reaches(u.config, s.edge, q, clock)
    ensures Run(u, s, ChecksAlone(id, q, clock, n))
            == System(Served(u.config, s.edge, q, clock), s.flights, clock.allow)
  {
    if n == 0 {
      RunSnoc(u, s, [], Arrive(id, q, clock.allow));
      assert [] + [Arrive(id, q, clock.allow)] == [Arrive(id, q, clock.allow)];
    } else {
      RefusedOnArrival(u, s, id, q, clock, n - 1);
      RunSnoc(u, s, ChecksAlone(id, q, clock, n - 1), Check(id, ReadingFor(clock.detect, D.CHECKS[n - 1])));
    }
  }

  /** The moves of one operation that nothing interferes with. */
  function MovesOf(op: P.Op): seq<Move> {
    match op
    case Serve(q, clock) => ChecksAlone(0, q, clock, |D.CHECKS|) + [Finish(0, clock.detect.track)]
    case Cleanup(now) => [Cleanup(now)]
    case FailedAuth(tenant, ip, now) => [FailedAuth(tenant, ip, now)]
  }

  /** Nothing is in flight and the clock is not ahead of `now`. */
  predicate Idle(s: System, now: real) {
    s.flights == map[] && s.now <= now
  }

  lemma ServedAlone(u: Setup, s: System, q: Incoming, clock: Clock)
    requires IsDetector(u) && Idle(s, clock.allow) && clock.Ordered()
    ensures var s' := Run(u, s, MovesOf(P.Serve(q, clock)));
            s'.edge == Served(u.config, s.edge, q, clock) && Idle(s', clock.detect.track)
  {
    var moves := ChecksAlone(0, q, clock, |D.CHECKS|);
    RunSnoc(u, s, moves, Finish(0, clock.detect.track));
    if P.Reaches(u.config, s.edge, q, clock) {
      ChecksAloneAreDetect(u, s, 0, q, clock, |D.CHECKS|);
      ReadingsInOrder(clock.detect, 8);
      assert s.flights[0 := Run(u, s, moves).flights[0]] - {0} == s.flights;
    } else {
      RefusedOnArrival(u, s, 0, q, clock, |D.CHECKS|);
    }
  }

  lemma HousekeepingAlone(u: Setup, s: System, m: Move)
    requires (m.Cleanup? || m.FailedAuth?) && Idle(s, m.now)
    ensures Run(u, s, [m]) == Apply(u, s, m) && Idle(Apply(u, s, m), m.now)
  {
    RunSnoc(u, s, [], m);
    assert [] + [m] == [m];
  }

  lemma OpAlone(u: Setup, s: System, op: P.Op, now: real)
    requires IsDetector(u) && Idle(s, P.Begins(op)) && P.EndsBy(op, now)
    ensures Run(u, s, MovesOf(op)).edge == P.Apply(u.config, s.edge, op)
    ensures Idle(Run(u, s, MovesOf(op)), now)
  {
    match op
    case Serve(q, clock) => ServedAlone(u, s, q, clock);
    case Cleanup(at) => HousekeepingAlone(u, s, Cleanup(at));
    case FailedAuth(tenant, ip, at) => HousekeepingAlone(u, s, FailedAuth(tenant, ip, at));
  }

  lemma {:induction false} RunAppend(u: Setup, s: System, a: seq<Move>, b: seq<Move>)
    ensures Run(u, s, a + b) == Run(u, Run(u, s, a), b)
  {
    if b == [] {
      assert a + b == a;
    } else {
      assert (a + b)[..|a + b| - 1] == a + b[..|b| - 1];
      RunAppend(u, s, a, b[..|b| - 1]);
    }
  }

  function SerialMoves(ops: seq<P.Op>): seq<Move> {
    if ops == [] then [] else SerialMoves(ops[..|ops| - 1]) + MovesOf(ops[|ops| - 1])
  }

  /** One request after the other, this is the sequential middleware. */
  lemma {:induction false} SerialIsSequential(u: Setup, limits: map<string, int>, ops: seq<P.Op>, start: real,
                                              now: real)
    requires IsDetector(u) && P.InOrder(ops, start, now)
    ensures var s := Run(u, Begin(limits, start), SerialMoves(ops));
            s.edge == P.Run(u.config, P.Start(limits), ops) && Idle(s, now)
  {
    if ops != [] {
      var pre, op := ops[..|ops| - 1], ops[|ops| - 1];
      SerialIsSequential(u, limits, pre, start, P.Begins(op));
      RunAppend(u, Begin(limits, start), SerialMoves(pre), MovesOf(op));
      OpAlone(u, Run(u, Begin(limits, start), SerialMoves(pre)), op, now);
    }
  }

  // ---------- How many requests of a source are handed on ----------

  /** Requests of the source that passed every check and are about to be tracked. */
  function PassedInFlight(s: System, key: string): set<nat> {
    set id | id in s.flights && AboutToPass(s.flights[id], key)
  }

  predicate AboutToPass(f: Flight, key: string) {
    f.done == |D.CHECKS| && !f.signal.detected && KeyOf(f) == key
  }

  /** At every moment of the run at most `k` of them. */
  ghost predicate PassedWithin(u: Setup, s: System, moves: seq<Move>, key: string, k: nat) {
    && |PassedInFlight(Run(u, s, moves), key)| <= k
    && (moves != [] ==> PassedWithin(u, s, moves[..|moves| - 1], key, k))
  }

  /** The move hands a request of the source to the backend, in the minute from `from`. */
  predicate HandsOn(s: System, m: Move, key: string, from: real) {
    m.Finish? && Possible(s, m) && AboutToPass(s.flights[m.id], key) && from <= m.now < from + 60.0
  }

  function HandedOn(u: Setup, s: System, moves: seq<Move>, key: string, from: real): nat {
    if moves == [] then 0 else
      var pre, m := moves[..|moves| - 1], moves[|moves| - 1];
      HandedOn(u, s, pre, key, from) + if HandsOn(Run(u, s, pre), m, key, from) then 1 else 0
  }

  /** What a move is to the detector alone. */
  function StepsFor(s: System, m: Move): seq<A.Step> {
    if !Possible(s, m) then [] else
      match m
      case Arrive(_, _, _) => []
      case Check(id, now) =>
        var f := s.flights[id];
        (match D.CHECKS[f.done]
         case RateLimit => [A.Other(Touched(KeyOf(f)))]
         case Velocity => [A.Other(Touched(D.VelocityKey(f.info.clientIP)))]
         case HttpMethods => [A.Other(Touched(KeyOf(f)))]
         case BotPatterns => [A.Checked(id, KeyOf(f), now, f.signal.detected)]
         case _ => [])
      case Finish(id, now) => [A.Finished(id, now)]
      case Cleanup(now) => [A.Other(Cleaned(now))]
      case FailedAuth(tenant, ip, now) => [A.Other(AuthFailed(D.SourceKey(tenant, ip), now))]
  }

  function Steps(u: Setup, s: System, moves: seq<Move>): seq<A.Step> {
    if moves == [] then [] else
      var pre := moves[..|moves| - 1];
      Steps(u, s, pre) + StepsFor(Run(u, s, pre), moves[|moves| - 1])
  }

  /** The detector alone, among overlapping handlers, is in the same state. */
  ghost predicate Mirrors(a: A.System, s: System) {
    && StoreOf(a.events) == s.edge.store && a.now <= s.now
    && (forall id :: id in a.pending <==> id in s.flights && s.flights[id].done == |D.CHECKS|)
    && (forall id :: id in a.pending ==>
          a.pending[id] == A.Handler(KeyOf(s.flights[id]), s.flights[id].signal.detected))
    && (forall id :: id in s.flights ==> s.flights[id].done <= |D.CHECKS|)
  }

  lemma MirroredInFlight(a: A.System, s: System, key: string)
    requires Mirrors(a, s)
    ensures A.PassedInFlight(a, key) == PassedInFlight(s, key)
  {
  }

  /** A step of the detector alone, or none. */
  ghost predicate Follows(a: A.System, steps: seq<A.Step>, a': A.System) {
    if steps == [] then a' == a else |steps| == 1 && A.Possible(a, steps[0]) && a' == A.Take(a, steps[0])
  }

  function After(a: A.System, steps: seq<A.Step>): A.System {
    if steps != [] && A.Possible(a, steps[0]) then A.Take(a, steps[0]) else a
  }

  /** A check before the last leaves who is about to be tracked as it was. */
  lemma EarlyCheckMirrored(u: Setup, a: A.System, s: System, m: Move, a': A.System)
    requires Mirrors(a, s) && m.Check? && Possible(s, m) && s.flights[m.id].done < 8
    requires a'.pending == a.pending && a'.now == a.now && StoreOf(a'.events) == Apply(u, s, m).edge.store
    ensures Mirrors(a', Apply(u, s, m))
  {
  }

  /** A check before the last at most fetches a history. */
  lemma EarlyCheckFetches(u: Setup, a: A.System, s: System, m: Move)
    requires m.Check? && Possible(s, m) && s.flights[m.id].done < 8 && StoreOf(a.events) == s.edge.store
    ensures var steps := StepsFor(s, m);
            var a' := After(a, steps);
            && Follows(a, steps, a') && a'.pending == a.pending && a'.now == a.now
            && StoreOf(a'.events) == Apply(u, s, m).edge.store
  {
    var f := s.flights[m.id];
    match D.CHECKS[f.done]
    case RateLimit => FetchMirrored(a, KeyOf(f));
    case Velocity => FetchMirrored(a, D.VelocityKey(f.info.clientIP));
    case HttpMethods => FetchMirrored(a, KeyOf(f));
    case _ =>
  }

  lemma FetchMirrored(a: A.System, key: string)
    ensures var step := A.Other(Touched(key));
            && A.Possible(a, step) && A.Take(a, step).pending == a.pending && A.Take(a, step).now == a.now
            && StoreOf(A.Take(a, step).events) == Touch(StoreOf(a.events), key)
  {
    Snoc(a.events, Touched(key), key, a.now);
  }

  lemma CheckMirrored(u: Setup, a: A.System, s: System, m: Move)
    requires Mirrors(a, s) && m.Check? && Possible(s, m) && s.flights[m.id].done < 8
    ensures var steps := StepsFor(s, m);
            Follows(a, steps, After(a, steps)) && Mirrors(After(a, steps), Apply(u, s, m))
  {
    EarlyCheckFetches(u, a, s, m);
    EarlyCheckMirrored(u, a, s, m, After(a, StepsFor(s, m)));
  }

  lemma BotCheckSteps(u: Setup, a: A.System, s: System, m: Move)
    requires Mirrors(a, s) && m.Check? && Possible(s, m) && s.flights[m.id].done == 8
    ensures var f' := Checked(u, s.edge.store, s.flights[m.id], m.now);
            var steps := StepsFor(s, m);
            var a' := After(a, steps);
            && Follows(a, steps, a') && a'.now == m.now
            && StoreOf(a'.events) == Apply(u, s, m).edge.store
            && a'.pending == a.pending[m.id := A.Handler(KeyOf(f'), f'.signal.detected)]
  {
    var f := s.flights[m.id];
    assert m.id !in a.pending;
    Snoc(a.events, Touched(KeyOf(f)), KeyOf(f), m.now);
  }

  lemma BotCheckMirrored(u: Setup, a: A.System, s: System, m: Move)
    requires Mirrors(a, s) && m.Check? && Possible(s, m) && s.flights[m.id].done == 8
    ensures var steps := StepsFor(s, m);
            Follows(a, steps, After(a, steps)) && Mirrors(After(a, steps), Apply(u, s, m))
  {
    BotCheckSteps(u, a, s, m);
    LastCheckMirrored(u, a, s, m, After(a, StepsFor(s, m)));
  }

  lemma LastCheckMirrored(u: Setup, a: A.System, s: System, m: Move, a': A.System)
    requires Mirrors(a, s) && m.Check? && Possible(s, m) && s.flights[m.id].done == 8
    requires var f' := Checked(u, s.edge.store, s.flights[m.id], m.now);
             && a'.now == m.now && StoreOf(a'.events) == Apply(u, s, m).edge.store
             && a'.pending == a.pending[m.id := A.Handler(KeyOf(f'), f'.signal.detected)]
    ensures Mirrors(a', Apply(u, s, m))
  {
  }

  lemma ArriveMirrored(u: Setup, a: A.System, s: System, m: Move)
    requires Mirrors(a, s) && m.Arrive? && Possible(s, m)
    ensures StepsFor(s, m) == [] && Mirrors(a, Apply(u, s, m))
  {
  }

  lemma FinishMirrored(u: Setup, a: A.System, s: System, m: Move)
    requires Mirrors(a, s) && m.Finish? && Possible(s, m)
    ensures var steps := StepsFor(s, m);
            Follows(a, steps, After(a, steps)) && Mirrors(After(a, steps), Apply(u, s, m))
  {
    var f := s.flights[m.id];
    Snoc(a.events, Recorded(KeyOf(f), m.now, f.signal.detected), KeyOf(f), m.now);
  }

  lemma MoveMirrored(u: Setup, a: A.System, s: System, m: Move)
    requires Mirrors(a, s)
    ensures var steps := StepsFor(s, m);
            Follows(a, steps, After(a, steps)) && Mirrors(After(a, steps), Apply(u, s, m))
  {
    if Possible(s, m) {
      match m
      case Arrive(_, _, _) => ArriveMirrored(u, a, s, m);
      case Check(id, _) =>
        if s.flights[id].done < 8 {
          CheckMirrored(u, a, s, m);
        } else {
          BotCheckMirrored(u, a, s, m);
        }
      case Finish(_, _) => FinishMirrored(u, a, s, m);
      case Cleanup(now) => Snoc(a.events, Cleaned(now), "", now);
      case FailedAuth(tenant, ip, now) => Snoc(a.events, AuthFailed(D.SourceKey(tenant, ip), now), "", now);
    }
  }

  lemma StepCounts(a: A.System, step: A.Step, key: string, from: real)
    requires A.Possible(a, step)
    ensures A.AdmittedIn(A.Take(a, step).events, key, from, from + 60.0)
            == A.AdmittedIn(a.events, key, from, from + 60.0)
            + if step.Finished? && a.pending[step.id] == A.Handler(key, false) && from <= step.now < from + 60.0
              then 1 else 0
  {
    match step
    case Checked(_, at, _, _) => A.AdmittedSnoc(a.events, Touched(at), key, from, from + 60.0);
    case Finished(id, now) =>
      A.AdmittedSnoc(a.events, Recorded(a.pending[id].key, now, a.pending[id].abusive), key, from, from + 60.0);
    case Other(e) => A.AdmittedSnoc(a.events, e, key, from, from + 60.0);
  }

  lemma OnlyFinishHandsOn(s: System, m: Move)
    ensures |StepsFor(s, m)| <= 1
    ensures m.Finish? && Possible(s, m) ==> StepsFor(s, m) == [A.Finished(m.id, m.now)]
    ensures !m.Finish? && StepsFor(s, m) != [] ==> !StepsFor(s, m)[0].Finished?
  {
  }

  lemma MoveCounts(a: A.System, s: System, m: Move, key: string, from: real)
    requires Mirrors(a, s) && Follows(a, StepsFor(s, m), After(a, StepsFor(s, m)))
    ensures A.AdmittedIn(After(a, StepsFor(s, m)).events, key, from, from + 60.0)
            == A.AdmittedIn(a.events, key, from, from + 60.0) + if HandsOn(s, m, key, from) then 1 else 0
  {
    var steps := StepsFor(s, m);
    OnlyFinishHandsOn(s, m);
    if steps != [] {
      StepCounts(a, steps[0], key, from);
    }
  }

  /** The detector's part of the run, and the count of what it lets through. */
  ghost predicate Explains(a: Option<A.System>, s: System, key: string, from: real, n: nat) {
    a.Some? && Mirrors(a.value, s) && A.AdmittedIn(a.value.events, key, from, from + 60.0) == n
  }

  lemma StepExplained(a0: A.System, steps: seq<A.Step>, more: seq<A.Step>, key: string, k: nat)
    requires A.RunOf(a0, steps).Some? && A.InFlightWithin(a0, steps, key, k)
    requires var a := A.RunOf(a0, steps).value;
             Follows(a, more, After(a, more)) && |A.PassedInFlight(After(a, more), key)| <= k
    ensures A.RunOf(a0, steps + more) == Some(After(A.RunOf(a0, steps).value, more))
    ensures A.InFlightWithin(a0, steps + more, key, k)
  {
    if more == [] {
      assert steps + more == steps;
    } else {
      assert more == [more[0]];
      A.RunSnoc(a0, steps, more[0], key, k);
    }
  }

  lemma {:induction false} RunExplained(u: Setup, limits: map<string, int>, start: real, moves: seq<Move>,
                                        key: string, from: real, k: nat)
    requires PassedWithin(u, Begin(limits, start), moves, key, k)
    ensures var steps := Steps(u, Begin(limits, start), moves);
            && Explains(A.RunOf(A.Start(start), steps), Run(u, Begin(limits, start), moves), key, from,
                        HandedOn(u, Begin(limits, start), moves, key, from))
            && A.InFlightWithin(A.Start(start), steps, key, k)
  {
    var s0, a0 := Begin(limits, start), A.Start(start);
    if moves != [] {
      var pre, m := moves[..|moves| - 1], moves[|moves| - 1];
      RunExplained(u, limits, start, pre, key, from, k);
      var s, steps := Run(u, s0, pre), Steps(u, s0, pre);
      var a, more := A.RunOf(a0, steps).value, StepsFor(s, m);
      MoveMirrored(u, a, s, m);
      MoveCounts(a, s, m, key, from);
      MirroredInFlight(After(a, more), Run(u, s0, moves), key);
      StepExplained(a0, steps, more, key, k);
    } else {
      MirroredInFlight(a0, s0, key);
    }
  }

  /** However requests overlap, with at most `k` of a source past their last check and not yet
      tracked, no half-open minute hands more than 50 + k of its requests to the backend. */
  lemma OverlappingForwardingBound(u: Setup, limits: map<string, int>, start: real, moves: seq<Move>,
                                   key: string, from: real, k: nat)
    requires PassedWithin(u, Begin(limits, start), moves, key, k)
    ensures HandedOn(u, Begin(limits, start), moves, key, from) <= 50 + k
  {
    RunExplained(u, limits, start, moves, key, from, k);
    A.ConcurrentAdmissionBound(start, Steps(u, Begin(limits, start), moves), key, from, k);
  }

  // ---------- How many requests of a tenant are handed on ----------

  /** The limiter calls of a run. */
  function LimiterCalls(u: Setup, s: System, moves: seq<Move>): seq<L.Op> {
    if moves == [] then [] else
      var pre, m := moves[..|moves| - 1], moves[|moves| - 1];
      if m.Arrive? && Possible(Run(u, s, pre), m) && Screen(u.config, m.q).Go?
      then LimiterCalls(u, s, pre) + [L.Allow(Screen(u.config, m.q).tenant, m.now)]
      else LimiterCalls(u, s, pre)
  }

  /** The tenant's requests in flight that the limiter admitted in [from, to). */
  function TenantInFlight(s: System, t: string, from: real, to: real): set<nat> {
    set id | id in s.flights && IsTenants(s.flights[id], t, from, to)
  }

  predicate IsTenants(f: Flight, t: string, from: real, to: real) {
    f.tenant == t && from <= f.since < to
  }

  /** Requests of a tenant handed to the backend that the limiter admitted in [from, to). */
  function TenantHandedOn(u: Setup, s: System, moves: seq<Move>, t: string, from: real, to: real): nat {
    if moves == [] then 0 else
      var pre, m := moves[..|moves| - 1], moves[|moves| - 1];
      var before := Run(u, s, pre);
      TenantHandedOn(u, s, pre, t, from, to)
      + if m.Finish? && Possible(before, m) && !before.flights[m.id].signal.detected
           && IsTenants(before.flights[m.id], t, from, to) then 1 else 0
  }

  predicate Admits(u: Setup, s: System, m: Move, t: string, from: real, to: real) {
    && m.Arrive? && Possible(s, m) && Screen(u.config, m.q).Go? && Screen(u.config, m.q).tenant == t
    && L.Admits(s.edge.limiter, t, m.now) && from <= m.now < to
  }

  predicate Leaves(s: System, m: Move, t: string, from: real, to: real) {
    m.Finish? && Possible(s, m) && IsTenants(s.flights[m.id], t, from, to)
  }

  lemma FlightsAfterFinish(u: Setup, s: System, m: Move, t: string, from: real, to: real)
    requires m.Finish? && Possible(s, m)
    ensures |TenantInFlight(Apply(u, s, m), t, from, to)|
            == |TenantInFlight(s, t, from, to)| - if Leaves(s, m, t, from, to) then 1 else 0
  {
    var before, after := TenantInFlight(s, t, from, to), TenantInFlight(Apply(u, s, m), t, from, to);
    assert before == if Leaves(s, m, t, from, to) then after + {m.id} else after;
  }

  lemma FlightsAfterArrival(u: Setup, s: System, m: Move, t: string, from: real, to: real)
    requires m.Arrive? && Possible(s, m)
    ensures |TenantInFlight(Apply(u, s, m), t, from, to)|
            == |TenantInFlight(s, t, from, to)| + if Admits(u, s, m, t, from, to) then 1 else 0
  {
    var before, after := TenantInFlight(s, t, from, to), TenantInFlight(Apply(u, s, m), t, from, to);
    assert after == if Admits(u, s, m, t, from, to) then before + {m.id} else before;
  }

  lemma FlightsAfterOthers(u: Setup, s: System, m: Move, t: string, from: real, to: real)
    requires Possible(s, m) && !m.Arrive? && !m.Finish?
    ensures TenantInFlight(Apply(u, s, m), t, from, to) == TenantInFlight(s, t, from, to)
  {
  }

  lemma FlightsAfterMove(u: Setup, s: System, m: Move, t: string, from: real, to: real)
    ensures |TenantInFlight(Apply(u, s, m), t, from, to)| == |TenantInFlight(s, t, from, to)|
            + (if Admits(u, s, m, t, from, to) then 1 else 0) - (if Leaves(s, m, t, from, to) then 1 else 0)
  {
    if Possible(s, m) {
      if m.Finish? {
        FlightsAfterFinish(u, s, m, t, from, to);
      } else if m.Arrive? {
        FlightsAfterArrival(u, s, m, t, from, to);
      } else {
        FlightsAfterOthers(u, s, m, t, from, to);
      }
    }
  }

  /** The limiter runs on its own, and its clock is in order. */
  lemma {:induction false} LimiterRunsAlone(u: Setup, limits: map<string, int>, start: real, moves: seq<Move>,
                                            t: string)
    ensures var s, ops := Run(u, Begin(limits, start), moves), LimiterCalls(u, Begin(limits, start), moves);
            var cs := L.Calls(L.State(limits, map[], map[]), ops, t);
            && s.edge.limiter == L.Run(L.State(limits, map[], map[]), ops)
            && (forall op :: op in ops ==> op.Allow?)
            && L.InOrder(cs) && (forall call :: call in cs ==> call.at <= s.now)
  {
    if moves != [] {
      var pre, m := moves[..|moves| - 1], moves[|moves| - 1];
      LimiterRunsAlone(u, limits, start, pre, t);
      var s, ops := Run(u, Begin(limits, start), pre), LimiterCalls(u, Begin(limits, start), pre);
      if m.Arrive? && Possible(s, m) && Screen(u.config, m.q).Go? {
        LP.RunSnoc(L.State(limits, map[], map[]), ops, L.Allow(Screen(u.config, m.q).tenant, m.now), t);
      }
    }
  }

  lemma LimiterCallsSnoc(u: Setup, s: System, pre: seq<Move>, m: Move)
    ensures LimiterCalls(u, s, pre + [m]) ==
            if m.Arrive? && Possible(Run(u, s, pre), m) && Screen(u.config, m.q).Go?
            then LimiterCalls(u, s, pre) + [L.Allow(Screen(u.config, m.q).tenant, m.now)] else LimiterCalls(u, s, pre)
  {
    assert (pre + [m])[..|pre|] == pre;
  }

  /** What one move adds to the tenant's admitted calls. */
  lemma AdmittedAfterMove(u: Setup, limits: map<string, int>, start: real, pre: seq<Move>, m: Move,
                          t: string, from: real, to: real)
    ensures var begin, limiter := Begin(limits, start), L.State(limits, map[], map[]);
            var before := L.Calls(limiter, LimiterCalls(u, begin, pre), t);
            var after := L.Calls(limiter, LimiterCalls(u, begin, pre + [m]), t);
            R.AdmittedDuring(after, from, to, |after|) == R.AdmittedDuring(before, from, to, |before|)
            + if Admits(u, Run(u, begin, pre), m, t, from, to) then 1 else 0
  {
    var begin := Begin(limits, start);
    var s := Run(u, begin, pre);
    LimiterCallsSnoc(u, begin, pre, m);
    if m.Arrive? && Possible(s, m) && Screen(u.config, m.q).Go? {
      LimiterRunsAlone(u, limits, start, pre, t);
      R.AdmittedAfterCall(L.State(limits, map[], map[]), LimiterCalls(u, begin, pre), Screen(u.config, m.q).tenant,
                          m.now, t, from, to);
    }
  }

  /** Every request of the tenant, in flight or handed on, took one of its tokens. */
  lemma {:induction false} HandedOnTookTokens(u: Setup, limits: map<string, int>, start: real, moves: seq<Move>,
                                              t: string, from: real, to: real)
    ensures var begin := Begin(limits, start);
            var cs := L.Calls(L.State(limits, map[], map[]), LimiterCalls(u, begin, moves), t);
            TenantHandedOn(u, begin, moves, t, from, to) + |TenantInFlight(Run(u, begin, moves), t, from, to)|
            <= R.AdmittedDuring(cs, from, to, |cs|)
  {
    var begin := Begin(limits, start);
    if moves == [] {
      assert TenantInFlight(begin, t, from, to) == {};
    } else {
      var pre, m := moves[..|moves| - 1], moves[|moves| - 1];
      HandedOnTookTokens(u, limits, start, pre, t, from, to);
      FlightsAfterMove(u, Run(u, begin, pre), m, t, from, to);
      AdmittedAfterMove(u, limits, start, pre, m, t, from, to);
      assert moves == pre + [m];
    }
  }

  /** However requests overlap, and over all addresses together: of the requests the limiter saw
      in a window of `span` seconds no more of one tenant reach the backend than its limit and
      what its rate earns, and of those seen in a half-open minute fewer than twice the limit. */
  lemma OverlappingTenantBound(u: Setup, limits: map<string, int>, start: real, moves: seq<Move>,
                               t: string, from: real, span: real)
    requires 0.0 <= span
    ensures var n := TenantHandedOn(u, Begin(limits, start), moves, t, from, from + span);
            && n as real <= R.Allowance(limits, t, span)
            && (t in limits && 1 <= limits[t] && span <= 60.0 ==> n <= 2 * limits[t] - 1)
  {
    HandedOnTookTokens(u, limits, start, moves, t, from, from + span);
    LimiterRunsAlone(u, limits, start, moves, t);
    R.WindowAllowance(limits, LimiterCalls(u, Begin(limits, start), moves), t, from, span);
  }
}
