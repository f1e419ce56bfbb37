/** End to end: what the middleware lets through to the backend, counted per source. */
module EdgeAdmission {
  import opened Common
  import opened RequestHistory
  import opened RequestLog
  import A = Admission
  import D = AbuseDetector
  import opened Edge
  import opened EdgeProofs

  function KeyOf(c: Config, q: Incoming): string {
    if Screen(c, q).Go? then D.SourceKey(Screen(c, q).tenant, q.info.clientIP) else ""
  }

  /** How many requests of a source were forwarded with their tracking time in the minute from `from`. */
  function ForwardedIn(c: Config, s: State, ops: seq<Op>, key: string, from: real): nat {
    if ops == [] then 0 else
      var pre := ops[..|ops| - 1];
      ForwardedIn(c, s, pre, key, from) + Forwards(c, Run(c, s, pre), ops[|ops| - 1], key, from)
  }

  /** What one operation is to the detector. */
  function SerialOf(c: Config, s: State, op: Op): seq<A.Serial> {
    match op
    case Serve(q, clock) =>
      if Reaches(c, s, q, clock)
      then [A.Between(Touched(KeyOf(c, q))), A.Between(Touched(D.VelocityKey(q.info.clientIP))),
            A.Request(KeyOf(c, q), clock.detect.bot, clock.detect.track, Flagged(c, s, q, clock))]
      else []
    case Cleanup(now) => [A.Between(Cleaned(now))]
    case FailedAuth(tenant, ip, now) => [A.Between(AuthFailed(D.SourceKey(tenant, ip), now))]
  }

  /** Some check before the bot check fired. */
  function Flagged(c: Config, s: State, q: Incoming, clock: Clock): bool {
    Screen(c, q).Go? &&
    var gate := Screen(c, q);
    D.Aggregate(D.Verdicts(c.detector, s.store, q.info, Some(gate.body), gate.tenant, clock.detect, 8)).detected
  }

  function SerialsOf(c: Config, s: State, ops: seq<Op>): seq<A.Serial> {
    if ops == [] then [] else
      var pre := ops[..|ops| - 1];
      SerialsOf(c, s, pre) + SerialOf(c, Run(c, s, pre), ops[|ops| - 1])
  }

  /** The system of concurrent handlers after a list of serial operations. */
  function SystemOf(start: real, xs: seq<A.Serial>): Option<A.System> {
    A.RunOf(A.Start(start), A.Unfold(xs))
  }

  lemma UnfoldSnoc(start: real, xs: seq<A.Serial>, x: A.Serial)
    ensures A.Unfold(xs + [x]) == A.Unfold(xs) + A.StepsOf(x)
  {
    assert (xs + [x])[..|xs|] == xs;
  }

  /** The detector's view of the run agrees with the middleware's. */
  ghost predicate Agrees(o: Option<A.System>, s: State, key: string, from: real, forwarded: nat) {
    && o.Some? && o.value.pending == map[] && StoreOf(o.value.events) == s.store
    && A.AdmittedIn(o.value.events, key, from, from + 60.0) == forwarded
  }

  lemma BetweenAgrees(start: real, xs: seq<A.Serial>, e: Event, now: real, key: string, from: real, s: State, n: nat)
    requires A.SerialClock(xs, start, if e.Touched? then now else e.at) && (e.Touched? || e.at <= now) && !e.Recorded?
    requires Agrees(SystemOf(start, xs), s, key, from, n)
    ensures A.SerialClock(xs + [A.Between(e)], start, now)
    ensures Agrees(SystemOf(start, xs + [A.Between(e)]), s.(store := RequestLog.Apply(s.store, e)), key, from, n)
  {
    var sys := SystemOf(start, xs).value;
    BetweenClock(start, xs, e, now);
    A.SerialRun(xs, start, if e.Touched? then now else e.at, key);
    UnfoldSnoc(start, xs, A.Between(e));
    A.RunSnoc(A.Start(start), A.Unfold(xs), A.Other(e), key, 1);
    assert SystemOf(start, xs + [A.Between(e)]) == Some(A.Take(sys, A.Other(e)));
    Snoc(sys.events, e, key, now);
    A.AdmittedSnoc(sys.events, e, key, from, from + 60.0);
  }

  lemma BetweenClock(start: real, xs: seq<A.Serial>, e: Event, now: real)
    requires A.SerialClock(xs, start, if e.Touched? then now else e.at) && (e.Touched? || e.at <= now) && !e.Recorded?
    ensures A.SerialClock(xs + [A.Between(e)], start, now)
  {
    assert (xs + [A.Between(e)])[..|xs|] == xs;
  }

  lemma RequestEvents(es: seq<Event>, at: string, track: real, abusive: bool, key: string, from: real)
    requires at in StoreOf(es)
    ensures var after := es + [Touched(at)] + [Recorded(at, track, abusive)];
            && StoreOf(after) == Track(StoreOf(es), at, track, abusive)
            && A.AdmittedIn(after, key, from, from + 60.0) == A.AdmittedIn(es, key, from, from + 60.0)
               + if at == key && !abusive && from <= track < from + 60.0 then 1 else 0
  {
    var touched, tracked := Touched(at), Recorded(at, track, abusive);
    Snoc(es, touched, key, track);
    Snoc(es + [touched], tracked, key, track);
    A.AdmittedSnoc(es, touched, key, from, from + 60.0);
    A.AdmittedSnoc(es + [touched], tracked, key, from, from + 60.0);
    assert Touch(StoreOf(es), at) == StoreOf(es);
  }

  lemma RequestSteps(start: real, xs: seq<A.Serial>, x: A.Serial)
    requires x.Request?
    ensures SystemOf(start, xs + [x])
            == A.RunOf(A.Start(start),
                       A.Unfold(xs) + [A.Checked(0, x.key, x.bot, x.flagged)] + [A.Finished(0, x.track)])
  {
    UnfoldSnoc(start, xs, x);
    var check, finish := A.Checked(0, x.key, x.bot, x.flagged), A.Finished(0, x.track);
    assert A.Unfold(xs) + [check] + [finish] == A.Unfold(xs) + A.StepsOf(x);
  }

  lemma RequestRun(start: real, xs: seq<A.Serial>, x: A.Serial)
    requires x.Request? && x.bot <= x.track && A.SerialClock(xs, start, x.bot)
    requires SystemOf(start, xs).Some? && SystemOf(start, xs).value.pending == map[]
    ensures var sys := SystemOf(start, xs).value;
            var abusive := x.flagged || D.BotFires(Lookup(StoreOf(sys.events), x.key), x.bot);
            SystemOf(start, xs + [x]) ==
            Some(A.System(sys.events + [Touched(x.key)] + [Recorded(x.key, x.track, abusive)], map[], x.track))
  {
    RequestSteps(start, xs, x);
    A.SerialRun(xs, start, x.bot, "");
    A.TakeRequest(SystemOf(start, xs).value, x);
    var check, finish := A.Checked(0, x.key, x.bot, x.flagged), A.Finished(0, x.track);
    A.RunTwo(A.Start(start), A.Unfold(xs), check, finish, SystemOf(start, xs).value);
  }

  lemma RequestAgrees(start: real, xs: seq<A.Serial>, x: A.Serial, key: string, from: real, s: State, n: nat)
    requires x.Request? && x.bot <= x.track && A.SerialClock(xs, start, x.bot)
    requires Agrees(SystemOf(start, xs), s, key, from, n) && x.key in s.store
    ensures A.SerialClock(xs + [x], start, x.track)
    ensures var abusive := x.flagged || D.BotFires(Lookup(s.store, x.key), x.bot);
            Agrees(SystemOf(start, xs + [x]), s.(store := Track(s.store, x.key, x.track, abusive)), key, from,
                   n + if x.key == key && !abusive && from <= x.track < from + 60.0 then 1 else 0)
  {
    assert (xs + [x])[..|xs|] == xs;
    var sys := SystemOf(start, xs).value;
    var abusive := x.flagged || D.BotFires(Lookup(s.store, x.key), x.bot);
    RequestRun(start, xs, x);
    RequestEvents(sys.events, x.key, x.track, abusive, key, from);
  }

  /** One more if this operation forwards a request of the source inside the window. */
  function Forwards(c: Config, s: State, op: Op, key: string, from: real): nat {
    if op.Serve? && OutcomeOf(c, s, op.q, op.clock).Forwarded? && KeyOf(c, op.q) == key
       && from <= op.clock.detect.track < from + 60.0 then 1 else 0
  }

  /** A request that reaches the detector is forwarded exactly when it is not abusive. */
  lemma ServedIsTracked(c: Config, s: State, q: Incoming, clock: Clock)
    requires Reaches(c, s, q, clock)
    ensures var own, vel := KeyOf(c, q), D.VelocityKey(q.info.clientIP);
            var store := Touch(Touch(s.store, own), vel);
            var abusive := Flagged(c, s, q, clock) || D.BotFires(Lookup(store, own), clock.detect.bot);
            && own in store
            && Served(c, s, q, clock).store == Track(store, own, clock.detect.track, abusive)
            && (OutcomeOf(c, s, q, clock).Forwarded? <==> !abusive)
  {
    var gate := Screen(c, q);
    A.DetectIsFlagOrBot(c.detector, s.store, q.info, Some(gate.body), gate.tenant, clock.detect);
    D.TouchKeeps(s.store, KeyOf(c, q), D.VelocityKey(q.info.clientIP));
  }

  lemma ServeAgrees(c: Config, s: State, q: Incoming, clock: Clock, start: real, xs: seq<A.Serial>, key: string,
                    from: real, n: nat)
    requires Reaches(c, s, q, clock) && clock.Ordered() && A.SerialClock(xs, start, clock.allow)
    requires Agrees(SystemOf(start, xs), s, key, from, n)
    ensures A.SerialClock(xs + SerialOf(c, s, Serve(q, clock)), start, clock.detect.track)
    ensures Agrees(SystemOf(start, xs + SerialOf(c, s, Serve(q, clock))), Served(c, s, q, clock), key, from,
                   n + Forwards(c, s, Serve(q, clock), key, from))
  {
    var own, vel := KeyOf(c, q), D.VelocityKey(q.info.clientIP);
    var x := A.Request(own, clock.detect.bot, clock.detect.track, Flagged(c, s, q, clock));
    TouchesAgree(start, xs, own, vel, clock.allow, clock.detect.bot, key, from, s, n);
    ServedIsTracked(c, s, q, clock);
    var xs2 := xs + [A.Between(Touched(own)), A.Between(Touched(vel))];
    RequestAgrees(start, xs2, x, key, from, s.(store := Touch(Touch(s.store, own), vel)), n);
    assert xs + SerialOf(c, s, Serve(q, clock)) == xs2 + [x];
  }

  lemma TouchesAgree(start: real, xs: seq<A.Serial>, own: string, vel: string, before: real, now: real,
                     key: string, from: real, s: State, n: nat)
    requires A.SerialClock(xs, start, before) && before <= now && Agrees(SystemOf(start, xs), s, key, from, n)
    ensures var xs2 := xs + [A.Between(Touched(own)), A.Between(Touched(vel))];
            && A.SerialClock(xs2, start, now)
            && Agrees(SystemOf(start, xs2), s.(store := Touch(Touch(s.store, own), vel)), key, from, n)
  {
    var a, b := A.Between(Touched(own)), A.Between(Touched(vel));
    LaterClock(xs, start, before, now);
    BetweenAgrees(start, xs, Touched(own), now, key, from, s, n);
    BetweenAgrees(start, xs + [a], Touched(vel), now, key, from, s.(store := Touch(s.store, own)), n);
    assert xs + [a] + [b] == xs + [a, b];
  }

  lemma ServeOpAgrees(c: Config, s: State, q: Incoming, clock: Clock, start: real, xs: seq<A.Serial>, now: real,
                      key: string, from: real, n: nat)
    requires A.SerialClock(xs, start, clock.allow) && Agrees(SystemOf(start, xs), s, key, from, n)
    requires clock.Ordered() && clock.detect.track <= now
    ensures A.SerialClock(xs + SerialOf(c, s, Serve(q, clock)), start, now)
    ensures Agrees(SystemOf(start, xs + SerialOf(c, s, Serve(q, clock))), Served(c, s, q, clock), key, from,
                   n + Forwards(c, s, Serve(q, clock), key, from))
  {
    if Reaches(c, s, q, clock) {
      ServeAgrees(c, s, q, clock, start, xs, key, from, n);
      LaterClock(xs + SerialOf(c, s, Serve(q, clock)), start, clock.detect.track, now);
    } else {
      assert xs + [] == xs;
      LaterClock(xs, start, clock.allow, now);
    }
  }

  lemma OpAgrees(c: Config, s: State, op: Op, start: real, xs: seq<A.Serial>, now: real, key: string, from: real,
                 n: nat)
    requires A.SerialClock(xs, start, Begins(op)) && EndsBy(op, now) && Agrees(SystemOf(start, xs), s, key, from, n)
    ensures A.SerialClock(xs + SerialOf(c, s, op), start, now)
    ensures Agrees(SystemOf(start, xs + SerialOf(c, s, op)), EdgeProofs.Apply(c, s, op), key, from,
                   n + Forwards(c, s, op, key, from))
  {
    match op
    case Serve(q, clock) => ServeOpAgrees(c, s, q, clock, start, xs, now, key, from, n);
    case Cleanup(at) => BetweenAgrees(start, xs, Cleaned(at), now, key, from, s, n);
    case FailedAuth(tenant, ip, at) =>
      BetweenAgrees(start, xs, AuthFailed(D.SourceKey(tenant, ip), at), now, key, from, s, n);
  }

  lemma {:induction false} LaterClock(xs: seq<A.Serial>, start: real, now: real, later: real)
    requires A.SerialClock(xs, start, now) && now <= later
    ensures A.SerialClock(xs, start, later)
  {
    if xs != [] && xs[|xs| - 1].Between? && xs[|xs| - 1].e.Touched? {
      LaterClock(xs[..|xs| - 1], start, now, later);
    }
  }

  lemma {:induction false} RunAgrees(c: Config, limits: map<string, int>, ops: seq<Op>, start: real, now: real,
                                     key: string, from: real)
    requires InOrder(ops, start, now)
    ensures var xs := SerialsOf(c, EdgeProofs.Start(limits), ops);
            && A.SerialClock(xs, start, now)
            && Agrees(SystemOf(start, xs), Run(c, EdgeProofs.Start(limits), ops), key, from,
                      ForwardedIn(c, EdgeProofs.Start(limits), ops, key, from))
  {
    var begin := EdgeProofs.Start(limits);
    if ops != [] {
      var pre, op := ops[..|ops| - 1], ops[|ops| - 1];
      RunAgrees(c, limits, pre, start, Begins(op), key, from);
      OpAgrees(c, Run(c, begin, pre), op, start, SerialsOf(c, begin, pre), now, key, from,
               ForwardedIn(c, begin, pre, key, from));
    }
  }

  /** No half-open minute of a sequential run sees more than 51 requests of one source handed
      to the backend, whatever the limits, the patterns and the other sources do. */
  lemma ForwardingBound(c: Config, limits: map<string, int>, ops: seq<Op>, start: real, now: real, key: string,
                        from: real)
    requires InOrder(ops, start, now)
    ensures ForwardedIn(c, EdgeProofs.Start(limits), ops, key, from) <= 51
  {
    RunAgrees(c, limits, ops, start, now, key, from);
    A.SequentialAdmissionBound(SerialsOf(c, EdgeProofs.Start(limits), ops), start, now, key, from);
  }
}
