/** The two levels of locks in cmd/edge-service/abuse.go: `ad.mu` guards the map of
    histories, each history has its own `mu`.

    Any number of threads run programs made of two kinds of operation. A `Use` is one
    getOrCreateHistory followed by a section under that history's lock; `ad.mu` is released
    in between, so the history may meanwhile be orphaned by a cleanup. A `Sweep` is one
    CleanupOldData, which holds `ad.mu` throughout and locks the histories one by one. */
module Locks {
  import opened Common
  import D = AbuseDetector

  datatype Op = Use(key: string) | Sweep

  datatype At =
    | Between                                        // holds nothing; wants ad.mu if work is left
    | Fetching                                       // in getOrCreateHistory, holds ad.mu
    | Fetched(h: nat)                                // holds nothing, wants h.mu
    | Using(h: nat)                                  // holds h.mu
    | Sweeping(rest: map<string, nat>)               // holds ad.mu, these histories left to visit
    | Trimming(key: string, h: nat, rest: map<string, nat>) // holds ad.mu and h.mu

  datatype Thread = Thread(todo: seq<Op>, at: At)

  /** `held` maps a locked history to the thread that holds it; `unused` is the next unused history. */
  datatype System = System(histories: map<string, nat>, unused: nat, owner: Option<nat>, held: map<nat, nat>,
                           threads: seq<Thread>)

  /** What a thread of the detector may be asked to do. */
  datatype Job = DetectJob(key: string, velocity: string) | FailedAuthJob(key: string) | CleanupJob

  /** Detect looks at the source for the rate, at the velocity key, at the source for the
      method and the bot check, and tracks at the source. */
  function ProgramOf(job: Job): seq<Op> {
    match job
    case DetectJob(key, velocity) => [Use(key), Use(velocity), Use(key), Use(key), Use(key)]
    case FailedAuthJob(key) => [Use(key)]
    case CleanupJob => [Sweep]
  }

  predicate Done(t: Thread) {
    t.at == Between && t.todo == []
  }

  /** Thread `i` can take its next step; a sweep may visit its remaining histories in any order. */
  predicate Enabled(s: System, i: nat, pick: string)
    requires i < |s.threads|
  {
    var t := s.threads[i];
    match t.at
    case Between => t.todo != [] && s.owner == None
    case Fetching => t.todo != [] && t.todo[0].Use?
    case Fetched(h) => h !in s.held
    case Using(h) => t.todo != []
    case Sweeping(rest) => t.todo != [] && (rest == map[] || (pick in rest && rest[pick] !in s.held))
    case Trimming(_, _, _) => true
  }

  /** One step of thread `i`. `emptied` says whether a trimmed history is found empty. */
  function Take(s: System, i: nat, pick: string, emptied: bool): System
    requires i < |s.threads| && Enabled(s, i, pick)
  {
    var t := s.threads[i];
    match t.at
    case Between =>
      s.(owner := Some(i),
         threads := s.threads[i := t.(at := if t.todo[0].Sweep? then Sweeping(s.histories) else Fetching)])
    case Fetching =>
      var key := t.todo[0].key;
      if key in s.histories
      then s.(owner := None, threads := s.threads[i := t.(at := Fetched(s.histories[key]))])
      else s.(owner := None, histories := s.histories[key := s.unused], unused := s.unused + 1,
              threads := s.threads[i := t.(at := Fetched(s.unused))])
    case Fetched(h) =>
      s.(held := s.held[h := i], threads := s.threads[i := t.(at := Using(h))])
    case Using(h) =>
      s.(held := s.held - {h}, threads := s.threads[i := Thread(t.todo[1..], Between)])
    case Sweeping(rest) =>
      if rest == map[]
      then s.(owner := None, threads := s.threads[i := Thread(t.todo[1..], Between)])
      else s.(held := s.held[rest[pick] := i],
              threads := s.threads[i := t.(at := Trimming(pick, rest[pick], rest - {pick}))])
    case Trimming(key, h, rest) =>
      s.(held := s.held - {h}, histories := if emptied then s.histories - {key} else s.histories,
         threads := s.threads[i := t.(at := Sweeping(rest))])
  }

  // ---------- Who holds what ----------

  predicate HoldsMap(t: Thread) {
    t.at.Fetching? || t.at.Sweeping? || t.at.Trimming?
  }

  predicate HoldsHistory(t: Thread, h: nat) {
    t.at == Using(h) || (t.at.Trimming? && t.at.h == h)
  }

  predicate InStep(t: Thread) {
    match t.at
    case Between => true
    case Fetching => t.todo != [] && t.todo[0].Use?
    case Fetched(_) => t.todo != [] && t.todo[0].Use?
    case Using(_) => t.todo != [] && t.todo[0].Use?
    case Sweeping(_) => t.todo != [] && t.todo[0].Sweep?
    case Trimming(_, _, _) => t.todo != [] && t.todo[0].Sweep?
  }

  /** The lock tables agree with what the threads are doing, so each lock has one holder. */
  ghost predicate Consistent(s: System) {
    && (s.owner.Some? ==> s.owner.value < |s.threads|)
    && (forall i :: 0 <= i < |s.threads| ==> InStep(s.threads[i]) && (HoldsMap(s.threads[i]) <==> s.owner == Some(i)))
    && (forall h :: h in s.held ==> s.held[h] < |s.threads| && HoldsHistory(s.threads[s.held[h]], h))
    && (forall i, h: nat :: 0 <= i < |s.threads| && HoldsHistory(s.threads[i], h) ==> h in s.held && s.held[h] == i)
  }

  lemma Others(s: System, i: nat, pick: string, emptied: bool)
    requires i < |s.threads| && Enabled(s, i, pick)
    ensures var s' := Take(s, i, pick, emptied);
            && |s'.threads| == |s.threads|
            && forall j :: 0 <= j < |s.threads| && j != i ==> s'.threads[j] == s.threads[j]
  {
  }

  lemma MapLockKeepsConsistent(s: System, i: nat, pick: string, emptied: bool)
    requires Consistent(s) && i < |s.threads| && Enabled(s, i, pick)
             && (s.threads[i].at.Between? || s.threads[i].at.Fetching?)
    ensures Consistent(Take(s, i, pick, emptied))
  {
    Others(s, i, pick, emptied);
  }

  lemma AcquireKeepsConsistent(s: System, i: nat, pick: string, emptied: bool)
    requires Consistent(s) && i < |s.threads| && Enabled(s, i, pick) && s.threads[i].at.Fetched?
    ensures Consistent(Take(s, i, pick, emptied))
  {
    Others(s, i, pick, emptied);
    var s', h := Take(s, i, pick, emptied), s.threads[i].at.h;
    assert HoldsHistory(s'.threads[i], h);
    forall j, g: nat | 0 <= j < |s'.threads| && HoldsHistory(s'.threads[j], g)
      ensures g in s'.held && s'.held[g] == j
    {
      if j != i {
        assert HoldsHistory(s.threads[j], g);
      }
    }
  }

  lemma ReleaseKeepsConsistent(s: System, i: nat, pick: string, emptied: bool)
    requires Consistent(s) && i < |s.threads| && Enabled(s, i, pick) && s.threads[i].at.Using?
    ensures Consistent(Take(s, i, pick, emptied))
  {
    Others(s, i, pick, emptied);
    var s', h := Take(s, i, pick, emptied), s.threads[i].at.h;
    assert HoldsHistory(s.threads[i], h) && s.held[h] == i;
    forall j, g: nat | 0 <= j < |s'.threads| && HoldsHistory(s'.threads[j], g)
      ensures g in s'.held && s'.held[g] == j
    {
      assert j != i && HoldsHistory(s.threads[j], g);
    }
    forall g | g in s'.held
      ensures s'.held[g] < |s'.threads| && HoldsHistory(s'.threads[s'.held[g]], g)
    {
      assert HoldsHistory(s.threads[s.held[g]], g);
    }
  }

  lemma SweepKeepsConsistent(s: System, i: nat, pick: string, emptied: bool)
    requires Consistent(s) && i < |s.threads| && Enabled(s, i, pick) && s.threads[i].at.Sweeping?
    ensures Consistent(Take(s, i, pick, emptied))
  {
    Others(s, i, pick, emptied);
    var s' := Take(s, i, pick, emptied);
    forall j, g: nat | 0 <= j < |s'.threads| && HoldsHistory(s'.threads[j], g)
      ensures g in s'.held && s'.held[g] == j
    {
      if j != i {
        assert HoldsHistory(s.threads[j], g);
      }
    }
  }

  lemma TrimKeepsConsistent(s: System, i: nat, pick: string, emptied: bool)
    requires Consistent(s) && i < |s.threads| && Enabled(s, i, pick) && s.threads[i].at.Trimming?
    ensures Consistent(Take(s, i, pick, emptied))
  {
    Others(s, i, pick, emptied);
    var s', h := Take(s, i, pick, emptied), s.threads[i].at.h;
    assert HoldsHistory(s.threads[i], h) && s.held[h] == i;
    forall j, g: nat | 0 <= j < |s'.threads| && HoldsHistory(s'.threads[j], g)
      ensures g in s'.held && s'.held[g] == j
    {
      assert j != i && HoldsHistory(s.threads[j], g);
    }
    forall g | g in s'.held
      ensures s'.held[g] < |s'.threads| && HoldsHistory(s'.threads[s'.held[g]], g)
    {
      assert HoldsHistory(s.threads[s.held[g]], g);
    }
  }

  lemma TakeKeepsConsistent(s: System, i: nat, pick: string, emptied: bool)
    requires Consistent(s) && i < |s.threads| && Enabled(s, i, pick)
    ensures Consistent(Take(s, i, pick, emptied))
  {
    match s.threads[i].at
    case Between => MapLockKeepsConsistent(s, i, pick, emptied);
    case Fetching => MapLockKeepsConsistent(s, i, pick, emptied);
    case Fetched(_) => AcquireKeepsConsistent(s, i, pick, emptied);
    case Using(_) => ReleaseKeepsConsistent(s, i, pick, emptied);
    case Sweeping(_) => SweepKeepsConsistent(s, i, pick, emptied);
    case Trimming(_, _, _) => TrimKeepsConsistent(s, i, pick, emptied);
  }

  /** While some thread is unfinished, some thread can step: the holder of a history is never
      waiting; with no history held the holder of the map lock is not blocked; and with the map
      lock free nobody is. */
  lemma SomeoneCanStep(s: System)
    requires Consistent(s)
    requires exists i :: 0 <= i < |s.threads| && !Done(s.threads[i])
    ensures exists i: nat, pick :: i < |s.threads| && Enabled(s, i, pick)
  {
    if h :| h in s.held {
      assert Enabled(s, s.held[h], "");
    } else if s.owner.Some? {
      var t := s.threads[s.owner.value];
      if t.at.Sweeping? && t.at.rest != map[] {
        var pick :| pick in t.at.rest;
        assert Enabled(s, s.owner.value, pick);
      } else {
        assert Enabled(s, s.owner.value, "");
      }
    } else {
      var i: nat :| i < |s.threads| && !Done(s.threads[i]);
      assert Enabled(s, i, "");
    }
  }

  // ---------- Every run ends ----------

  /** Operations that may still create a history. */
  function Fetches(todo: seq<Op>): nat {
    if todo == [] then 0 else (if todo[0].Use? then 1 else 0) + Fetches(todo[1..])
  }

  function FetchesLeft(t: Thread): nat {
    if (t.at.Fetched? || t.at.Using?) && t.todo != [] then Fetches(t.todo[1..]) else Fetches(t.todo)
  }

  function AllFetches(ts: seq<Thread>): nat {
    if ts == [] then 0 else FetchesLeft(ts[0]) + AllFetches(ts[1..])
  }

  /** More histories than this can never exist at once from here on. */
  function MostHistories(s: System): nat {
    |s.histories| + AllFetches(s.threads)
  }

  /** Steps needed for a program when a sweep meets at most `most` histories. */
  function Cost(todo: seq<Op>, most: nat): nat {
    if todo == [] then 0 else (if todo[0].Use? then 4 else 2 + 2 * most) + Cost(todo[1..], most)
  }

  function ThreadWork(t: Thread, most: nat): nat {
    if t.todo == [] then 0 else
      var rest := Cost(t.todo[1..], most);
      match t.at
      case Between => Cost(t.todo, most)
      case Fetching => 3 + rest
      case Fetched(_) => 2 + rest
      case Using(_) => 1 + rest
      case Sweeping(m) => 1 + 2 * |m| + rest
      case Trimming(_, _, m) => 2 + 2 * |m| + rest
  }

  function AllWork(ts: seq<Thread>, most: nat): nat {
    if ts == [] then 0 else ThreadWork(ts[0], most) + AllWork(ts[1..], most)
  }

  /** An upper bound on the steps all threads together can still take. */
  function Work(s: System): nat {
    AllWork(s.threads, MostHistories(s))
  }

  lemma {:induction false} CostMonotone(todo: seq<Op>, low: nat, high: nat)
    requires low <= high
    ensures Cost(todo, low) <= Cost(todo, high)
  {
    if todo != [] {
      CostMonotone(todo[1..], low, high);
    }
  }

  lemma {:induction false} WorkMonotone(ts: seq<Thread>, low: nat, high: nat)
    requires low <= high
    ensures AllWork(ts, low) <= AllWork(ts, high)
  {
    if ts != [] {
      CostMonotone(ts[0].todo, low, high);
      if ts[0].todo != [] {
        CostMonotone(ts[0].todo[1..], low, high);
      }
      WorkMonotone(ts[1..], low, high);
    }
  }

  lemma {:induction false} ThreadChanges(ts: seq<Thread>, i: nat, t: Thread, most: nat)
    requires i < |ts|
    ensures AllWork(ts[i := t], most) + ThreadWork(ts[i], most) == AllWork(ts, most) + ThreadWork(t, most)
    ensures AllFetches(ts[i := t]) + FetchesLeft(ts[i]) == AllFetches(ts) + FetchesLeft(t)
  {
    if i == 0 {
      assert ts[i := t][1..] == ts[1..];
    } else {
      assert ts[i := t][1..] == ts[1..][i - 1 := t];
      ThreadChanges(ts[1..], i - 1, t, most);
    }
  }

  lemma MapSizes(m: map<string, nat>, key: string, h: nat)
    ensures |m[key := h]| == if key in m then |m| else |m| + 1
    ensures |m - {key}| == if key in m then |m| - 1 else |m|
  {
    assert m[key := h].Keys == m.Keys + {key};
    assert (m - {key}).Keys == m.Keys - {key};
    if key in m {
      assert m.Keys == (m.Keys - {key}) + {key};
    }
    assert |m| == |m.Keys| && |m[key := h]| == |m[key := h].Keys| && |m - {key}| == |(m - {key}).Keys|;
  }

  lemma FetchSpent(s: System, i: nat, pick: string, emptied: bool)
    requires i < |s.threads| && Enabled(s, i, pick) && s.threads[i].at.Fetching?
    ensures var s' := Take(s, i, pick, emptied);
            FetchesLeft(s'.threads[i]) + |s'.histories| <= FetchesLeft(s.threads[i]) + |s.histories|
  {
    var t := s.threads[i];
    MapSizes(s.histories, t.todo[0].key, s.unused);
    assert FetchesLeft(t) == 1 + Fetches(t.todo[1..]);
  }

  lemma OthersFetchNothing(s: System, i: nat, pick: string, emptied: bool)
    requires i < |s.threads| && Enabled(s, i, pick) && InStep(s.threads[i]) && !s.threads[i].at.Fetching?
    ensures FetchesLeft(Take(s, i, pick, emptied).threads[i]) <= FetchesLeft(s.threads[i])
    ensures |Take(s, i, pick, emptied).histories| <= |s.histories|
  {
    var t, t' := s.threads[i], Take(s, i, pick, emptied).threads[i];
    if t.at.Trimming? {
      MapSizes(s.histories, t.at.key, 0);
    }
    var rest := t.todo[1..];
    if t.at.Fetched? || t.at.Using? {
      assert FetchesLeft(t) == Fetches(rest) == FetchesLeft(t');
    } else if t'.todo == t.todo {
      assert FetchesLeft(t) == Fetches(t.todo) == FetchesLeft(t');
    } else {
      assert FetchesLeft(t) == Fetches(t.todo) == Fetches(rest) == FetchesLeft(t');
    }
  }

  /** A thread's next step creates a history only by spending one of its fetches. */
  lemma FetchesSpent(s: System, i: nat, pick: string, emptied: bool)
    requires i < |s.threads| && Enabled(s, i, pick) && InStep(s.threads[i])
    ensures var s' := Take(s, i, pick, emptied);
            FetchesLeft(s'.threads[i]) + |s'.histories| <= FetchesLeft(s.threads[i]) + |s.histories|
  {
    if s.threads[i].at.Fetching? {
      FetchSpent(s, i, pick, emptied);
    } else {
      OthersFetchNothing(s, i, pick, emptied);
    }
  }

  lemma MostHistoriesShrinks(s: System, i: nat, pick: string, emptied: bool)
    requires Consistent(s) && i < |s.threads| && Enabled(s, i, pick)
    ensures MostHistories(Take(s, i, pick, emptied)) <= MostHistories(s)
  {
    var threads := Take(s, i, pick, emptied).threads;
    FetchesSpent(s, i, pick, emptied);
    ThreadChanges(s.threads, i, threads[i], 0);
    assert threads == s.threads[i := threads[i]];
  }

  lemma LockStepUsesWork(s: System, i: nat, pick: string, emptied: bool)
    requires i < |s.threads| && Enabled(s, i, pick) && InStep(s.threads[i])
    requires s.threads[i].at.Between? || s.threads[i].at.Fetching? || s.threads[i].at.Fetched?
    ensures ThreadWork(Take(s, i, pick, emptied).threads[i], MostHistories(s))
            < ThreadWork(s.threads[i], MostHistories(s))
  {
  }

  lemma ReleaseUsesWork(s: System, i: nat, pick: string, emptied: bool)
    requires i < |s.threads| && Enabled(s, i, pick) && InStep(s.threads[i])
    requires s.threads[i].at.Using? || (s.threads[i].at.Sweeping? && s.threads[i].at.rest == map[])
    ensures ThreadWork(Take(s, i, pick, emptied).threads[i], MostHistories(s))
            < ThreadWork(s.threads[i], MostHistories(s))
  {
    var t := s.threads[i];
    assert Take(s, i, pick, emptied).threads[i] == Thread(t.todo[1..], Between);
    assert ThreadWork(Thread(t.todo[1..], Between), MostHistories(s)) == Cost(t.todo[1..], MostHistories(s));
  }

  lemma SweepStepUsesWork(s: System, i: nat, pick: string, emptied: bool)
    requires i < |s.threads| && Enabled(s, i, pick) && InStep(s.threads[i])
    requires s.threads[i].at.Trimming? || (s.threads[i].at.Sweeping? && s.threads[i].at.rest != map[])
    ensures ThreadWork(Take(s, i, pick, emptied).threads[i], MostHistories(s))
            < ThreadWork(s.threads[i], MostHistories(s))
  {
    var t := s.threads[i];
    if t.at.Sweeping? {
      MapSizes(t.at.rest, pick, 0);
      assert Take(s, i, pick, emptied).threads[i] == t.(at := Trimming(pick, t.at.rest[pick], t.at.rest - {pick}));
    } else {
      assert Take(s, i, pick, emptied).threads[i] == t.(at := Sweeping(t.at.rest));
    }
  }

  /** Every step uses up work, although a sweep that has not begun may yet meet histories that
      do not exist now. */
  lemma TakeUsesWork(s: System, i: nat, pick: string, emptied: bool)
    requires Consistent(s) && i < |s.threads| && Enabled(s, i, pick)
    ensures Work(Take(s, i, pick, emptied)) < Work(s)
  {
    var s' := Take(s, i, pick, emptied);
    MostHistoriesShrinks(s, i, pick, emptied);
    var at := s.threads[i].at;
    if at.Between? || at.Fetching? || at.Fetched? {
      LockStepUsesWork(s, i, pick, emptied);
    } else if at.Using? || (at.Sweeping? && at.rest == map[]) {
      ReleaseUsesWork(s, i, pick, emptied);
    } else {
      SweepStepUsesWork(s, i, pick, emptied);
    }
    ThreadChanges(s.threads, i, s'.threads[i], MostHistories(s));
    assert s'.threads == s.threads[i := s'.threads[i]];
    WorkMonotone(s'.threads, MostHistories(s'), MostHistories(s));
  }

  // ---------- Runs ----------

  datatype Move = Move(thread: nat, pick: string, emptied: bool)

  function RunOf(s: System, moves: seq<Move>): Option<System> {
    if moves == [] then Some(s) else
      var before, m := RunOf(s, moves[..|moves| - 1]), moves[|moves| - 1];
      if before.Some? && m.thread < |before.value.threads| && Enabled(before.value, m.thread, m.pick)
      then Some(Take(before.value, m.thread, m.pick, m.emptied)) else None
  }

  /** All threads start outside every lock with some histories already present. */
  function Start(histories: map<string, nat>, unused: nat, programs: seq<seq<Op>>): System {
    System(histories, unused, None, map[],
           seq(|programs|, i requires 0 <= i < |programs| => Thread(programs[i], Between)))
  }

  lemma {:induction false} RunConsistent(s: System, moves: seq<Move>)
    requires Consistent(s) && RunOf(s, moves).Some?
    ensures Consistent(RunOf(s, moves).value)
    ensures |moves| + Work(RunOf(s, moves).value) <= Work(s)
  {
    if moves != [] {
      var pre, m := moves[..|moves| - 1], moves[|moves| - 1];
      RunConsistent(s, pre);
      TakeKeepsConsistent(RunOf(s, pre).value, m.thread, m.pick, m.emptied);
      TakeUsesWork(RunOf(s, pre).value, m.thread, m.pick, m.emptied);
    }
  }

  /** Deadlock freedom and termination: whatever the programs and the schedule, a run can
      only be stuck when every thread has finished, and no run is longer than the initial work. */
  lemma NoDeadlock(histories: map<string, nat>, unused: nat, programs: seq<seq<Op>>, moves: seq<Move>)
    requires RunOf(Start(histories, unused, programs), moves).Some?
    ensures var s := RunOf(Start(histories, unused, programs), moves).value;
            || (forall i :: 0 <= i < |s.threads| ==> Done(s.threads[i]))
            || (exists i: nat, pick :: i < |s.threads| && Enabled(s, i, pick))
    ensures |moves| <= Work(Start(histories, unused, programs))
  {
    RunConsistent(Start(histories, unused, programs), moves);
    var s := RunOf(Start(histories, unused, programs), moves).value;
    if exists i :: 0 <= i < |s.threads| && !Done(s.threads[i]) {
      SomeoneCanStep(s);
    }
  }

  /** No two threads are ever inside the same history's section, nor both under the map lock. */
  lemma MutualExclusion(histories: map<string, nat>, unused: nat, programs: seq<seq<Op>>, moves: seq<Move>, i: nat,
                        j: nat)
    requires RunOf(Start(histories, unused, programs), moves).Some?
    requires i < j < |RunOf(Start(histories, unused, programs), moves).value.threads|
    ensures var s := RunOf(Start(histories, unused, programs), moves).value;
            && !(HoldsMap(s.threads[i]) && HoldsMap(s.threads[j]))
            && forall h: nat :: !(HoldsHistory(s.threads[i], h) && HoldsHistory(s.threads[j], h))
  {
    RunConsistent(Start(histories, unused, programs), moves);
    Exclusive(RunOf(Start(histories, unused, programs), moves).value, i, j);
  }

  lemma Exclusive(s: System, i: nat, j: nat)
    requires Consistent(s) && i < j < |s.threads|
    ensures !(HoldsMap(s.threads[i]) && HoldsMap(s.threads[j]))
    ensures forall h: nat :: !(HoldsHistory(s.threads[i], h) && HoldsHistory(s.threads[j], h))
  {
    forall h: nat | HoldsHistory(s.threads[i], h) ensures !HoldsHistory(s.threads[j], h) {
      assert s.held[h] == i;
    }
  }

  /** No race on the map of histories: in every run it is changed only by the holder of `ad.mu`,
      who either adds the key it fetches or removes a history it holds and found empty; and
      both always happen. */
  lemma MapIsGuarded(histories: map<string, nat>, unused: nat, programs: seq<seq<Op>>, moves: seq<Move>,
                     i: nat, pick: string, emptied: bool)
    requires RunOf(Start(histories, unused, programs), moves).Some?
    requires var s := RunOf(Start(histories, unused, programs), moves).value;
             i < |s.threads| && Enabled(s, i, pick)
    ensures var s := RunOf(Start(histories, unused, programs), moves).value;
            var t, s' := s.threads[i], Take(s, i, pick, emptied);
            && (s'.histories != s.histories ==> s.owner == Some(i) && (t.at.Fetching? || t.at.Trimming?))
            && (t.at.Fetching? ==> s'.histories.Keys == s.histories.Keys + {t.todo[0].key})
            && (t.at.Trimming? ==>
                  && t.at.h in s.held && s.held[t.at.h] == i
                  && s'.histories.Keys == if emptied then s.histories.Keys - {t.at.key} else s.histories.Keys)
  {
    RunConsistent(Start(histories, unused, programs), moves);
    var s := RunOf(Start(histories, unused, programs), moves).value;
    HoldersAre(s, i);
    if s.threads[i].at.Fetching? {
      FetchGrowsMap(s, i, pick, emptied);
    } else if s.threads[i].at.Trimming? {
      TrimShrinksMap(s, i, pick, emptied);
    } else {
      OthersKeepMap(s, i, pick, emptied);
    }
  }

  lemma HoldersAre(s: System, i: nat)
    requires Consistent(s) && i < |s.threads|
    ensures s.threads[i].at.Fetching? || s.threads[i].at.Trimming? ==> s.owner == Some(i)
    ensures s.threads[i].at.Trimming? ==> s.threads[i].at.h in s.held && s.held[s.threads[i].at.h] == i
    ensures InStep(s.threads[i])
  {
    if s.threads[i].at.Trimming? {
      assert HoldsHistory(s.threads[i], s.threads[i].at.h);
    }
  }

  lemma FetchGrowsMap(s: System, i: nat, pick: string, emptied: bool)
    requires i < |s.threads| && Enabled(s, i, pick) && s.threads[i].at.Fetching?
    ensures Take(s, i, pick, emptied).histories.Keys == s.histories.Keys + {s.threads[i].todo[0].key}
  {
  }

  lemma TrimShrinksMap(s: System, i: nat, pick: string, emptied: bool)
    requires i < |s.threads| && Enabled(s, i, pick) && s.threads[i].at.Trimming?
    ensures Take(s, i, pick, emptied).histories.Keys
            == if emptied then s.histories.Keys - {s.threads[i].at.key} else s.histories.Keys
  {
  }

  lemma OthersKeepMap(s: System, i: nat, pick: string, emptied: bool)
    requires i < |s.threads| && Enabled(s, i, pick) && !s.threads[i].at.Fetching? && !s.threads[i].at.Trimming?
    ensures Take(s, i, pick, emptied).histories == s.histories
  {
  }

  // ---------- The programs are those of the detector ----------

  /** The history a check fetches, if it looks at one. */
  function FetchedFor(q: D.Info, tenant: string, check: D.Check): seq<string> {
    var touched := D.StoreAfterCheck(map[], q, tenant, check);
    var own, vel := D.SourceKey(tenant, q.clientIP), D.VelocityKey(q.clientIP);
    if own in touched then [own] else if vel in touched then [vel] else []
  }

  /** The histories the first `n` checks of a request fetch, in order. */
  function FetchedBy(q: D.Info, tenant: string, n: nat): seq<string>
    requires n <= |D.CHECKS|
  {
    if n == 0 then [] else FetchedBy(q, tenant, n - 1) + FetchedFor(q, tenant, D.CHECKS[n - 1])
  }

  function KeysUsed(ops: seq<Op>): seq<string> {
    if ops == [] then [] else
      var op := ops[|ops| - 1];
      KeysUsed(ops[..|ops| - 1]) + if op.Use? then [op.key] else []
  }

  /** A `Detect` thread fetches the histories its nine checks look at, in their order, and then
      the one it tracks in. */
  lemma DetectProgramMatches(q: D.Info, tenant: string)
    ensures KeysUsed(ProgramOf(DetectJob(D.SourceKey(tenant, q.clientIP), D.VelocityKey(q.clientIP))))
            == FetchedBy(q, tenant, |D.CHECKS|) + [D.SourceKey(tenant, q.clientIP)]
  {
    var own, vel := D.SourceKey(tenant, q.clientIP), D.VelocityKey(q.clientIP);
    ProgramKeys(own, vel);
    FetchedInTurn(q, tenant);
  }

  lemma ThreeChecks(q: D.Info, tenant: string, n: nat)
    requires 3 <= n <= |D.CHECKS|
    ensures FetchedBy(q, tenant, n) ==
            FetchedBy(q, tenant, n - 3) + FetchedFor(q, tenant, D.CHECKS[n - 3])
            + FetchedFor(q, tenant, D.CHECKS[n - 2]) + FetchedFor(q, tenant, D.CHECKS[n - 1])
  {
    assert FetchedBy(q, tenant, n - 2) == FetchedBy(q, tenant, n - 3) + FetchedFor(q, tenant, D.CHECKS[n - 3]);
  }

  lemma ChecksFetch(q: D.Info, tenant: string, check: D.Check)
    ensures FetchedFor(q, tenant, check) ==
            if check.RateLimit? || check.HttpMethods? || check.BotPatterns? then [D.SourceKey(tenant, q.clientIP)]
            else if check.Velocity? then [D.VelocityKey(q.clientIP)]
            else []
  {
  }

  lemma FetchedInTurn(q: D.Info, tenant: string)
    ensures var own, vel := D.SourceKey(tenant, q.clientIP), D.VelocityKey(q.clientIP);
            FetchedBy(q, tenant, |D.CHECKS|) == [own] + [vel] + [own] + [own]
  {
    FirstChecks(q, tenant);
    MiddleChecks(q, tenant);
    ThreeChecks(q, tenant, 9);
    ChecksFetch(q, tenant, D.HttpMethods);
    ChecksFetch(q, tenant, D.PathTraversal);
    ChecksFetch(q, tenant, D.BotPatterns);
  }

  lemma FirstChecks(q: D.Info, tenant: string)
    ensures FetchedBy(q, tenant, 3) == []
  {
    ThreeChecks(q, tenant, 3);
    ChecksFetch(q, tenant, D.RequestSize);
    ChecksFetch(q, tenant, D.SuspiciousHeaders);
    ChecksFetch(q, tenant, D.PayloadInjection);
  }

  lemma MiddleChecks(q: D.Info, tenant: string)
    ensures FetchedBy(q, tenant, 6) == [D.SourceKey(tenant, q.clientIP)] + [D.VelocityKey(q.clientIP)]
  {
    FirstChecks(q, tenant);
    ThreeChecks(q, tenant, 6);
    ChecksFetch(q, tenant, D.RateLimit);
    ChecksFetch(q, tenant, D.Velocity);
    ChecksFetch(q, tenant, D.UserAgent);
  }

  lemma ProgramKeys(key: string, velocity: string)
    ensures KeysUsed(ProgramOf(DetectJob(key, velocity))) == [key] + [velocity] + [key] + [key] + [key]
  {
    var two := [Use(key), Use(velocity)];
    KeysUsedSnoc([], key);
    KeysUsedSnoc([Use(key)], velocity);
    KeysUsedSnoc(two, key);
    KeysUsedSnoc(two + [Use(key)], key);
    KeysUsedSnoc(two + [Use(key)] + [Use(key)], key);
    assert [] + [Use(key)] == [Use(key)] && [Use(key)] + [Use(velocity)] == two;
    assert two + [Use(key)] + [Use(key)] + [Use(key)] == ProgramOf(DetectJob(key, velocity));
  }

  lemma KeysUsedSnoc(ops: seq<Op>, key: string)
    ensures KeysUsed(ops + [Use(key)]) == KeysUsed(ops) + [key]
  {
    assert (ops + [Use(key)])[..|ops|] == ops;
  }

  /** Any number of Detect, TrackFailedAuth and CleanupOldData calls side by side: until all
      have returned, some thread can always step, and all have returned after finitely many steps. */
  lemma DetectorNeverDeadlocks(histories: map<string, nat>, unused: nat, jobs: seq<Job>, moves: seq<Move>)
    requires RunOf(JobsStart(histories, unused, jobs), moves).Some?
    ensures var s := RunOf(JobsStart(histories, unused, jobs), moves).value;
            || (forall i :: 0 <= i < |s.threads| ==> Done(s.threads[i]))
            || (exists i: nat, pick :: i < |s.threads| && Enabled(s, i, pick))
    ensures |moves| <= Work(JobsStart(histories, unused, jobs))
  {
    NoDeadlock(histories, unused, Programs(jobs), moves);
  }

  function Programs(jobs: seq<Job>): seq<seq<Op>> {
    seq(|jobs|, i requires 0 <= i < |jobs| => ProgramOf(jobs[i]))
  }

  function JobsStart(histories: map<string, nat>, unused: nat, jobs: seq<Job>): System {
    Start(histories, unused, Programs(jobs))
  }
}
