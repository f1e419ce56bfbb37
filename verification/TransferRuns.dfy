/** Whole runs of interleaved transfers: alone they behave like handleTransfer, the overdraft
    bound is reached, and tenants do not influence one another. */
module TransferRuns {
  import opened Common
  import opened Accounts
  import opened Transfer
  import opened TransferSteps

  lemma {:induction false} RunAppend(s: System, a: seq<nat>, b: seq<nat>)
    ensures Run(s, a + b) == Run(Run(s, a), b)
  {
    if b == [] {
      assert a + b == a;
    } else {
      assert (a + b)[..|a + b| - 1] == a + b[..|b| - 1];
      RunAppend(s, a, b[..|b| - 1]);
    }
  }

  lemma RunSnoc(s: System, a: seq<nat>, i: nat)
    ensures Run(s, a + [i]) == Step(Run(s, a), i)
  {
    assert (a + [i])[..|a|] == a;
  }

  /** The moves of the checks, and of the payment, of one handler. */
  function CheckMoves(i: nat): seq<nat> {
    [i, i, i, i]
  }

  function PayMoves(i: nat): seq<nat> {
    [i, i, i, i, i, i]
  }

  lemma RunChecks(s: System, i: nat, s1: System, s2: System, s3: System, s4: System)
    requires s1 == Step(s, i) && s2 == Step(s1, i) && s3 == Step(s2, i) && s4 == Step(s3, i)
    ensures Run(s, CheckMoves(i)) == s4
  {
    RunSnoc(s, [], i);
    RunSnoc(s, [i], i);
    RunSnoc(s, [i, i], i);
    RunSnoc(s, [i, i, i], i);
    assert [] + [i] == [i] && [i] + [i] == [i, i] && [i, i] + [i] == [i, i, i] && [i, i, i] + [i] == CheckMoves(i);
  }

  lemma RunPays(s: System, i: nat, s1: System, s2: System, s3: System, s4: System, s5: System, s6: System)
    requires s1 == Step(s, i) && s2 == Step(s1, i) && s3 == Step(s2, i)
    requires s4 == Step(s3, i) && s5 == Step(s4, i) && s6 == Step(s5, i)
    ensures Run(s, PayMoves(i)) == s6
  {
    RunChecks(s, i, s1, s2, s3, s4);
    RunSnoc(s, CheckMoves(i), i);
    RunSnoc(s, CheckMoves(i) + [i], i);
    assert CheckMoves(i) + [i] + [i] == PayMoves(i);
  }

  // ---------- A transfer on its own ----------

  /** No lock is held. */
  predicate Unlocked(s: System) {
    s.writer == None && s.readers == {}
  }

  /** Handler `i` with its place changed. */
  function Placed(s: System, i: nat, at: At): System
    requires i < |s.handlers|
  {
    s.(handlers := MovedTo(s, i, at))
  }

  /** Undisturbed, the checks take four moves and give handleTransfer's answer. */
  lemma ChecksAlone(s: System, i: nat)
    requires i < |s.handlers| && Unlocked(s) && s.handlers[i].at == Arrived
    ensures var c := s.handlers[i].call;
            var answer := Answer(s.book, c.tenant, c.request);
            Run(s, CheckMoves(i)) == Placed(s, i, if answer == Completed then Approved else Done(answer))
  {
    var s1 := Step(s, i);
    assert s1 == Placed(s, i, Reading).(readers := {i});
    var s2 := Step(s1, i);
    assert s2 == Placed(s, i, Looked);
    var s3, s4 := Step(s2, i), Step(Step(s2, i), i);
    LookedAlone(s, i);
    RunChecks(s, i, s1, s2, s3, s4);
  }

  lemma LookedAlone(s: System, i: nat)
    requires i < |s.handlers|
    ensures var c := s.handlers[i].call;
            var answer := Answer(s.book, c.tenant, c.request);
            Step(Step(Placed(s, i, Looked), i), i)
            == Placed(s, i, if answer == Completed then Approved else Done(answer))
  {
    var c := s.handlers[i].call;
    var answer := Answer(s.book, c.tenant, c.request);
    var s3 := Step(Placed(s, i, Looked), i);
    if answer == Completed || answer == InsufficientBalance {
      assert s3 == Placed(s, i, Validated);
    } else {
      assert s3 == Placed(s, i, Done(answer));
    }
  }

  /** The book after the debit and the credit. */
  function Paid(b: Book, r: Request): Book
    requires r.from in b && r.to in b
  {
    AddTo(AddTo(b, r.from, -r.amount), r.to, r.amount)
  }

  lemma DebitsAlone(s: System, i: nat)
    requires i < |s.handlers| && Unlocked(s) && s.handlers[i].at == Approved
             && s.handlers[i].call.request.from in s.book
    ensures var r := s.handlers[i].call.request;
            && Step(s, i) == Placed(s, i, Writing).(writer := Some(i))
            && Step(Step(s, i), i) == Placed(s, i, LoadedFrom(s.book[r.from].balance)).(writer := Some(i))
            && Step(Step(Step(s, i), i), i)
               == Placed(s, i, Debited).(writer := Some(i), book := AddTo(s.book, r.from, -r.amount))
  {
    var s1 := Step(s, i);
    assert s1 == Placed(s, i, Writing).(writer := Some(i));
    var s2 := Step(s1, i);
    assert s2 == Placed(s, i, LoadedFrom(s.book[s.handlers[i].call.request.from].balance)).(writer := Some(i));
  }

  lemma CreditsAlone(s: System, i: nat)
    requires i < |s.handlers| && s.handlers[i].at == Debited && s.handlers[i].call.request.to in s.book
    ensures var r := s.handlers[i].call.request;
            && Step(s, i) == Placed(s, i, LoadedTo(s.book[r.to].balance))
            && Step(Step(s, i), i) == Placed(s, i, Credited).(book := AddTo(s.book, r.to, r.amount))
            && Step(Step(Step(s, i), i), i)
               == Placed(s, i, Done(Completed)).(writer := None, book := AddTo(s.book, r.to, r.amount))
  {
    var r := s.handlers[i].call.request;
    var s1 := Step(s, i);
    assert s1 == Placed(s, i, LoadedTo(s.book[r.to].balance));
    var s2 := Step(s1, i);
    assert s2 == Placed(s, i, Credited).(book := AddTo(s.book, r.to, r.amount));
  }

  /** Undisturbed, an approved transfer takes six moves to pay. */
  lemma PaysAlone(s: System, i: nat)
    requires i < |s.handlers| && Unlocked(s) && s.handlers[i].at == Approved
    requires s.handlers[i].call.request.from in s.book && s.handlers[i].call.request.to in s.book
    ensures Run(s, PayMoves(i)) == Placed(s, i, Done(Completed)).(book := Paid(s.book, s.handlers[i].call.request))
  {
    DebitsAlone(s, i);
    var s1, s2, s3 := Step(s, i), Step(Step(s, i), i), Step(Step(Step(s, i), i), i);
    CreditsFollow(s, i, s3);
    RunPays(s, i, s1, s2, s3, Step(s3, i), Step(Step(s3, i), i), Step(Step(Step(s3, i), i), i));
  }

  lemma CreditsFollow(s: System, i: nat, debited: System)
    requires i < |s.handlers| && s.writer == None
    requires s.handlers[i].call.request.from in s.book && s.handlers[i].call.request.to in s.book
    requires var r := s.handlers[i].call.request;
             debited == Placed(s, i, Debited).(writer := Some(i), book := AddTo(s.book, r.from, -r.amount))
    ensures Step(Step(Step(debited, i), i), i)
            == Placed(s, i, Done(Completed)).(book := Paid(s.book, s.handlers[i].call.request))
  {
    CreditsAlone(debited, i);
  }

  /** One handler after the other, ten moves each. */
  function OneByOne(n: nat): seq<nat> {
    if n == 0 then [] else OneByOne(n - 1) + (CheckMoves(n - 1) + PayMoves(n - 1))
  }

  lemma AloneIsHandleTransfer(s: System, i: nat)
    requires i < |s.handlers| && Unlocked(s) && s.handlers[i].at == Arrived
    ensures var c := s.handlers[i].call;
            Run(s, CheckMoves(i) + PayMoves(i)) ==
            Placed(s, i, Done(Answer(s.book, c.tenant, c.request))).(book := Moved(s.book, c.tenant, c.request))
  {
    RunAppend(s, CheckMoves(i), PayMoves(i));
    ChecksAlone(s, i);
    var s4 := Run(s, CheckMoves(i));
    var c := s.handlers[i].call;
    if Answer(s.book, c.tenant, c.request) == Completed {
      PaysAlone(s4, i);
    } else {
      RunPays(s4, i, s4, s4, s4, s4, s4, s4);
    }
  }

  /** The first `n` handlers have answered and paid as in the sequential run, the rest wait. */
  ghost predicate Served(s: System, book: Book, calls: seq<Call>, n: nat)
    requires n <= |calls|
  {
    && Unlocked(s) && |s.handlers| == |calls| && s.book == BookAfter(book, calls[..n])
    && (forall i :: n <= i < |calls| ==> s.handlers[i] == Handler(calls[i], Arrived))
    && (forall i :: 0 <= i < n ==>
          s.handlers[i]
          == Handler(calls[i], Done(Answer(BookAfter(book, calls[..i]), calls[i].tenant, calls[i].request))))
  }

  lemma ServeOne(s: System, book: Book, calls: seq<Call>, n: nat)
    requires n < |calls| && Served(s, book, calls, n)
    ensures Served(Run(s, CheckMoves(n) + PayMoves(n)), book, calls, n + 1)
  {
    AloneIsHandleTransfer(s, n);
    assert calls[..n + 1][..n] == calls[..n];
  }

  /** Scheduled one after the other, the micro-steps compute exactly the sequential run. */
  lemma {:induction false} SerialIsSequential(book: Book, calls: seq<Call>, n: nat)
    requires n <= |calls|
    ensures Served(Run(Start(book, calls), OneByOne(n)), book, calls, n)
  {
    if n > 0 {
      SerialIsSequential(book, calls, n - 1);
      RunAppend(Start(book, calls), OneByOne(n - 1), CheckMoves(n - 1) + PayMoves(n - 1));
      ServeOne(Run(Start(book, calls), OneByOne(n - 1)), book, calls, n - 1);
    }
  }

  // ---------- The overdraft bound is reached ----------

  /** k transfers of the whole balance, all checked before any is paid. */
  function Rush(k: nat, amount: real): seq<Call> {
    seq(k, _ => Call("t", Request("a", "b", amount)))
  }

  function RushBook(a: real, b: real): Book {
    map["a" := Holding("t", a), "b" := Holding("t", b)]
  }

  /** The state when the first `checked` handlers are past their checks and the first `paid` have paid. */
  ghost predicate Rushed(s: System, k: nat, amount: real, checked: nat, paid: nat) {
    && Unlocked(s) && |s.handlers| == k && paid <= checked <= k
    && s.book == RushBook(amount - paid as real * amount, paid as real * amount)
    && forall i :: 0 <= i < k ==>
         s.handlers[i] == Handler(Call("t", Request("a", "b", amount)),
                                  if i < paid then Done(Completed) else if i < checked then Approved else Arrived)
  }

  lemma RushChecks(s: System, k: nat, amount: real, checked: nat)
    requires 0.0 < amount && checked < k && Rushed(s, k, amount, checked, 0)
    ensures Rushed(Run(s, CheckMoves(checked)), k, amount, checked + 1, 0)
  {
    ChecksAlone(s, checked);
  }

  lemma RushPaid(a: real, b: real, amount: real)
    ensures Paid(RushBook(a, b), Request("a", "b", amount)) == RushBook(a - amount, b + amount)
  {
  }

  lemma RushPays(s: System, k: nat, amount: real, paid: nat)
    requires 0.0 < amount && paid < k && Rushed(s, k, amount, k, paid)
    ensures Rushed(Run(s, PayMoves(paid)), k, amount, k, paid + 1)
  {
    PaysAlone(s, paid);
    RushPaid(amount - paid as real * amount, paid as real * amount, amount);
    var was, now := paid as real * amount, (paid + 1) as real * amount;
    assert now == was + amount by {
      assert (paid + 1) as real == paid as real + 1.0;
    }
    assert amount - was - amount == amount - now;
    assert Run(s, PayMoves(paid)).book == Paid(RushBook(amount - was, was), Request("a", "b", amount));
  }

  lemma {:induction false} RushRun(k: nat, amount: real, checked: nat, paid: nat) returns (schedule: seq<nat>)
    requires 0.0 < amount && paid <= checked <= k && (paid > 0 ==> checked == k)
    ensures Rushed(Run(Start(RushBook(amount, 0.0), Rush(k, amount)), schedule), k, amount, checked, paid)
    decreases checked, paid
  {
    var start := Start(RushBook(amount, 0.0), Rush(k, amount));
    if paid > 0 {
      var before := RushRun(k, amount, checked, paid - 1);
      RushPays(Run(start, before), k, amount, paid - 1);
      RunAppend(start, before, PayMoves(paid - 1));
      schedule := before + PayMoves(paid - 1);
    } else if checked > 0 {
      var before := RushRun(k, amount, checked - 1, 0);
      RushChecks(Run(start, before), k, amount, checked - 1);
      RunAppend(start, before, CheckMoves(checked - 1));
      schedule := before + CheckMoves(checked - 1);
    } else {
      schedule := [];
    }
  }

  lemma {:induction false} AtMostAll(hs: seq<Handler>, key: string)
    ensures Sum(hs, PendingOne(key)) <= |hs| as real
  {
    if hs != [] {
      AtMostAll(hs[1..], key);
    }
  }

  lemma {:induction false} AlwaysWithin(s: System, schedule: seq<nat>, key: string)
    ensures |Run(s, schedule).handlers| == |s.handlers| && PendingWithin(s, schedule, key, |s.handlers|)
  {
    if schedule != [] {
      AlwaysWithin(s, schedule[..|schedule| - 1], key);
      StepMovesOne(Run(s, schedule[..|schedule| - 1]), schedule[|schedule| - 1]);
    }
    AtMostAll(Run(s, schedule).handlers, key);
  }

  /** For every k and every amount there is a run with at most k pending debits, each of that
      amount, that takes an account without debt down to exactly -(k - 1) * amount: with two
      requests in flight the balance check does not prevent a negative balance. */
  lemma OverdraftAttained(k: nat, amount: real)
    requires 1 <= k && 0.0 < amount
    ensures var start := Start(RushBook(amount, 0.0), Rush(k, amount));
            exists schedule ::
              && PendingWithin(start, schedule, "a", k)
              && Load(Run(start, schedule).book, "a") == -((k as real - 1.0) * amount)
  {
    var start := Start(RushBook(amount, 0.0), Rush(k, amount));
    var schedule := RushRun(k, amount, k, k);
    AlwaysWithin(start, schedule, "a");
    assert amount - k as real * amount == -((k as real - 1.0) * amount);
    assert PendingWithin(start, schedule, "a", k);
  }

  // ---------- Tenants do not influence one another ----------

  /** The moves of tenant `t`'s handlers that were not blocked. */
  function OwnMoves(s: System, schedule: seq<nat>, t: string): seq<nat> {
    if schedule == [] then [] else
      var pre, i := schedule[..|schedule| - 1], schedule[|schedule| - 1];
      if Enabled(Run(s, pre), i) && Run(s, pre).handlers[i].call.tenant == t
      then OwnMoves(s, pre, t) + [i] else OwnMoves(s, pre, t)
  }

  /** Two systems in which tenant `t` sees the same thing; `own` holds only `t`'s locks. */
  ghost predicate Mirrors(all: System, own: System, t: string) {
    && AgreeOn(all.book, own.book, t)
    && |all.handlers| == |own.handlers|
    && (forall i :: 0 <= i < |all.handlers| ==> all.handlers[i].call == own.handlers[i].call)
    && (forall i :: 0 <= i < |all.handlers| && all.handlers[i].call.tenant == t ==>
          all.handlers[i].at == own.handlers[i].at)
    && (own.writer.Some? ==> own.writer == all.writer && own.writer.value < |own.handlers|
                             && own.handlers[own.writer.value].call.tenant == t)
    && own.readers <= all.readers
    && (forall i :: i in own.readers ==> i < |own.handlers| && own.handlers[i].call.tenant == t)
  }

  lemma OtherMoveMirrored(all: System, own: System, t: string, i: nat)
    requires Sound(all) && Mirrors(all, own, t)
    requires Enabled(all, i) && all.handlers[i].call.tenant != t
    ensures Mirrors(Step(all, i), own, t)
  {
    StepMovesOne(all, i);
  }

  lemma OwnLockMirrored(all: System, own: System, t: string, i: nat)
    requires Sound(all) && Mirrors(all, own, t)
    requires Enabled(all, i) && all.handlers[i].call.tenant == t
    requires var at := all.handlers[i].at; at.Arrived? || at.Reading? || at.Approved? || at.Credited?
    ensures Enabled(own, i) && Mirrors(Step(all, i), Step(own, i), t)
  {
    StepMovesOne(all, i);
    StepMovesOne(own, i);
  }

  lemma OwnCheckMirrored(all: System, own: System, t: string, i: nat)
    requires Sound(all) && Mirrors(all, own, t)
    requires Enabled(all, i) && all.handlers[i].call.tenant == t
    requires var at := all.handlers[i].at; at.Looked? || at.Validated? || at.Writing? || at.Debited?
    ensures Enabled(own, i) && Mirrors(Step(all, i), Step(own, i), t)
  {
    StepMovesOne(all, i);
    StepMovesOne(own, i);
  }

  lemma OwnStoreMirrored(all: System, own: System, t: string, i: nat)
    requires Sound(all) && Mirrors(all, own, t)
    requires Enabled(all, i) && all.handlers[i].call.tenant == t
    requires var at := all.handlers[i].at; at.LoadedFrom? || at.LoadedTo?
    ensures Enabled(own, i) && Mirrors(Step(all, i), Step(own, i), t)
  {
    StepMovesOne(all, i);
    StepMovesOne(own, i);
  }

  lemma OwnMoveMirrored(all: System, own: System, t: string, i: nat)
    requires Sound(all) && Mirrors(all, own, t)
    requires Enabled(all, i) && all.handlers[i].call.tenant == t
    ensures Enabled(own, i) && Mirrors(Step(all, i), Step(own, i), t)
  {
    var at := all.handlers[i].at;
    if at.LoadedFrom? || at.LoadedTo? {
      OwnStoreMirrored(all, own, t, i);
    } else if at.Looked? || at.Validated? || at.Writing? || at.Debited? {
      OwnCheckMirrored(all, own, t, i);
    } else {
      OwnLockMirrored(all, own, t, i);
    }
  }

  /** Whatever the interleaving, a tenant's statuses and balances are those of a run in which
      only that tenant's transfers move: nothing another tenant does can be observed. */
  lemma {:induction false} InterleavedNonInterference(book: Book, calls: seq<Call>, schedule: seq<nat>, t: string)
    ensures Mirrors(Run(Start(book, calls), schedule),
                    Run(Start(book, calls), OwnMoves(Start(book, calls), schedule, t)), t)
  {
    var start := Start(book, calls);
    if schedule != [] {
      var pre, i := schedule[..|schedule| - 1], schedule[|schedule| - 1];
      InterleavedNonInterference(book, calls, pre, t);
      StartSound(book, calls);
      RunSound(start, pre);
      var all, moves := Run(start, pre), OwnMoves(start, pre, t);
      if Enabled(all, i) {
        if all.handlers[i].call.tenant == t {
          OwnMoveMirrored(all, Run(start, moves), t, i);
          assert (moves + [i])[..|moves|] == moves;
        } else {
          OtherMoveMirrored(all, Run(start, moves), t, i);
        }
      }
    }
  }
}
