/** Any number of transfers side by side, one micro-step at a time.

    The account map never changes, so an account pointer is named by its key; distinct keys
    hold distinct objects, and from and to may be the same account. Each single read or write
    of a balance is atomic; the subtraction and the addition are a read and a later write. The
    tenant, amount and balance checks hold no lock, the debit and credit hold the write lock. */
module TransferSteps {
  import opened Common
  import opened Accounts
  import opened Transfer

  datatype At =
    | Arrived                   // wants the read lock
    | Reading                   // holds the read lock, looks both accounts up
    | Looked                    // no lock; not-found, tenant and amount checks are due
    | Validated                 // no lock; the balance check is due
    | Approved                  // passed every check; wants the write lock
    | Writing                   // holds the write lock
    | LoadedFrom(seen: real)    // read the sender's balance
    | Debited                   // wrote the sender's balance
    | LoadedTo(seen: real)      // read the receiver's balance
    | Credited                  // wrote the receiver's balance
    | Done(status: Status)

  datatype Handler = Handler(call: Call, at: At)

  datatype System = System(book: Book, handlers: seq<Handler>, writer: Option<nat>, readers: set<nat>)

  /** Handler `i` is not finished and not waiting for a lock. */
  predicate Enabled(s: System, i: nat) {
    i < |s.handlers| &&
    match s.handlers[i].at
    case Arrived => s.writer == None
    case Approved => s.writer == None && s.readers == {}
    case Done(_) => false
    case _ => true
  }

  function MovedTo(s: System, i: nat, at: At): seq<Handler>
    requires i < |s.handlers|
  {
    s.handlers[i := s.handlers[i].(at := at)]
  }

  /** Setting a balance; storing to an account that is not there cannot happen. */
  function Store(b: Book, key: string, balance: real): Book {
    if key in b then b[key := b[key].(balance := balance)] else b
  }

  function Load(b: Book, key: string): real {
    if key in b then b[key].balance else 0.0
  }

  /** The next step of handler `i`; a handler that is blocked or finished stays put. */
  function Step(s: System, i: nat): System {
    if !Enabled(s, i) then s else
      var call := s.handlers[i].call;
      var r := call.request;
      match s.handlers[i].at
      case Arrived => s.(readers := s.readers + {i}, handlers := MovedTo(s, i, Reading))
      case Reading => s.(readers := s.readers - {i}, handlers := MovedTo(s, i, Looked))
      case Looked =>
        s.(handlers := MovedTo(s, i,
             if r.from !in s.book || r.to !in s.book then Done(AccountNotFound)
             else if s.book[r.from].tenant != call.tenant || s.book[r.to].tenant != call.tenant
             then Done(AccessDenied)
             else if r.amount <= 0.0 then Done(InvalidAmount)
             else Validated))
      case Validated =>
        s.(handlers := MovedTo(s, i, if Load(s.book, r.from) < r.amount then Done(InsufficientBalance) else Approved))
      case Approved => s.(writer := Some(i), handlers := MovedTo(s, i, Writing))
      case Writing => s.(handlers := MovedTo(s, i, LoadedFrom(Load(s.book, r.from))))
      case LoadedFrom(seen) => s.(book := Store(s.book, r.from, seen - r.amount), handlers := MovedTo(s, i, Debited))
      case Debited => s.(handlers := MovedTo(s, i, LoadedTo(Load(s.book, r.to))))
      case LoadedTo(seen) => s.(book := Store(s.book, r.to, seen + r.amount), handlers := MovedTo(s, i, Credited))
      case Credited => s.(writer := None, handlers := MovedTo(s, i, Done(Completed)))
      case Done(_) => s
  }

  /** A schedule names the handler that moves at each moment. */
  function Run(s: System, schedule: seq<nat>): System {
    if schedule == [] then s else Step(Run(s, schedule[..|schedule| - 1]), schedule[|schedule| - 1])
  }

  function Start(book: Book, calls: seq<Call>): System {
    System(book, seq(|calls|, i requires 0 <= i < |calls| => Handler(calls[i], Arrived)), None, {})
  }

  // ---------- Invariant ----------

  predicate Cleared(at: At) {
    at.Validated? || at.Approved? || HoldsWriteLock(at) || at == Done(Completed)
  }

  predicate HoldsWriteLock(at: At) {
    at.Writing? || at.LoadedFrom? || at.Debited? || at.LoadedTo? || at.Credited?
  }

  /** A handler past its checks works on two accounts of its own tenant. */
  predicate OwnAccounts(b: Book, c: Call) {
    && c.request.from in b && b[c.request.from].tenant == c.tenant
    && c.request.to in b && b[c.request.to].tenant == c.tenant
    && 0.0 < c.request.amount
  }

  /** What a loaded balance is worth: nobody else has written since. */
  predicate Current(b: Book, h: Handler) {
    && (h.at.LoadedFrom? ==> h.at.seen == Load(b, h.call.request.from))
    && (h.at.LoadedTo? ==> h.at.seen == Load(b, h.call.request.to))
  }

  ghost predicate Sound(s: System) {
    && (forall i :: 0 <= i < |s.handlers| ==>
          && (Cleared(s.handlers[i].at) ==> OwnAccounts(s.book, s.handlers[i].call))
          && (HoldsWriteLock(s.handlers[i].at) <==> s.writer == Some(i))
          && (s.handlers[i].at.Reading? <==> i in s.readers)
          && Current(s.book, s.handlers[i]))
    && (s.writer.Some? ==> s.writer.value < |s.handlers| && s.readers == {})
    && (forall i :: i in s.readers ==> i < |s.handlers|)
  }

  /** The accounts and their tenants. */
  ghost predicate SameAccounts(a: Book, b: Book) {
    a.Keys == b.Keys && forall key :: key in a ==> a[key].tenant == b[key].tenant
  }

  lemma LockStepKeepsSound(s: System, i: nat)
    requires Sound(s) && Enabled(s, i)
    requires var at := s.handlers[i].at; at.Arrived? || at.Reading? || at.Approved? || at.Credited?
    ensures Sound(Step(s, i)) && SameAccounts(s.book, Step(s, i).book)
  {
    StepMovesOne(s, i);
  }

  lemma CheckStepKeepsSound(s: System, i: nat)
    requires Sound(s) && Enabled(s, i)
    requires var at := s.handlers[i].at; at.Looked? || at.Validated? || at.Writing? || at.Debited?
    ensures Sound(Step(s, i)) && SameAccounts(s.book, Step(s, i).book)
  {
    StepMovesOne(s, i);
  }

  lemma StoreStepKeepsSound(s: System, i: nat)
    requires Sound(s) && Enabled(s, i)
    requires var at := s.handlers[i].at; at.LoadedFrom? || at.LoadedTo?
    ensures Sound(Step(s, i)) && SameAccounts(s.book, Step(s, i).book)
  {
    StepMovesOne(s, i);
  }

  lemma StepKeepsSound(s: System, i: nat)
    requires Sound(s)
    ensures Sound(Step(s, i)) && SameAccounts(s.book, Step(s, i).book)
  {
    if Enabled(s, i) {
      var at := s.handlers[i].at;
      if at.LoadedFrom? || at.LoadedTo? {
        StoreStepKeepsSound(s, i);
      } else if at.Looked? || at.Validated? || at.Writing? || at.Debited? {
        CheckStepKeepsSound(s, i);
      } else {
        LockStepKeepsSound(s, i);
      }
    }
  }

  /** A step changes at most the handler that moves, and never what it was asked. */
  lemma StepMovesOne(s: System, i: nat)
    ensures var s' := Step(s, i);
            && |s'.handlers| == |s.handlers|
            && (i < |s.handlers| ==>
                  s'.handlers == s.handlers[i := s'.handlers[i]] && s'.handlers[i].call == s.handlers[i].call)
            && (i >= |s.handlers| ==> s' == s)
  {
  }

  lemma StartSound(book: Book, calls: seq<Call>)
    ensures Sound(Start(book, calls))
  {
  }

  lemma {:induction false} RunSound(s: System, schedule: seq<nat>)
    requires Sound(s)
    ensures Sound(Run(s, schedule)) && SameAccounts(s.book, Run(s, schedule).book)
    ensures |Run(s, schedule).handlers| == |s.handlers|
    ensures forall i :: 0 <= i < |s.handlers| ==> Run(s, schedule).handlers[i].call == s.handlers[i].call
  {
    if schedule != [] {
      var pre, i := schedule[..|schedule| - 1], schedule[|schedule| - 1];
      RunSound(s, pre);
      StepKeepsSound(Run(s, pre), i);
      StepMovesOne(Run(s, pre), i);
    }
  }

  /** In every interleaving at most one handler is between debit and credit, the two halves
      happen under the write lock, and nobody reads the map meanwhile. */
  lemma WriterIsAlone(book: Book, calls: seq<Call>, schedule: seq<nat>, i: nat, j: nat)
    requires i < |calls| && j < |calls| && i != j
    ensures var s := Run(Start(book, calls), schedule);
            |s.handlers| == |calls| &&
            (HoldsWriteLock(s.handlers[i].at) ==> !HoldsWriteLock(s.handlers[j].at) && !s.handlers[j].at.Reading?)
  {
    StartSound(book, calls);
    RunSound(Start(book, calls), schedule);
  }

  /** While some transfer is unfinished, some transfer can move. */
  lemma SomeoneCanMove(s: System)
    requires Sound(s)
    requires exists i :: 0 <= i < |s.handlers| && !s.handlers[i].at.Done?
    ensures exists i: nat :: Enabled(s, i)
  {
    if s.writer.Some? {
      assert HoldsWriteLock(s.handlers[s.writer.value].at);
      assert Enabled(s, s.writer.value);
    } else if i :| i in s.readers {
      assert Enabled(s, i);
    } else {
      var i: nat :| i < |s.handlers| && !s.handlers[i].at.Done?;
      assert Enabled(s, i);
    }
  }

  // ---------- Every transfer finishes ----------

  /** Moves a handler has left, at most. */
  function MovesLeft(at: At): nat {
    match at
    case Arrived => 10
    case Reading => 9
    case Looked => 8
    case Validated => 7
    case Approved => 6
    case Writing => 5
    case LoadedFrom(_) => 4
    case Debited => 3
    case LoadedTo(_) => 2
    case Credited => 1
    case Done(_) => 0
  }

  function AllMovesLeft(hs: seq<Handler>): nat {
    if hs == [] then 0 else AllMovesLeft(hs[..|hs| - 1]) + MovesLeft(hs[|hs| - 1].at)
  }

  lemma {:induction false} MovesLeftUpdate(hs: seq<Handler>, i: nat, h: Handler)
    requires i < |hs|
    ensures AllMovesLeft(hs[i := h]) + MovesLeft(hs[i].at) == AllMovesLeft(hs) + MovesLeft(h.at)
  {
    var pre := hs[..|hs| - 1];
    if i == |hs| - 1 {
      assert hs[i := h][..i] == pre;
    } else {
      MovesLeftUpdate(pre, i, h);
      assert hs[i := h][..|hs| - 1] == pre[i := h];
    }
  }

  lemma {:induction false} MovesLeftAtStart(book: Book, calls: seq<Call>)
    ensures AllMovesLeft(Start(book, calls).handlers) == 10 * |calls|
  {
    if calls != [] {
      MovesLeftAtStart(book, calls[..|calls| - 1]);
      assert Start(book, calls).handlers[..|calls| - 1] == Start(book, calls[..|calls| - 1]).handlers;
    }
  }

  lemma StepUsesMove(s: System, i: nat)
    requires Enabled(s, i)
    ensures MovesLeft(Step(s, i).handlers[i].at) < MovesLeft(s.handlers[i].at)
  {
  }

  /** How many entries of a schedule find their handler able to move. */
  function RealMoves(s: System, schedule: seq<nat>): nat {
    if schedule == [] then 0 else
      var pre := schedule[..|schedule| - 1];
      RealMoves(s, pre) + if Enabled(Run(s, pre), schedule[|schedule| - 1]) then 1 else 0
  }

  lemma {:induction false} MovesAreUsed(s: System, schedule: seq<nat>)
    ensures RealMoves(s, schedule) + AllMovesLeft(Run(s, schedule).handlers) <= AllMovesLeft(s.handlers)
  {
    if schedule != [] {
      var before, i := Run(s, schedule[..|schedule| - 1]), schedule[|schedule| - 1];
      MovesAreUsed(s, schedule[..|schedule| - 1]);
      if Enabled(before, i) {
        StepMovesOne(before, i);
        StepUsesMove(before, i);
        MovesLeftUpdate(before.handlers, i, Step(before, i).handlers[i]);
      }
    }
  }

  /** No schedule deadlocks or goes on for ever: at every moment of every run some transfer can
      move or all are answered, and in all no more than ten moves per transfer are made. */
  lemma TransfersFinish(book: Book, calls: seq<Call>, schedule: seq<nat>)
    ensures var s := Run(Start(book, calls), schedule);
            (exists i: nat :: Enabled(s, i)) || (forall i :: 0 <= i < |s.handlers| ==> s.handlers[i].at.Done?)
    ensures RealMoves(Start(book, calls), schedule) <= 10 * |calls|
  {
    StartSound(book, calls);
    RunSound(Start(book, calls), schedule);
    MovesAreUsed(Start(book, calls), schedule);
    MovesLeftAtStart(book, calls);
    var s := Run(Start(book, calls), schedule);
    if i :| 0 <= i < |s.handlers| && !s.handlers[i].at.Done? {
      SomeoneCanMove(s);
    }
  }

  // ---------- No update is lost ----------

  predicate HasDebited(at: At) {
    at.Debited? || at.LoadedTo? || at.Credited? || at == Done(Completed)
  }

  predicate HasCredited(at: At) {
    at.Credited? || at == Done(Completed)
  }

  /** What one handler has done so far to one account. */
  function NetOn(key: string): Handler -> real {
    (h: Handler) =>
      (if h.call.request.to == key && HasCredited(h.at) then h.call.request.amount else 0.0)
      - (if h.call.request.from == key && HasDebited(h.at) then h.call.request.amount else 0.0)
  }

  lemma LoadChange(s: System, i: nat, key: string)
    requires Sound(s) && i < |s.handlers| && key in s.book
    ensures Load(Step(s, i).book, key) - Load(s.book, key) ==
            NetOn(key)(Step(s, i).handlers[i]) - NetOn(key)(s.handlers[i])
  {
  }

  lemma StepKeepsLedger(s: System, i: nat, key: string)
    requires Sound(s) && key in s.book
    ensures Load(Step(s, i).book, key) - Load(s.book, key)
            == Sum(Step(s, i).handlers, NetOn(key)) - Sum(s.handlers, NetOn(key))
  {
    StepMovesOne(s, i);
    if i < |s.handlers| {
      LoadChange(s, i, key);
      SumUpdate(s.handlers, i, Step(s, i).handlers[i], NetOn(key));
    }
  }

  /** At every moment every balance is its initial value plus the credits and minus the debits
      performed on it so far: no interleaving loses an update. */
  lemma {:induction false} NoLostUpdate(book: Book, calls: seq<Call>, schedule: seq<nat>, key: string)
    requires key in book
    ensures var s := Run(Start(book, calls), schedule);
            key in s.book && s.book[key].balance == book[key].balance + Sum(s.handlers, NetOn(key))
  {
    var start := Start(book, calls);
    StartSound(book, calls);
    RunSound(start, schedule);
    if schedule == [] {
      SumZero(start.handlers, NetOn(key));
    } else {
      var pre := schedule[..|schedule| - 1];
      NoLostUpdate(book, calls, pre, key);
      RunSound(start, pre);
      StepKeepsLedger(Run(start, pre), schedule[|schedule| - 1], key);
    }
  }

  // ---------- Conservation ----------

  /** Debited and not yet credited, for one tenant. */
  function InTransit(tenant: string): Handler -> real {
    (h: Handler) =>
      if h.call.tenant == tenant && HasDebited(h.at) && !HasCredited(h.at) then h.call.request.amount else 0.0
  }

  lemma StoreTotal(b: Book, key: string, balance: real, tenant: string)
    requires key in b
    ensures TenantTotal(Store(b, key, balance), tenant) ==
            TenantTotal(b, tenant) + if b[key].tenant == tenant then balance - b[key].balance else 0.0
  {
    TotalUpdate(b, key, b[key].(balance := balance), tenant);
  }

  lemma TotalChange(s: System, i: nat, tenant: string)
    requires Sound(s) && i < |s.handlers|
    ensures TenantTotal(Step(s, i).book, tenant) - TenantTotal(s.book, tenant) ==
            InTransit(tenant)(s.handlers[i]) - InTransit(tenant)(Step(s, i).handlers[i])
  {
    var h := s.handlers[i];
    var r := h.call.request;
    if h.at.LoadedFrom? {
      StoreTotal(s.book, r.from, h.at.seen - r.amount, tenant);
    } else if h.at.LoadedTo? {
      StoreTotal(s.book, r.to, h.at.seen + r.amount, tenant);
    } else {
      assert Step(s, i).book == s.book;
    }
  }

  lemma StepConserves(s: System, i: nat, tenant: string)
    requires Sound(s)
    ensures TenantTotal(Step(s, i).book, tenant) + Sum(Step(s, i).handlers, InTransit(tenant)) ==
            TenantTotal(s.book, tenant) + Sum(s.handlers, InTransit(tenant))
  {
    StepMovesOne(s, i);
    if i < |s.handlers| {
      TotalChange(s, i, tenant);
      SumUpdate(s.handlers, i, Step(s, i).handlers[i], InTransit(tenant));
    }
  }

  /** Each tenant's total plus what is debited and not yet credited never changes, at any
      micro-step of any interleaving, also when from and to are the same account. */
  lemma {:induction false} Conservation(book: Book, calls: seq<Call>, schedule: seq<nat>, tenant: string)
    ensures var s := Run(Start(book, calls), schedule);
            TenantTotal(s.book, tenant) + Sum(s.handlers, InTransit(tenant)) == TenantTotal(book, tenant)
    ensures var s := Run(Start(book, calls), schedule);
            s.writer == None ==> TenantTotal(s.book, tenant) == TenantTotal(book, tenant)
  {
    var start := Start(book, calls);
    StartSound(book, calls);
    if schedule == [] {
      SumZero(start.handlers, InTransit(tenant));
    } else {
      var pre := schedule[..|schedule| - 1];
      Conservation(book, calls, pre, tenant);
      RunSound(start, pre);
      StepConserves(Run(start, pre), schedule[|schedule| - 1], tenant);
    }
    RunSound(start, schedule);
    var s := Run(start, schedule);
    if s.writer == None {
      SumZero(s.handlers, InTransit(tenant));
    }
  }

  // ---------- Bounded overdraft ----------

  /** Checked and not yet debited. */
  predicate Pending(h: Handler, key: string) {
    h.call.request.from == key && (h.at.Approved? || h.at.Writing? || h.at.LoadedFrom?)
  }

  function PendingAmount(key: string): Handler -> real {
    (h: Handler) => if Pending(h, key) then h.call.request.amount else 0.0
  }

  function PendingOne(key: string): Handler -> real {
    (h: Handler) => if Pending(h, key) then 1.0 else 0.0
  }

  lemma {:induction false} PendingBounded(hs: seq<Handler>, key: string, most: real)
    requires forall h :: h in hs && Pending(h, key) ==> 0.0 <= h.call.request.amount <= most
    ensures 0.0 <= Sum(hs, PendingAmount(key)) <= most * Sum(hs, PendingOne(key))
  {
    if hs != [] {
      assert forall h :: h in hs[1..] ==> h in hs;
      PendingBounded(hs[1..], key, most);
      var one, rest := PendingOne(key)(hs[0]), Sum(hs[1..], PendingOne(key));
      assert hs[0] in hs;
      assert most * (one + rest) == most * one + most * rest;
    }
  }

  predicate AmountsWithin(hs: seq<Handler>, key: string, most: real) {
    forall i :: 0 <= i < |hs| && hs[i].call.request.from == key ==> hs[i].call.request.amount <= most
  }

  /** At every moment of the run at most `k` transfers out of the account are pending. */
  ghost predicate PendingWithin(s: System, schedule: seq<nat>, key: string, k: nat) {
    && Sum(Run(s, schedule).handlers, PendingOne(key)) <= k as real
    && (schedule != [] ==> PendingWithin(s, schedule[..|schedule| - 1], key, k))
  }

  /** The balance covers all pending debits except those of k - 1 others. */
  ghost predicate Covered(s: System, key: string, most: real, k: nat) {
    Load(s.book, key) - Sum(s.handlers, PendingAmount(key)) >= -((k as real - 1.0) * most)
  }

  /** Passing the balance check: the balance covers the new debit, the others are k - 1 at most. */
  lemma ApprovalKeepsCovered(s: System, i: nat, key: string, most: real, k: nat)
    requires Sound(s) && i < |s.handlers| && 1 <= k && 0.0 <= most && AmountsWithin(s.handlers, key, most)
    requires s.handlers[i].at.Validated? && s.handlers[i].call.request.from == key
    requires Step(s, i).handlers[i].at.Approved? && Sum(Step(s, i).handlers, PendingOne(key)) <= k as real
    ensures Covered(Step(s, i), key, most, k)
  {
    var s' := Step(s, i);
    PendingOneMore(s, i, key);
    AllPendingBounded(s, key, most);
    CoversOneMore(Load(s'.book, key), s.handlers[i].call.request.amount, Sum(s.handlers, PendingAmount(key)),
                  Sum(s.handlers, PendingOne(key)), k as real - 1.0, most);
  }

  lemma CoversOneMore(balance: real, amount: real, pending: real, others: real, k: real, most: real)
    requires amount <= balance && pending <= most * others && others <= k && 0.0 <= most
    ensures balance - (pending + amount) >= -(k * most)
  {
    assert 0.0 <= (k - others) * most;
    assert most * others == others * most;
  }

  lemma PendingOneMore(s: System, i: nat, key: string)
    requires i < |s.handlers| && s.handlers[i].at.Validated? && s.handlers[i].call.request.from == key
    requires Step(s, i).handlers[i].at.Approved?
    ensures Sum(Step(s, i).handlers, PendingOne(key)) == Sum(s.handlers, PendingOne(key)) + 1.0
    ensures Sum(Step(s, i).handlers, PendingAmount(key))
            == Sum(s.handlers, PendingAmount(key)) + s.handlers[i].call.request.amount
  {
    StepMovesOne(s, i);
    SumUpdate(s.handlers, i, Step(s, i).handlers[i], PendingAmount(key));
    SumUpdate(s.handlers, i, Step(s, i).handlers[i], PendingOne(key));
  }

  /** Every other step takes from the balance no more than it takes off the pending debits. */
  lemma StepSettles(s: System, i: nat, key: string)
    requires Sound(s) && i < |s.handlers|
    requires !(s.handlers[i].at.Validated? && s.handlers[i].call.request.from == key
             && Step(s, i).handlers[i].at.Approved?)
    ensures var h, h' := s.handlers[i], Step(s, i).handlers[i];
            Load(Step(s, i).book, key) - Load(s.book, key) >= PendingAmount(key)(h') - PendingAmount(key)(h)
  {
  }

  lemma AllPendingBounded(s: System, key: string, most: real)
    requires Sound(s) && AmountsWithin(s.handlers, key, most)
    ensures 0.0 <= Sum(s.handlers, PendingAmount(key)) <= most * Sum(s.handlers, PendingOne(key))
  {
    forall h | h in s.handlers && Pending(h, key) ensures 0.0 <= h.call.request.amount <= most {
    }
    PendingBounded(s.handlers, key, most);
  }

  lemma StepKeepsCovered(s: System, i: nat, key: string, most: real, k: nat)
    requires Sound(s) && 1 <= k && 0.0 <= most && AmountsWithin(s.handlers, key, most)
    requires Covered(s, key, most, k) && Sum(Step(s, i).handlers, PendingOne(key)) <= k as real
    ensures Covered(Step(s, i), key, most, k)
  {
    StepMovesOne(s, i);
    if i < |s.handlers| {
      var h, h' := s.handlers[i], Step(s, i).handlers[i];
      if h.at.Validated? && h.call.request.from == key && h'.at.Approved? {
        ApprovalKeepsCovered(s, i, key, most, k);
      } else {
        StepSettles(s, i, key);
        SumUpdate(s.handlers, i, h', PendingAmount(key));
      }
    }
  }

  lemma ScaleBound(a: real, b: real, m: real)
    requires a <= b && 0.0 <= m
    ensures m * a <= b * m
  {
  }

  /** If the account starts without debt, no transfer out of it exceeds `most`, and never more
      than k of them are between balance check and debit, its balance never drops below
      -(k - 1) * most. With k = 1 it never becomes negative. */
  lemma {:induction false} BoundedOverdraft(book: Book, calls: seq<Call>, schedule: seq<nat>, key: string,
                                            most: real, k: nat)
    requires key in book && 0.0 <= book[key].balance && 1 <= k && 0.0 <= most
    requires forall i :: 0 <= i < |calls| && calls[i].request.from == key ==> calls[i].request.amount <= most
    requires PendingWithin(Start(book, calls), schedule, key, k)
    ensures var s := Run(Start(book, calls), schedule);
            Covered(s, key, most, k) && key in s.book && s.book[key].balance >= -((k as real - 1.0) * most)
  {
    var start := Start(book, calls);
    StartSound(book, calls);
    RunSound(start, schedule);
    if schedule == [] {
      SumZero(start.handlers, PendingAmount(key));
      ScaleBound(0.0, k as real - 1.0, most);
    } else {
      var pre := schedule[..|schedule| - 1];
      BoundedOverdraft(book, calls, pre, key, most, k);
      RunSound(start, pre);
      StepKeepsCovered(Run(start, pre), schedule[|schedule| - 1], key, most, k);
    }
    AllPendingBounded(Run(start, schedule), key, most);
  }
}
