/** One transfer at a time: handleTransfer of cmd/transfer-service/main.go.

    Money is exact. Authentication has already put the tenant in the request context. */
module Transfer {
  import opened Common
  import opened Accounts

  datatype Request = Request(from: string, to: string, amount: real)

  datatype Status =
    | Completed | MethodNotAllowed | InvalidRequest | AccountNotFound | AccessDenied | InvalidAmount
    | InsufficientBalance

  /** The answer to a decoded request. The checks come in this order. */
  function Answer(b: Book, tenant: string, r: Request): Status {
    if r.from !in b || r.to !in b then AccountNotFound
    else if b[r.from].tenant != tenant || b[r.to].tenant != tenant then AccessDenied
    else if r.amount <= 0.0 then InvalidAmount
    else if b[r.from].balance < r.amount then InsufficientBalance
    else Completed
  }

  /** Both accounts exist. */
  predicate BothExist(b: Book, r: Request) {
    r.from in b && r.to in b
  }

  /** Both accounts are the tenant's. */
  predicate BothOwn(b: Book, tenant: string, r: Request) {
    BothExist(b, r) && b[r.from].tenant == tenant == b[r.to].tenant
  }

  /** Exactly when each answer is given. A transfer to the same account is like any other. */
  lemma AnsweredExactlyWhen(b: Book, tenant: string, r: Request)
    ensures var answer := Answer(b, tenant, r);
            && (answer == Completed <==> BothOwn(b, tenant, r) && 0.0 < r.amount <= b[r.from].balance)
            && (answer == AccountNotFound <==> !BothExist(b, r))
            && (answer == AccessDenied <==> BothExist(b, r) && !BothOwn(b, tenant, r))
            && (answer == InvalidAmount <==> BothOwn(b, tenant, r) && r.amount <= 0.0)
            && (answer == InsufficientBalance <==>
                  BothOwn(b, tenant, r) && 0.0 < r.amount && b[r.from].balance < r.amount)
  {
  }

  function AddTo(b: Book, key: string, amount: real): Book
    requires key in b
  {
    b[key := b[key].(balance := b[key].balance + amount)]
  }

  /** The book afterwards: only a completed transfer moves money, first out, then in. */
  function Moved(b: Book, tenant: string, r: Request): Book {
    if Answer(b, tenant, r) == Completed then AddTo(AddTo(b, r.from, -r.amount), r.to, r.amount) else b
  }

  /** Exactly what a request moves: one amount out of one account and into the other, nothing
      else; within one account, nothing at all. */
  lemma MovedExactly(b: Book, tenant: string, r: Request, key: string)
    requires key in b
    ensures var after, done := Moved(b, tenant, r), Answer(b, tenant, r) == Completed;
            && after.Keys == b.Keys && after[key].tenant == b[key].tenant
            && after[key].balance == b[key].balance
                 - (if done && key == r.from then r.amount else 0.0) + (if done && key == r.to then r.amount else 0.0)
            && (r.from == r.to ==> after == b)
  {
  }

  class TransferService {
    const db: SyntheticDatabase

    constructor (db: SyntheticDatabase)
      ensures this.db == db
    {
      this.db := db;
    }

    method HandleTransfer(verb: string, body: Option<Request>, tenant: string) returns (status: Status)
      requires db.Valid()
      modifies db.accounts.Values
      ensures db.Valid()
      ensures status == (if verb != "POST" then MethodNotAllowed
                         else if body.None? then InvalidRequest
                         else Answer(old(db.Snapshot()), tenant, body.value))
      ensures db.Snapshot() == (if status == Completed then Moved(old(db.Snapshot()), tenant, body.value)
              else old(db.Snapshot()))
    {
      if verb != "POST" {
        return MethodNotAllowed;
      }
      if body.None? {
        return InvalidRequest;
      }
      var req := body.value;
      if req.from !in db.accounts || req.to !in db.accounts {
        return AccountNotFound;
      }
      var fromAcc, toAcc := db.accounts[req.from], db.accounts[req.to];
      if fromAcc.tenantID != tenant || toAcc.tenantID != tenant {
        return AccessDenied;
      }
      if req.amount <= 0.0 {
        return InvalidAmount;
      }
      if fromAcc.balance < req.amount {
        return InsufficientBalance;
      }
      Execute(fromAcc, toAcc, req);
      return Completed;
    }

    /** The section under the write lock. */
    method Execute(fromAcc: Account, toAcc: Account, req: Request)
      requires db.Valid() && req.from in db.accounts && req.to in db.accounts
      requires fromAcc == db.accounts[req.from] && toAcc == db.accounts[req.to]
      modifies fromAcc, toAcc
      ensures db.Snapshot() == AddTo(AddTo(old(db.Snapshot()), req.from, -req.amount), req.to, req.amount)
    {
      fromAcc.balance := fromAcc.balance - req.amount;
      assert db.Snapshot() == AddTo(old(db.Snapshot()), req.from, -req.amount);
      label debited:
      toAcc.balance := toAcc.balance + req.amount;
      assert db.Snapshot() == AddTo(old@debited(db.Snapshot()), req.to, req.amount);
    }
  }

  // ---------- Sequential runs ----------

  /** A request and the tenant it is made for. */
  datatype Call = Call(tenant: string, request: Request)

  function BookAfter(b: Book, calls: seq<Call>): Book {
    if calls == [] then b else
      var c := calls[|calls| - 1];
      Moved(BookAfter(b, calls[..|calls| - 1]), c.tenant, c.request)
  }

  /** The answers tenant `t` gets, in order. */
  function Answers(b: Book, calls: seq<Call>, t: string): seq<Status> {
    if calls == [] then [] else
      var pre, c := calls[..|calls| - 1], calls[|calls| - 1];
      if c.tenant == t then Answers(b, pre, t) + [Answer(BookAfter(b, pre), t, c.request)] else Answers(b, pre, t)
  }

  function OnlyTenant(calls: seq<Call>, t: string): seq<Call> {
    if calls == [] then [] else
      var pre, c := calls[..|calls| - 1], calls[|calls| - 1];
      if c.tenant == t then OnlyTenant(pre, t) + [c] else OnlyTenant(pre, t)
  }

  /** Two books with the same accounts that agree on one tenant's money. */
  ghost predicate AgreeOn(a: Book, b: Book, t: string) {
    && a.Keys == b.Keys
    && (forall key :: key in a ==> a[key].tenant == b[key].tenant)
    && (forall key :: key in a && a[key].tenant == t ==> a[key].balance == b[key].balance)
  }

  lemma OwnTransferAgrees(a: Book, b: Book, t: string, r: Request)
    requires AgreeOn(a, b, t)
    ensures Answer(a, t, r) == Answer(b, t, r) && AgreeOn(Moved(a, t, r), Moved(b, t, r), t)
  {
  }

  lemma OtherTransferInvisible(b: Book, t: string, other: string, r: Request)
    requires other != t
    ensures AgreeOn(b, Moved(b, other, r), t)
  {
  }

  /** A tenant's answers and final balances are those of the run from which every other
      tenant's request is deleted. */
  lemma {:induction false} NonInterference(b: Book, calls: seq<Call>, t: string)
    ensures Answers(b, calls, t) == Answers(b, OnlyTenant(calls, t), t)
    ensures AgreeOn(BookAfter(b, calls), BookAfter(b, OnlyTenant(calls, t)), t)
  {
    if calls != [] {
      var pre, c := calls[..|calls| - 1], calls[|calls| - 1];
      NonInterference(b, pre, t);
      var own := OnlyTenant(pre, t);
      if c.tenant == t {
        assert (own + [c])[..|own|] == own;
        OwnTransferAgrees(BookAfter(b, pre), BookAfter(b, own), t, c.request);
      } else {
        OtherTransferInvisible(BookAfter(b, pre), t, c.tenant, c.request);
      }
    }
  }

  /** One at a time, no balance is ever overdrawn and no tenant's total ever changes. */
  lemma {:induction false} SequentialSafety(b: Book, calls: seq<Call>, t: string)
    requires forall key :: key in b ==> 0.0 <= b[key].balance
    ensures var after := BookAfter(b, calls);
            && after.Keys == b.Keys
            && (forall key :: key in after ==> 0.0 <= after[key].balance)
            && TenantTotal(after, t) == TenantTotal(b, t)
  {
    if calls != [] {
      var pre, c := calls[..|calls| - 1], calls[|calls| - 1];
      SequentialSafety(b, pre, t);
      MovedKeepsTotal(BookAfter(b, pre), c.tenant, c.request, t);
    }
  }

  lemma MovedKeepsTotal(b: Book, tenant: string, r: Request, t: string)
    ensures TenantTotal(Moved(b, tenant, r), t) == TenantTotal(b, t)
  {
    if Answer(b, tenant, r) == Completed {
      AddToTotal(b, r.from, -r.amount, t);
      AddToTotal(AddTo(b, r.from, -r.amount), r.to, r.amount, t);
    }
  }

  lemma AddToTotal(b: Book, key: string, amount: real, t: string)
    requires key in b
    ensures TenantTotal(AddTo(b, key, amount), t) == TenantTotal(b, t) + if b[key].tenant == t then amount else 0.0
  {
    TotalUpdate(b, key, b[key].(balance := b[key].balance + amount), t);
  }
}
