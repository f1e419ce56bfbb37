/** The account heap of pkg/models: how it is generated and what a tenant's share of it is. */
module Accounts {
  import opened Decimal

  const TENANTS: seq<string> := ["alpha", "beta", "gamma"]

  /** One round of random draws and the clock reading made with it, times in seconds. Owner,
      currency and status are picked from fixed lists of names; here they are any names. */
  datatype Draw = Draw(tenant: nat, owner: string, dollars: nat, cents: nat, hours: nat, currency: string,
                       status: string, now: real) {
    predicate InRange() {
      tenant < 3 && dollars < 499000 && cents < 100 && hours < 180 * 24
    }
  }

  predicate Drawn(draws: seq<Draw>) {
    forall i :: 0 <= i < |draws| ==> draws[i].InRange()
  }

  /** An account as a value. */
  datatype Details = Details(id: string, tenant: string, owner: string, balance: real, currency: string,
                             status: string, createdAt: real)

  class Account {
    const id: string
    const tenantID: string
    const owner: string
    var balance: real
    const currency: string
    const status: string
    const createdAt: real

    constructor (d: Details)
      ensures View() == d
    {
      id, tenantID, owner, balance := d.id, d.tenant, d.owner, d.balance;
      currency, status, createdAt := d.currency, d.status, d.createdAt;
    }

    ghost function View(): Details
      reads this
    {
      Details(id, tenantID, owner, balance, currency, status, createdAt)
    }
  }

  // ---------- What the generator makes ----------

  /** How many of the first `n` draws went to tenant number `t`. */
  function DrawsOf(draws: seq<Draw>, n: nat, t: nat): nat
    requires n <= |draws|
  {
    if n == 0 then 0 else DrawsOf(draws, n - 1, t) + if draws[n - 1].tenant == t then 1 else 0
  }

  function IdOf(tenant: string, number: nat): string {
    "acc_" + tenant + "_" + Padded3(number)
  }

  /** The account made from a draw and its tenant's count. */
  function FromDraw(d: Draw, number: nat): Details
    requires d.InRange()
  {
    Details(IdOf(TENANTS[d.tenant], number), TENANTS[d.tenant], d.owner,
            (d.dollars + 1000) as real + d.cents as real / 100.0, d.currency, d.status,
            d.now - (d.hours + 1) as real * 3600.0)
  }

  /** The account made from draw `i`: its number is the count of its tenant's draws so far. */
  function Generated(draws: seq<Draw>, i: nat): Details
    requires i < |draws| && Drawn(draws)
  {
    FromDraw(draws[i], DrawsOf(draws, i + 1, draws[i].tenant))
  }

  lemma {:induction false} DrawsOfGrows(draws: seq<Draw>, i: nat, j: nat, t: nat)
    requires i <= j <= |draws|
    ensures DrawsOf(draws, i, t) <= DrawsOf(draws, j, t)
  {
    if i < j {
      DrawsOfGrows(draws, i, j - 1, t);
    }
  }

  /** Tenant and number can be read off an account ID. */
  lemma IdDetermines(a: nat, m: nat, b: nat, n: nat)
    requires a < 3 && b < 3 && IdOf(TENANTS[a], m) == IdOf(TENANTS[b], n)
    ensures a == b && m == n
  {
    var x, y := IdOf(TENANTS[a], m), IdOf(TENANTS[b], n);
    assert x[4] == TENANTS[a][0] && y[4] == TENANTS[b][0];
    var k := |"acc_" + TENANTS[a] + "_"|;
    assert x[k..] == Padded3(m) && y[k..] == Padded3(n);
    ReadPadded3(m);
    ReadPadded3(n);
  }

  /** Different draws make accounts with different IDs. */
  lemma IdsDiffer(draws: seq<Draw>, i: nat, j: nat)
    requires i < j < |draws| && Drawn(draws)
    ensures Generated(draws, i).id != Generated(draws, j).id
  {
    var t := draws[j].tenant;
    DrawsOfGrows(draws, i + 1, j, t);
    if Generated(draws, i).id == Generated(draws, j).id {
      IdDetermines(draws[i].tenant, DrawsOf(draws, i + 1, draws[i].tenant), t, DrawsOf(draws, j + 1, t));
      assert false;
    }
  }

  /** A tenant's accounts are numbered 1, 2, ... without gaps. */
  lemma {:induction false} NumbersContiguous(draws: seq<Draw>, n: nat, t: nat, number: nat) returns (i: nat)
    requires n <= |draws| && Drawn(draws) && t < 3 && 1 <= number <= DrawsOf(draws, n, t)
    ensures i < n && Generated(draws, i).tenant == TENANTS[t] && Generated(draws, i).id == IdOf(TENANTS[t], number)
  {
    if draws[n - 1].tenant == t && DrawsOf(draws, n, t) == number {
      i := n - 1;
    } else {
      i := NumbersContiguous(draws, n - 1, t, number);
    }
  }

  /** No account gets a number beyond its tenant's count, and balances lie in 1000.00 .. 499999.99. */
  lemma GeneratedInRange(draws: seq<Draw>, i: nat)
    requires i < |draws| && Drawn(draws)
    ensures 1 <= DrawsOf(draws, i + 1, draws[i].tenant) <= DrawsOf(draws, |draws|, draws[i].tenant)
    ensures 1000.0 <= Generated(draws, i).balance <= 499999.99
    ensures Generated(draws, i).tenant in TENANTS
  {
    DrawsOfGrows(draws, i + 1, |draws|, draws[i].tenant);
    var d := draws[i];
    assert d.InRange();
    assert d.cents as real <= 99.0;
    assert 0.0 <= d.cents as real / 100.0 <= 0.99;
  }

  /** The draws for tenant number `t` among the first `n`. */
  function DrawnFor(draws: seq<Draw>, n: nat, t: nat): set<nat>
    requires n <= |draws|
  {
    set i | 0 <= i < n && draws[i].tenant == t
  }

  lemma {:induction false} DrawsOfCounts(draws: seq<Draw>, n: nat, t: nat)
    requires n <= |draws|
    ensures DrawsOf(draws, n, t) == |DrawnFor(draws, n, t)|
  {
    if n > 0 {
      DrawsOfCounts(draws, n - 1, t);
      if draws[n - 1].tenant == t {
        assert DrawnFor(draws, n, t) == DrawnFor(draws, n - 1, t) + {n - 1};
      } else {
        assert DrawnFor(draws, n, t) == DrawnFor(draws, n - 1, t);
      }
    }
  }

  function TenantName(t: nat): string {
    if t == 0 then "alpha" else if t == 1 then "beta" else "gamma"
  }

  /** "acc_", the tenant, "_", and a printed number of at least three digits. */
  predicate IsAccountId(id: string, tenant: string, number: int) {
    var start := "acc_" + tenant + "_";
    && start <= id
    && var digits := id[|start|..];
       AllDigits(digits) && |digits| >= 3 && (|digits| > 3 ==> digits[0] != '0') && Value(digits) == number
  }

  /** What account number `i` is made of: its tenant's name, an ID with the number of that
      tenant's draws so far, the drawn dollars from 1000 up and cents, 1 to 4320 hours of age,
      and the drawn owner, currency and status. */
  lemma GeneratedFromDraw(draws: seq<Draw>, i: nat)
    requires i < |draws| && Drawn(draws)
    ensures var a, d := Made(draws)[i], draws[i];
            && a.tenant == TenantName(d.tenant)
            && IsAccountId(a.id, a.tenant, |DrawnFor(draws, i + 1, d.tenant)|)
            && 100.0 * a.balance == (100 * (1000 + d.dollars) + d.cents) as real
            && d.now - a.createdAt == (3600 * (1 + d.hours)) as real
            && 3600.0 <= d.now - a.createdAt <= 3600.0 * 4320.0
            && a.owner == d.owner && a.currency == d.currency && a.status == d.status
  {
    var a, d := Made(draws)[i], draws[i];
    assert d.InRange();
    DrawsOfCounts(draws, i + 1, d.tenant);
    IdForm(a.tenant, DrawsOf(draws, i + 1, d.tenant));
    BalanceInCents(d.dollars, d.cents);
  }

  lemma IdForm(tenant: string, number: nat)
    ensures IsAccountId(IdOf(tenant, number), tenant, number)
  {
    Padded3Form(number);
    var start := "acc_" + tenant + "_";
    assert IdOf(tenant, number)[|start|..] == Padded3(number);
  }

  lemma BalanceInCents(dollars: nat, cents: nat)
    ensures 100.0 * ((dollars + 1000) as real + cents as real / 100.0) == (100 * (1000 + dollars) + cents) as real
  {
  }

  /** All accounts made from the draws, in order. */
  function Made(draws: seq<Draw>): (made: seq<Details>)
    requires Drawn(draws)
    ensures |made| == |draws| && forall i :: 0 <= i < |draws| ==> made[i] == Generated(draws, i)
  {
    seq(|draws|, i requires 0 <= i < |draws| => Generated(draws, i))
  }

  predicate DistinctIds(made: seq<Details>) {
    forall i, j :: 0 <= i < j < |made| ==> made[i].id != made[j].id
  }

  lemma MadeDistinct(draws: seq<Draw>)
    requires Drawn(draws)
    ensures DistinctIds(Made(draws))
  {
    forall i, j | 0 <= i < j < |draws| ensures Made(draws)[i].id != Made(draws)[j].id {
      IdsDiffer(draws, i, j);
    }
  }

  /** The IDs of the first `n` accounts made. */
  function IdsOf(made: seq<Details>, n: nat): set<string>
    requires n <= |made|
  {
    set i | 0 <= i < n :: made[i].id
  }

  lemma {:induction false} IdsCount(made: seq<Details>, n: nat)
    requires n <= |made| && DistinctIds(made)
    ensures |IdsOf(made, n)| == n
  {
    if n > 0 {
      IdsCount(made, n - 1);
      assert IdsOf(made, n) == IdsOf(made, n - 1) + {made[n - 1].id};
      assert made[n - 1].id !in IdsOf(made, n - 1);
    }
  }

  /** The map holds exactly the first `n` accounts made, one object per key. */
  ghost predicate Holds(accounts: map<string, Account>, made: seq<Details>, n: nat)
    requires n <= |made|
    reads accounts.Values
  {
    && accounts.Keys == IdsOf(made, n)
    && (forall i :: 0 <= i < n ==> made[i].id in accounts && accounts[made[i].id].View() == made[i])
    && Separate(accounts)
  }

  lemma HoldsOneMore(accounts: map<string, Account>, made: seq<Details>, i: nat, account: Account)
    requires i < |made| && DistinctIds(made) && Holds(accounts, made, i)
    requires account.View() == made[i] && account !in accounts.Values
    ensures Holds(accounts[account.id := account], made, i + 1)
  {
  }

  /** Keys are account IDs, and distinct keys hold distinct objects. */
  ghost predicate Separate(accounts: map<string, Account>)
  {
    && (forall key :: key in accounts ==> accounts[key].id == key)
    && (forall a, b :: a in accounts && b in accounts && a != b ==> accounts[a] != accounts[b])
  }

  lemma HoldsCount(accounts: map<string, Account>, made: seq<Details>)
    requires DistinctIds(made) && accounts.Keys == IdsOf(made, |made|)
    ensures |accounts| == |made|
  {
    IdsCount(made, |made|);
    assert |accounts| == |accounts.Keys|;
  }

  /** The counters agree with the draws so far. */
  ghost predicate Counted(counters: map<string, nat>, draws: seq<Draw>, n: nat)
    requires n <= |draws|
  {
    forall t :: 0 <= t < 3 ==> TENANTS[t] in counters && counters[TENANTS[t]] == DrawsOf(draws, n, t)
  }

  lemma NamesDiffer(a: nat, b: nat)
    requires a < 3 && b < 3 && a != b
    ensures TENANTS[a] != TENANTS[b]
  {
    assert TENANTS[a][0] != TENANTS[b][0];
  }

  method FreshCounters(ghost draws: seq<Draw>) returns (counters: map<string, nat>)
    ensures Counted(counters, draws, 0)
  {
    counters := map["alpha" := 0, "beta" := 0, "gamma" := 0];
  }

  lemma CountOne(counters: map<string, nat>, draws: seq<Draw>, i: nat)
    requires i < |draws| && Drawn(draws) && Counted(counters, draws, i)
    ensures var tenant := TENANTS[draws[i].tenant];
            Counted(counters[tenant := counters[tenant] + 1], draws, i + 1)
  {
    var d := draws[i].tenant;
    forall t: nat | t < 3 && t != d ensures TENANTS[t] != TENANTS[d] {
      NamesDiffer(t, d);
    }
  }

  /** One round of the generating loop. */
  method GenerateOne(draws: seq<Draw>, i: nat, counters: map<string, nat>, ghost made: seq<Details>)
    returns (account: Account, counted: map<string, nat>)
    requires i < |draws| && Drawn(draws) && Counted(counters, draws, i) && made == Made(draws)
    ensures Counted(counted, draws, i + 1) && fresh(account) && account.View() == made[i]
  {
    var tenant := TENANTS[draws[i].tenant];
    CountOne(counters, draws, i);
    counted := counters[tenant := counters[tenant] + 1];
    account := new Account(FromDraw(draws[i], counted[tenant]));
  }

  /** Adds the account of round `i`. */
  method GenerateInto(accounts: map<string, Account>, draws: seq<Draw>, i: nat, counters: map<string, nat>,
                      ghost made: seq<Details>)
    returns (grown: map<string, Account>, counted: map<string, nat>)
    requires i < |draws| && Drawn(draws) && made == Made(draws)
    requires Counted(counters, draws, i) && Holds(accounts, made, i)
    ensures Counted(counted, draws, i + 1) && Holds(grown, made, i + 1)
    ensures forall key :: key in grown ==> fresh(grown[key]) || grown[key] in accounts.Values
  {
    var account;
    account, counted := GenerateOne(draws, i, counters, made);
    MadeDistinct(draws);
    HoldsOneMore(accounts, made, i, account);
    grown := accounts[account.id := account];
  }

  /** One account per draw, keyed by its ID: as many entries as draws, each a new object of its own. */
  method GenerateAccounts(count: int, draws: seq<Draw>) returns (accounts: map<string, Account>)
    requires |draws| == (if count < 0 then 0 else count) && Drawn(draws)
    ensures Holds(accounts, Made(draws), |draws|) && |accounts| == |draws|
    ensures forall key :: key in accounts ==> fresh(accounts[key])
  {
    accounts := map[];
    var counters := FreshCounters(draws);
    ghost var made := Made(draws);
    var i := 0;
    while i < count
      invariant 0 <= i <= |draws|
      invariant Counted(counters, draws, i)
      invariant Holds(accounts, made, i)
      invariant forall key :: key in accounts ==> fresh(accounts[key])
    {
      accounts, counters := GenerateInto(accounts, draws, i, counters, made);
      i := i + 1;
    }
    MadeDistinct(draws);
    HoldsCount(accounts, made);
  }

  // ---------- Totals ----------

  /** What matters of an account for transfers. */
  datatype Holding = Holding(tenant: string, balance: real)

  type Book = map<string, Holding>

  function Share(h: Holding, tenant: string): real {
    if h.tenant == tenant then h.balance else 0.0
  }

  /** The sum of a tenant's balances. */
  ghost function TenantTotal(b: Book, tenant: string): real
    decreases |b|
  {
    if b == map[] then 0.0 else
      var key :| key in b;
      Smaller(b, key);
      Share(b[key], tenant) + TenantTotal(b - {key}, tenant)
  }

  lemma Smaller(b: Book, key: string)
    requires key in b
    ensures |b - {key}| < |b|
  {
    assert (b - {key}).Keys == b.Keys - {key};
    assert |(b - {key}).Keys| == |b - {key}| && |b.Keys| == |b|;
  }

  /** Any account may be split off first. */
  lemma {:induction false} TotalSplits(b: Book, key: string, tenant: string)
    requires key in b
    ensures TenantTotal(b, tenant) == Share(b[key], tenant) + TenantTotal(b - {key}, tenant)
    decreases |b|
  {
    var first :| first in b && TenantTotal(b, tenant) == Share(b[first], tenant) + TenantTotal(b - {first}, tenant);
    if first != key {
      Smaller(b, first);
      Smaller(b, key);
      TotalSplits(b - {first}, key, tenant);
      TotalSplits(b - {key}, first, tenant);
      assert b - {first} - {key} == b - {key} - {first};
    }
  }

  /** Replacing one account shifts the total by the difference. */
  lemma TotalUpdate(b: Book, key: string, h: Holding, tenant: string)
    requires key in b
    ensures TenantTotal(b[key := h], tenant) == TenantTotal(b, tenant) - Share(b[key], tenant) + Share(h, tenant)
  {
    TotalSplits(b, key, tenant);
    TotalSplits(b[key := h], key, tenant);
    assert b[key := h] - {key} == b - {key};
  }

  // ---------- The database ----------

  function SumBalances(accounts: seq<Account>): real
    reads accounts
  {
    if accounts == [] then 0.0 else SumBalances(accounts[..|accounts| - 1]) + accounts[|accounts| - 1].balance
  }

  class SyntheticDatabase {
    var accounts: map<string, Account>

    ghost predicate Valid()
      reads this
    {
      Separate(accounts)
    }

    /** The accounts as values. */
    ghost function Snapshot(): Book
      reads this, accounts.Values
    {
      map key | key in accounts :: Holding(accounts[key].tenantID, accounts[key].balance)
    }

    constructor (draws: seq<Draw>)
      requires |draws| == 100 && Drawn(draws)
      ensures Valid() && Holds(accounts, Made(draws), |draws|) && |accounts| == |draws|
      ensures forall key :: key in accounts ==> fresh(accounts[key])
    {
      var generated := GenerateAccounts(100, draws);
      accounts := generated;
    }

    /** Exactly the tenant's accounts, each once, in some order; their balances sum to the total. */
    method GetAccountsByTenant(tenant: string) returns (found: seq<Account>)
      requires Valid()
      ensures forall a :: a in found <==> a in accounts.Values && a.tenantID == tenant
      ensures forall i, j :: 0 <= i < j < |found| ==> found[i] != found[j]
      ensures SumBalances(found) == TenantTotal(Snapshot(), tenant)
    {
      found := [];
      var pending := accounts.Keys;
      while pending != {}
        invariant pending <= accounts.Keys
        invariant forall a :: a in found ==>
                    a.tenantID == tenant && a.id in accounts && a.id !in pending && accounts[a.id] == a
        invariant forall key :: key in accounts && key !in pending && accounts[key].tenantID == tenant ==>
                    accounts[key] in found
        invariant forall i, j :: 0 <= i < j < |found| ==> found[i] != found[j]
        invariant SumBalances(found) == TenantTotal(Visited(Snapshot(), pending), tenant)
        decreases pending
      {
        var key :| key in pending;
        VisitOne(Snapshot(), pending, key, tenant);
        pending := pending - {key};
        if accounts[key].tenantID == tenant {
          assert (found + [accounts[key]])[..|found|] == found;
          found := found + [accounts[key]];
        }
      }
      assert Visited(Snapshot(), pending) == Snapshot();
    }
  }

  /** The part of a book that a walk over it has already visited. */
  function Visited(b: Book, pending: set<string>): Book {
    map key | key in b && key !in pending :: b[key]
  }

  lemma VisitOne(b: Book, pending: set<string>, key: string, tenant: string)
    requires key in pending && key in b
    ensures TenantTotal(Visited(b, pending - {key}), tenant)
            == TenantTotal(Visited(b, pending), tenant) + Share(b[key], tenant)
  {
    TotalSplits(Visited(b, pending - {key}), key, tenant);
    assert Visited(b, pending - {key}) - {key} == Visited(b, pending);
  }
}
