/** Daily futures budgets (futures/budget.go): reservations held against a user account and the module
    account, settled at a known or an unknown cost. Every operation is one transaction. */
module FuturesBudget {
  import opened Common

  datatype Scope = UserScope | ModuleScope
  datatype Kind = ModelCall | ToolCall | OtherCall

  datatype Account = Account(
    scope: Scope, owner: nat, day: int,
    limit: real, reserved: real, spent: real,
    modelCalls: int, toolCalls: int, tokens: int,
    modelLimit: int, toolLimit: int, tokenLimit: int)

  datatype HeldState = Reserved | SettledKnown | SettledUnknown
  datatype Reservation = Reservation(attempt: nat, owner: nat, day: int, amount: real, tokens: int, kind: Kind,
          state: HeldState)
  datatype Request = Request(attempt: nat, owner: nat, day: int, amount: real, tokens: int, kind: Kind)

  /** The three tables; `usage` holds the attempts with a usage row. */
  datatype Books = Books(accounts: seq<Account>, reservations: seq<Reservation>, usage: set<nat>)

  datatype Outcome = Ok | QuotaExceeded | NotFound | RevisionConflict | ConstraintViolated

  const EMPTY_BOOKS := Books([], [], {})

  // ---------------------------------------------------------------- lookups by primary key

  function FindAccount(accounts: seq<Account>, scope: Scope, owner: nat, day: int): (k: nat)
    ensures k <= |accounts|
    ensures k < |accounts| ==> accounts[k].scope == scope && accounts[k].owner == owner && accounts[k].day == day
    ensures forall j :: 0 <= j < k ==>
            !(accounts[j].scope == scope && accounts[j].owner == owner && accounts[j].day == day)
  {
    if accounts == [] then 0
    else if accounts[0].scope == scope && accounts[0].owner == owner && accounts[0].day == day then 0
    else 1 + FindAccount(accounts[1..], scope, owner, day)
  }

  function FindReservation(reservations: seq<Reservation>, attempt: nat): (k: nat)
    ensures k <= |reservations| && (k < |reservations| ==> reservations[k].attempt == attempt)
    ensures forall j :: 0 <= j < k ==> reservations[j].attempt != attempt
  {
    if reservations == [] then 0
    else if reservations[0].attempt == attempt then 0
    else 1 + FindReservation(reservations[1..], attempt)
  }

  // ---------------------------------------------------------------- the transactions

  /** The account refuses the request. */
  predicate Exceeds(a: Account, r: Request) {
    || a.reserved + a.spent + r.amount > a.limit
    || (a.tokenLimit > 0 && a.tokens + r.tokens > a.tokenLimit)
    || (r.kind == ModelCall && a.modelCalls + 1 > a.modelLimit)
    || (r.kind == ToolCall && a.toolCalls + 1 > a.toolLimit)
  }

  /** addBudgetUsage on one row. */
  function Charged(a: Account, r: Request): Account {
    a.(reserved := a.reserved + r.amount, tokens := a.tokens + r.tokens,
       modelCalls := a.modelCalls + if r.kind == ModelCall then 1 else 0,
       toolCalls := a.toolCalls + if r.kind == ToolCall then 1 else 0)
  }

  /** The settlement of a reservation on one row. */
  function Released(a: Account, held: Reservation, amount: real, tokens: int): Account {
    a.(reserved := a.reserved - held.amount, spent := a.spent + amount, tokens := a.tokens + (tokens - held.tokens))
  }

  function HeldRow(r: Request): Reservation {
    Reservation(r.attempt, r.owner, r.day, r.amount, r.tokens, r.kind, Reserved)
  }

  /** Reserve: lock both accounts, test every quota, charge both, insert the reservation; the table
      constraints on amount, kind and attempt undo everything. */
  function Reserve(b: Books, r: Request): (Books, Outcome) {
    var u := FindAccount(b.accounts, UserScope, r.owner, r.day);
    var m := FindAccount(b.accounts, ModuleScope, 0, r.day);
    if u == |b.accounts| || m == |b.accounts| then (b, NotFound)
    else if Exceeds(b.accounts[u], r) || Exceeds(b.accounts[m], r) then (b, QuotaExceeded)
    else if r.amount < 0.0 || r.kind == OtherCall || FindReservation(b.reservations, r.attempt) < |b.reservations|
    then (b, ConstraintViolated)
    else
      var charged := b.accounts[u := Charged(b.accounts[u], r)][m := Charged(b.accounts[m], r)];
      (b.(accounts := charged, reservations := b.reservations + [HeldRow(r)]), Ok)
  }

  /** SettleUnknown: the amount stays reserved. */
  function SettleUnknown(b: Books, owner: nat, attempt: nat): (Books, Outcome) {
    var k := FindReservation(b.reservations, attempt);
    if k == |b.reservations| || b.reservations[k].owner != owner then (b, NotFound)
    else if b.reservations[k].state != Reserved then (b, NotFound)
    else if attempt in b.usage then (b, ConstraintViolated)
    else
      var reservations := b.reservations[k := b.reservations[k].(state := SettledUnknown)];
      (b.(reservations := reservations, usage := b.usage + {attempt}), Ok)
  }

  /** SettleKnown: the reserved amount is replaced by what was spent, on both accounts. */
  function SettleKnown(b: Books, owner: nat, attempt: nat, amount: real, tokens: int): (Books, Outcome) {
    var k := FindReservation(b.reservations, attempt);
    if k == |b.reservations| || b.reservations[k].owner != owner then (b, NotFound)
    else if b.reservations[k].state != Reserved then (b, RevisionConflict)
    else
      var held := b.reservations[k];
      var once := Release(b.accounts, UserScope, owner, held, amount, tokens);
      if once.None? then (b, ConstraintViolated)
      else
        var twice := Release(once.value, ModuleScope, 0, held, amount, tokens);
        if twice.None? || attempt in b.usage then (b, ConstraintViolated)
        else (Books(twice.value, b.reservations[k := held.(state := SettledKnown)], b.usage + {attempt}), Ok)
  }

  /** One of the two account updates; no matching row is no error, a negative amount violates the table. */
  function Release(accounts: seq<Account>, scope: Scope, owner: nat, held: Reservation, amount: real,
          tokens: int): Option<seq<Account>> {
    var k := FindAccount(accounts, scope, owner, held.day);
    if k == |accounts| then Some(accounts)
    else
      var a := Released(accounts[k], held, amount, tokens);
      if a.reserved < 0.0 || a.spent < 0.0 then None else Some(accounts[k := a])
  }

  /** SeedAccount: insert with zero counters unless the account exists. */
  function Seed(b: Books, scope: Scope, owner: nat, day: int, limit: real, modelLimit: int, toolLimit: int,
          tokenLimit: int): (Books, Outcome) {
    if FindAccount(b.accounts, scope, owner, day) < |b.accounts| then (b, Ok)
    else if limit < 0.0 || modelLimit < 0 || toolLimit < 0 || tokenLimit < 0 then (b, ConstraintViolated)
    else
      var account := Account(scope, owner, day, limit, 0.0, 0.0, 0, 0, 0, modelLimit, toolLimit, tokenLimit);
      (b.(accounts := b.accounts + [account]), Ok)
  }

  /** The stored tables. */
  class BudgetStore {
    var accounts: seq<Account>
    var reservations: seq<Reservation>
    var usage: set<nat>

    method SeedTx(scope: Scope, owner: nat, day: int, limit: real, modelLimit: int, toolLimit: int, tokenLimit: int)
      returns (out: Outcome)
      modifies this`accounts
      ensures (Books(accounts, reservations, usage), out) ==
              Seed(Books(old(accounts), reservations, usage), scope, owner, day, limit, modelLimit, toolLimit,
                tokenLimit)
    {
      if FindAccount(accounts, scope, owner, day) < |accounts| {
        return Ok;
      }
      if limit < 0.0 || modelLimit < 0 || toolLimit < 0 || tokenLimit < 0 {
        return ConstraintViolated;
      }
      accounts := accounts + [Account(scope, owner, day, limit, 0.0, 0.0, 0, 0, 0, modelLimit, toolLimit, tokenLimit)];
      out := Ok;
    }

    method AddBudgetUsage(scope: Scope, owner: nat, day: int, r: Request)
      modifies this`accounts
      ensures var k := FindAccount(old(accounts), scope, owner, day);
              accounts == if k < |old(accounts)| then old(accounts)[k := Charged(old(accounts)[k], r)]
                else old(accounts)
    {
      var k := FindAccount(accounts, scope, owner, day);
      if k < |accounts| {
        var a := accounts[k].(reserved := accounts[k].reserved + r.amount, tokens := accounts[k].tokens + r.tokens);
        if r.kind == ModelCall {
          a := a.(modelCalls := a.modelCalls + 1);
        }
        if r.kind == ToolCall {
          a := a.(toolCalls := a.toolCalls + 1);
        }
        accounts := accounts[k := a];
      }
    }

    method ReserveTx(r: Request) returns (out: Outcome)
      modifies this
      ensures (Books(accounts, reservations, usage), out) ==
              Reserve(Books(old(accounts), old(reservations), old(usage)), r)
    {
      var before := accounts;
      var u := FindAccount(accounts, UserScope, r.owner, r.day);
      if u == |accounts| {
        return NotFound;
      }
      var m := FindAccount(accounts, ModuleScope, 0, r.day);
      if m == |accounts| {
        return NotFound;
      }
      if Exceeds(accounts[u], r) || Exceeds(accounts[m], r) {
        return QuotaExceeded;
      }
      AddBudgetUsage(UserScope, r.owner, r.day, r);
      OtherRowStays(before, u, r, m);
      AddBudgetUsage(ModuleScope, 0, r.day, r);
      if r.amount < 0.0 || r.kind == OtherCall || FindReservation(reservations, r.attempt) < |reservations| {
        accounts := before;
        return ConstraintViolated;
      }
      reservations := reservations + [HeldRow(r)];
      out := Ok;
    }

    method SettleKnownTx(owner: nat, attempt: nat, amount: real, tokens: int) returns (out: Outcome)
      modifies this
      ensures (Books(accounts, reservations, usage), out) ==
              SettleKnown(Books(old(accounts), old(reservations), old(usage)), owner, attempt, amount, tokens)
    {
      var before, held0 := accounts, reservations;
      var k := FindReservation(reservations, attempt);
      if k == |reservations| || reservations[k].owner != owner {
        return NotFound;
      }
      var held := reservations[k];
      if held.state != Reserved {
        return RevisionConflict;
      }
      reservations := reservations[k := held.(state := SettledKnown)];
      var scope := UserScope;
      var done := 0;
      while done < 2
        invariant 0 <= done <= 2 && (done == 0 ==> scope == UserScope) && (done == 1 ==> scope == ModuleScope)
        invariant reservations == held0[k := held.(state := SettledKnown)] && usage == old(usage)
        invariant done == 0 ==> accounts == before
        invariant done == 1 ==> Release(before, UserScope, owner, held, amount, tokens) == Some(accounts)
        invariant done == 2 ==> exists once :: Release(before, UserScope, owner, held, amount, tokens) == Some(once) &&
                                               Release(once, ModuleScope, 0, held, amount, tokens) == Some(accounts)
      {
        var id := if scope == ModuleScope then 0 else owner;
        var n := FindAccount(accounts, scope, id, held.day);
        if n < |accounts| {
          var a := Released(accounts[n], held, amount, tokens);
          if a.reserved < 0.0 || a.spent < 0.0 {
            accounts, reservations := before, held0;
            return ConstraintViolated;
          }
          accounts := accounts[n := a];
        }
        scope := ModuleScope;
        done := done + 1;
      }
      if attempt in usage {
        accounts, reservations := before, held0;
        return ConstraintViolated;
      }
      usage := usage + {attempt};
      out := Ok;
    }

    method SettleUnknownTx(owner: nat, attempt: nat) returns (out: Outcome)
      modifies this
      ensures (Books(accounts, reservations, usage), out) ==
              SettleUnknown(Books(old(accounts), old(reservations), old(usage)), owner, attempt)
    {
      var before := reservations;
      var k := FindReservation(reservations, attempt);
      if k == |reservations| || reservations[k].owner != owner {
        return NotFound;
      }
      if reservations[k].state != Reserved {
        return NotFound;
      }
      reservations := reservations[k := reservations[k].(state := SettledUnknown)];
      if attempt in usage {
        reservations := before;
        return ConstraintViolated;
      }
      usage := usage + {attempt};
      out := Ok;
    }
  }

  predicate SameKey(a: Account, b: Account) {
    a.scope == b.scope && a.owner == b.owner && a.day == b.day
  }

  /** A lookup depends on the keys of the rows only. */
  lemma FindDependsOnKeys(p: seq<Account>, q: seq<Account>, scope: Scope, owner: nat, day: int)
    requires |p| == |q| && forall k :: 0 <= k < |p| ==> SameKey(p[k], q[k])
    ensures FindAccount(p, scope, owner, day) == FindAccount(q, scope, owner, day)
  {
    var j, k := FindAccount(p, scope, owner, day), FindAccount(q, scope, owner, day);
    assert j < |p| ==> SameKey(p[j], q[j]);
    assert k < |p| ==> SameKey(p[k], q[k]);
  }

  /** Charging the user row does not move the module row. */
  lemma OtherRowStays(accounts: seq<Account>, u: nat, r: Request, m: nat)
    requires u < |accounts| && accounts[u].scope == UserScope
    requires m == FindAccount(accounts, ModuleScope, 0, r.day) && m < |accounts|
    ensures var charged := accounts[u := Charged(accounts[u], r)];
            FindAccount(charged, ModuleScope, 0, r.day) == m && charged[m] == accounts[m]
  {
    FindDependsOnKeys(accounts, accounts[u := Charged(accounts[u], r)], ModuleScope, 0, r.day);
  }
}
