/** Double entry in the futures budget: users against reservations, the module against its users, limits. */
module FuturesLedger {
  import opened Sums
  import opened FuturesBudget

  // ---------------------------------------------------------------- what is added up

  datatype Field = ReservedCNY | SpentCNY | Tokens | ModelCalls | ToolCalls

  function Get(a: Account, f: Field): real {
    match f
    case ReservedCNY => a.reserved
    case SpentCNY => a.spent
    case Tokens => a.tokens as real
    case ModelCalls => a.modelCalls as real
    case ToolCalls => a.toolCalls as real
  }

  /** The field of the user accounts of a day. */
  function OfUsers(day: int, f: Field): Account -> real {
    (a: Account) => if a.scope == UserScope && a.day == day then Get(a, f) else 0.0
  }

  /** What a reservation still holds of a user's account: everything until it is settled at a known cost. */
  function HeldBy(owner: nat, day: int): Reservation -> real {
    (r: Reservation) => if r.owner == owner && r.day == day && r.state != SettledKnown then r.amount else 0.0
  }

  function CallsBy(owner: nat, day: int, kind: Kind): Reservation -> real {
    (r: Reservation) => if r.owner == owner && r.day == day && r.kind == kind then 1.0 else 0.0
  }

  predicate IsModule(a: Account) {
    a.scope == ModuleScope && a.owner == 0
  }

  // ---------------------------------------------------------------- the invariant

  ghost predicate KeysUnique(accounts: seq<Account>) {
    forall j, k :: 0 <= j < k < |accounts| ==> !SameKey(accounts[j], accounts[k])
  }

  /** Every user's reserved amount and call counts are those of the user's reservations of the day. */
  ghost predicate UsersBalance(accounts: seq<Account>, reservations: seq<Reservation>) {
    forall k :: 0 <= k < |accounts| && accounts[k].scope == UserScope ==> UserBalances(accounts[k], reservations)
  }

  ghost predicate UserBalances(a: Account, reservations: seq<Reservation>) {
    && a.reserved == Sum(reservations, HeldBy(a.owner, a.day))
    && a.modelCalls as real == Sum(reservations, CallsBy(a.owner, a.day, ModelCall))
    && a.toolCalls as real == Sum(reservations, CallsBy(a.owner, a.day, ToolCall))
  }

  /** Every field of a module account is the sum of that field over the users of the day. */
  ghost predicate ModuleBalances(accounts: seq<Account>) {
    forall k, f: Field :: 0 <= k < |accounts| && IsModule(accounts[k]) ==>
      Get(accounts[k], f) == Sum(accounts, OfUsers(accounts[k].day, f))
  }

  ghost predicate HasModule(accounts: seq<Account>, day: int) {
    exists k :: 0 <= k < |accounts| && IsModule(accounts[k]) && accounts[k].day == day
  }

  /** On a day without a module account nothing was ever charged. */
  ghost predicate NothingWithoutModule(accounts: seq<Account>) {
    forall k, f: Field ::
      0 <= k < |accounts| && accounts[k].scope == UserScope && !HasModule(accounts, accounts[k].day) ==>
        Get(accounts[k], f) == 0.0
  }

  ghost predicate ReservationsOk(b: Books) {
    && (forall j, k :: 0 <= j < k < |b.reservations| ==> b.reservations[j].attempt != b.reservations[k].attempt)
    && (forall k :: 0 <= k < |b.reservations| ==> ReservationOk(b, b.reservations[k]))
  }

  ghost predicate ReservationOk(b: Books, r: Reservation) {
    && r.amount >= 0.0
    && FindAccount(b.accounts, UserScope, r.owner, r.day) < |b.accounts|
    && FindAccount(b.accounts, ModuleScope, 0, r.day) < |b.accounts|
  }

  ghost predicate CallsWithinLimits(accounts: seq<Account>) {
    forall k :: 0 <= k < |accounts| ==>
      accounts[k].modelCalls <= accounts[k].modelLimit && accounts[k].toolCalls <= accounts[k].toolLimit
  }

  ghost predicate SpentNotNegative(accounts: seq<Account>) {
    forall k :: 0 <= k < |accounts| ==> accounts[k].spent >= 0.0
  }

  ghost predicate Inv(b: Books) {
    && KeysUnique(b.accounts) && UsersBalance(b.accounts, b.reservations) && ModuleBalances(b.accounts)
    && NothingWithoutModule(b.accounts) && ReservationsOk(b)
    && CallsWithinLimits(b.accounts) && SpentNotNegative(b.accounts)
  }

  // ---------------------------------------------------------------- two rows that move together

  /** `a` became `a2` just as `m` became `m2`. */
  ghost predicate MoveAlike(a: Account, a2: Account, m: Account, m2: Account) {
    forall f: Field :: Get(a2, f) - Get(a, f) == Get(m2, f) - Get(m, f)
  }

  lemma UserMoveMovesSum(accounts: seq<Account>, u: nat, a2: Account, day: int, f: Field)
    requires u < |accounts| && accounts[u].scope == UserScope && SameKey(a2, accounts[u])
    ensures Sum(accounts[u := a2], OfUsers(day, f)) ==
            Sum(accounts, OfUsers(day, f)) + if accounts[u].day == day then Get(a2, f) - Get(accounts[u], f) else 0.0
  {
    SumUpdate(accounts, u, a2, OfUsers(day, f));
  }

  lemma ModuleMoveKeepsSum(accounts: seq<Account>, m: nat, m2: Account, day: int, f: Field)
    requires m < |accounts| && accounts[m].scope == ModuleScope && SameKey(m2, accounts[m])
    ensures Sum(accounts[m := m2], OfUsers(day, f)) == Sum(accounts, OfUsers(day, f))
  {
    SumUpdate(accounts, m, m2, OfUsers(day, f));
  }

  /** Moving a user row and the module row of its day alike keeps the module accounts balanced. */
  lemma ModuleBalancesAfterMove(accounts: seq<Account>, u: nat, m: nat, a2: Account, m2: Account)
    requires KeysUnique(accounts) && ModuleBalances(accounts)
    requires u < |accounts| && m < |accounts| && accounts[u].scope == UserScope && IsModule(accounts[m])
             && accounts[m].day == accounts[u].day
    requires SameKey(a2, accounts[u]) && SameKey(m2, accounts[m]) && MoveAlike(accounts[u], a2, accounts[m], m2)
    ensures ModuleBalances(accounts[u := a2][m := m2])
  {
    var once := accounts[u := a2];
    var after := once[m := m2];
    forall k, f: Field | 0 <= k < |after| && IsModule(after[k])
      ensures Get(after[k], f) == Sum(after, OfUsers(after[k].day, f))
    {
      var day := after[k].day;
      UserMoveMovesSum(accounts, u, a2, day, f);
      ModuleMoveKeepsSum(once, m, m2, day, f);
      assert Get(accounts[k], f) == Sum(accounts, OfUsers(day, f));
      if k == m {
        assert Get(a2, f) - Get(accounts[u], f) == Get(m2, f) - Get(accounts[m], f);
      } else {
        assert !SameKey(accounts[k], accounts[m]);
      }
    }
  }

  lemma KeysUniqueAfterMove(accounts: seq<Account>, u: nat, m: nat, a2: Account, m2: Account)
    requires u < |accounts| && m < |accounts| && u != m && KeysUnique(accounts)
    requires SameKey(a2, accounts[u]) && SameKey(m2, accounts[m])
    ensures KeysUnique(accounts[u := a2][m := m2])
    ensures forall k :: 0 <= k < |accounts| ==> SameKey(accounts[u := a2][m := m2][k], accounts[k])
  {
  }

  lemma NothingWithoutModuleAfterMove(accounts: seq<Account>, u: nat, m: nat, a2: Account, m2: Account)
    requires u < |accounts| && m < |accounts| && u != m && NothingWithoutModule(accounts)
    requires IsModule(accounts[m]) && accounts[m].day == accounts[u].day
    requires SameKey(a2, accounts[u]) && SameKey(m2, accounts[m])
    ensures NothingWithoutModule(accounts[u := a2][m := m2])
  {
    var after := accounts[u := a2][m := m2];
    forall k, f: Field | 0 <= k < |after| && after[k].scope == UserScope && !HasModule(after, after[k].day)
      ensures Get(after[k], f) == 0.0
    {
      assert IsModule(after[m]) && accounts[k].day != accounts[u].day;
      assert !HasModule(accounts, accounts[k].day) by {
        forall j | 0 <= j < |accounts| && IsModule(accounts[j]) ensures accounts[j].day != accounts[k].day {
          assert IsModule(after[j]);
        }
      }
    }
  }

  lemma ReservationsOkAfterMove(b: Books, after: seq<Account>)
    requires ReservationsOk(b) && |after| == |b.accounts|
             && forall k :: 0 <= k < |after| ==> SameKey(b.accounts[k], after[k])
    ensures ReservationsOk(b.(accounts := after))
  {
    forall k | 0 <= k < |b.reservations| ensures ReservationOk(b.(accounts := after), b.reservations[k]) {
      var r := b.reservations[k];
      assert ReservationOk(b, r);
      FindDependsOnKeys(b.accounts, after, UserScope, r.owner, r.day);
      FindDependsOnKeys(b.accounts, after, ModuleScope, 0, r.day);
    }
  }

  // ---------------------------------------------------------------- users against reservations

  ghost predicate SameUser(a: Account, owner: nat, day: int) {
    a.scope == UserScope && a.owner == owner && a.day == day
  }

  lemma UserBalancesAfterReserve(a: Account, a2: Account, reservations: seq<Reservation>, r: Request)
    requires UserBalances(a, reservations) && a2 == if a.owner == r.owner && a.day == r.day then Charged(a, r) else a
    ensures UserBalances(a2, reservations + [HeldRow(r)])
  {
    SumNext(reservations, HeldRow(r), HeldBy(a.owner, a.day));
    SumNext(reservations, HeldRow(r), CallsBy(a.owner, a.day, ModelCall));
    SumNext(reservations, HeldRow(r), CallsBy(a.owner, a.day, ToolCall));
  }

  /** Changing the state of a reservation changes what is held and no call count. */
  lemma UserBalancesAfterSettle(a: Account, a2: Account, reservations: seq<Reservation>, k: nat, state: HeldState)
    requires k < |reservations| && reservations[k].state == Reserved && state != Reserved
             && UserBalances(a, reservations)
    requires SameKey(a, a2) && a2.modelCalls == a.modelCalls && a2.toolCalls == a.toolCalls
    requires var held := reservations[k];
             a2.reserved == a.reserved -
               if a.owner == held.owner && a.day == held.day && state == SettledKnown then held.amount else 0.0
    ensures UserBalances(a2, reservations[k := reservations[k].(state := state)])
  {
    var settled := reservations[k].(state := state);
    SumUpdate(reservations, k, settled, HeldBy(a.owner, a.day));
    SumUpdate(reservations, k, settled, CallsBy(a.owner, a.day, ModelCall));
    SumUpdate(reservations, k, settled, CallsBy(a.owner, a.day, ToolCall));
  }

  // ---------------------------------------------------------------- every operation keeps the invariant

  lemma ReserveKeepsInv(b: Books, r: Request)
    requires Inv(b)
    ensures Inv(Reserve(b, r).0) && (Reserve(b, r).1 != Ok ==> Reserve(b, r).0 == b)
  {
    hide KeysUnique, UsersBalance, ModuleBalances, NothingWithoutModule, ReservationsOk, CallsWithinLimits, FindAccount,
      FindReservation, Exceeds;
    var (b2, out) := Reserve(b, r);
    if out == Ok {
      var u := FindAccount(b.accounts, UserScope, r.owner, r.day);
      var m := FindAccount(b.accounts, ModuleScope, 0, r.day);
      var a2, m2 := Charged(b.accounts[u], r), Charged(b.accounts[m], r);
      KeysUniqueAfterMove(b.accounts, u, m, a2, m2);
      ModuleBalancesAfterMove(b.accounts, u, m, a2, m2);
      NothingWithoutModuleAfterMove(b.accounts, u, m, a2, m2);
      UsersBalanceAfterReserve(b, r, u, m);
      ReservationsOkAfterMove(b, b2.accounts);
      AccountsStillFound(b, r, u, m);
      ReservationsOkWithNew(b.(accounts := b2.accounts), r);
      CallsWithinLimitsAfterReserve(b, r);
    }
  }

  lemma UsersBalanceAfterReserve(b: Books, r: Request, u: nat, m: nat)
    requires KeysUnique(b.accounts) && UsersBalance(b.accounts, b.reservations)
    requires u < |b.accounts| && m < |b.accounts| && SameUser(b.accounts[u], r.owner, r.day) && IsModule(b.accounts[m])
    ensures UsersBalance(b.accounts[u := Charged(b.accounts[u], r)][m := Charged(b.accounts[m], r)], b.reservations +
            [HeldRow(r)])
  {
    var after := b.accounts[u := Charged(b.accounts[u], r)][m := Charged(b.accounts[m], r)];
    forall k | 0 <= k < |after| && after[k].scope == UserScope
      ensures UserBalances(after[k], b.reservations + [HeldRow(r)])
    {
      assert k != u ==> !SameKey(b.accounts[k], b.accounts[u]);
      UserBalancesAfterReserve(b.accounts[k], after[k], b.reservations, r);
    }
  }

  lemma AccountsStillFound(b: Books, r: Request, u: nat, m: nat)
    requires u == FindAccount(b.accounts, UserScope, r.owner, r.day) < |b.accounts|
    requires m == FindAccount(b.accounts, ModuleScope, 0, r.day) < |b.accounts|
    requires r.amount >= 0.0
    ensures ReservationOk(b.(accounts := b.accounts[u := Charged(b.accounts[u], r)][m := Charged(b.accounts[m], r)]),
            HeldRow(r))
  {
    var after := b.accounts[u := Charged(b.accounts[u], r)][m := Charged(b.accounts[m], r)];
    FindDependsOnKeys(b.accounts, after, UserScope, r.owner, r.day);
    FindDependsOnKeys(b.accounts, after, ModuleScope, 0, r.day);
  }

  lemma ReservationsOkWithNew(b: Books, r: Request)
    requires ReservationsOk(b) && ReservationOk(b, HeldRow(r))
             && FindReservation(b.reservations, r.attempt) == |b.reservations|
    ensures ReservationsOk(b.(reservations := b.reservations + [HeldRow(r)]))
  {
    var b2 := b.(reservations := b.reservations + [HeldRow(r)]);
    forall k | 0 <= k < |b2.reservations| ensures ReservationOk(b2, b2.reservations[k]) {
      assert k < |b.reservations| ==> ReservationOk(b, b.reservations[k]);
    }
  }

  lemma CallsWithinLimitsAfterReserve(b: Books, r: Request)
    requires CallsWithinLimits(b.accounts)
    ensures CallsWithinLimits(Reserve(b, r).0.accounts)
  {
  }

  /** The row settled by an operation that succeeds. */
  lemma ReservationsOkAfterSettle(b: Books, k: nat, state: HeldState)
    requires ReservationsOk(b) && k < |b.reservations| && state != Reserved
    ensures ReservationsOk(b.(reservations := b.reservations[k := b.reservations[k].(state := state)],
            usage := b.usage + {b.reservations[k].attempt}))
  {
    var held := b.reservations[k];
    var b2 := b.(reservations := b.reservations[k := held.(state := state)], usage := b.usage + {held.attempt});
    forall j | 0 <= j < |b2.reservations| ensures ReservationOk(b2, b2.reservations[j]) {
      assert ReservationOk(b, b.reservations[j]);
    }
  }

  lemma SettleUnknownKeepsInv(b: Books, owner: nat, attempt: nat)
    requires Inv(b)
    ensures var (b2, out) := SettleUnknown(b, owner, attempt); Inv(b2) && (out != Ok ==> b2 == b)
  {
    var (b2, out) := SettleUnknown(b, owner, attempt);
    if out == Ok {
      var k := FindReservation(b.reservations, attempt);
      ReservationsOkAfterSettle(b, k, SettledUnknown);
      forall j | 0 <= j < |b.accounts| && b.accounts[j].scope == UserScope
        ensures UserBalances(b.accounts[j], b2.reservations)
      {
        UserBalancesAfterSettle(b.accounts[j], b.accounts[j], b.reservations, k, SettledUnknown);
      }
    }
  }

  /** What a successful known settlement does: both rows of the reservation's day move alike. */
  lemma SettleKnownMoves(b: Books, owner: nat, attempt: nat, amount: real, tokens: int) returns (k: nat, u: nat, m: nat)
    requires Inv(b) && SettleKnown(b, owner, attempt, amount, tokens).1 == Ok
    ensures k == FindReservation(b.reservations, attempt) < |b.reservations|
    ensures b.reservations[k].attempt == attempt && b.reservations[k].owner == owner
            && b.reservations[k].state == Reserved
    ensures u == FindAccount(b.accounts, UserScope, owner, b.reservations[k].day) < |b.accounts|
    ensures m == FindAccount(b.accounts, ModuleScope, 0, b.reservations[k].day) < |b.accounts|
            && SameUser(b.accounts[u], owner, b.reservations[k].day)
    ensures IsModule(b.accounts[m]) && b.accounts[m].day == b.reservations[k].day
    ensures var a2, m2 := Released(b.accounts[u], b.reservations[k], amount, tokens),
            Released(b.accounts[m], b.reservations[k], amount, tokens);
            && a2.spent >= 0.0 && m2.spent >= 0.0
            && SettleKnown(b, owner, attempt, amount, tokens).0 ==
               Books(b.accounts[u := a2][m := m2], b.reservations[k := b.reservations[k].(state := SettledKnown)],
                 b.usage + {attempt})
  {
    k := FindReservation(b.reservations, attempt);
    var held := b.reservations[k];
    assert ReservationOk(b, held);
    u := FindAccount(b.accounts, UserScope, owner, held.day);
    m := FindAccount(b.accounts, ModuleScope, 0, held.day);
    FindDependsOnKeys(b.accounts, b.accounts[u := Released(b.accounts[u], held, amount, tokens)], ModuleScope, 0,
      held.day);
  }

  lemma SettleKnownFailureKeepsBooks(b: Books, owner: nat, attempt: nat, amount: real, tokens: int)
    ensures var (b2, out) := SettleKnown(b, owner, attempt, amount, tokens); out != Ok ==> b2 == b
  {
  }

  lemma SettleKnownKeepsInv(b: Books, owner: nat, attempt: nat, amount: real, tokens: int)
    requires Inv(b)
    ensures var (b2, out) := SettleKnown(b, owner, attempt, amount, tokens); Inv(b2) && (out != Ok ==> b2 == b)
  {
    hide KeysUnique, ModuleBalances, NothingWithoutModule, ReservationsOk, FindAccount, FindReservation, UsersBalance,
      CallsWithinLimits, SettleKnown;
    var (b2, out) := SettleKnown(b, owner, attempt, amount, tokens);
    SettleKnownFailureKeepsBooks(b, owner, attempt, amount, tokens);
    if out == Ok {
      var k, u, m := SettleKnownMoves(b, owner, attempt, amount, tokens);
      var held := b.reservations[k];
      var a2, m2 := Released(b.accounts[u], held, amount, tokens), Released(b.accounts[m], held, amount, tokens);
      KeysUniqueAfterMove(b.accounts, u, m, a2, m2);
      ModuleBalancesAfterMove(b.accounts, u, m, a2, m2);
      NothingWithoutModuleAfterMove(b.accounts, u, m, a2, m2);
      ReservationsOkAfterMove(b, b2.accounts);
      ReservationsOkAfterSettle(b.(accounts := b2.accounts), k, SettledKnown);
      UsersBalanceAfterSettle(b, k, u, m, a2, m2);
      CallsWithinLimitsAfterMove(b.accounts, u, m, a2, m2);
    }
  }

  lemma UsersBalanceAfterSettle(b: Books, k: nat, u: nat, m: nat, a2: Account, m2: Account)
    requires KeysUnique(b.accounts) && UsersBalance(b.accounts, b.reservations)
    requires k < |b.reservations| && b.reservations[k].state == Reserved
    requires u < |b.accounts| && m < |b.accounts|
             && SameUser(b.accounts[u], b.reservations[k].owner, b.reservations[k].day) && IsModule(b.accounts[m])
    requires SameKey(b.accounts[u], a2) && a2.modelCalls == b.accounts[u].modelCalls
             && a2.toolCalls == b.accounts[u].toolCalls
    requires a2.reserved == b.accounts[u].reserved - b.reservations[k].amount && SameKey(b.accounts[m], m2)
    ensures UsersBalance(b.accounts[u := a2][m := m2], b.reservations[k := b.reservations[k].(state := SettledKnown)])
  {
    var after := b.accounts[u := a2][m := m2];
    forall j | 0 <= j < |after| && after[j].scope == UserScope
      ensures UserBalances(after[j], b.reservations[k := b.reservations[k].(state := SettledKnown)])
    {
      assert j != u ==> !SameKey(b.accounts[j], b.accounts[u]);
      UserBalancesAfterSettle(b.accounts[j], after[j], b.reservations, k, SettledKnown);
    }
  }

  lemma CallsWithinLimitsAfterMove(accounts: seq<Account>, u: nat, m: nat, a2: Account, m2: Account)
    requires u < |accounts| && m < |accounts| && u != m && CallsWithinLimits(accounts)
    requires SameCalls(accounts[u], a2) && SameCalls(accounts[m], m2)
    ensures CallsWithinLimits(accounts[u := a2][m := m2])
  {
  }

  ghost predicate SameCalls(a: Account, b: Account) {
    a.modelCalls == b.modelCalls && a.toolCalls == b.toolCalls && a.modelLimit == b.modelLimit
      && a.toolLimit == b.toolLimit
  }

  lemma FindAfterAppend(accounts: seq<Account>, a: Account, scope: Scope, owner: nat, day: int)
    requires FindAccount(accounts, scope, owner, day) < |accounts|
    ensures FindAccount(accounts + [a], scope, owner, day) < |accounts| + 1
  {
    var k := FindAccount(accounts, scope, owner, day);
    assert (accounts + [a])[k] == accounts[k];
  }

  /** A new account is balanced: no reservation can name it and, for a module, no user was charged. */
  lemma SeedBalances(b: Books, a: Account)
    requires Inv(b) && FindAccount(b.accounts, a.scope, a.owner, a.day) == |b.accounts|
    requires forall f: Field :: Get(a, f) == 0.0
    ensures UsersBalance(b.accounts + [a], b.reservations) && ModuleBalances(b.accounts + [a])
  {
    if a.scope == UserScope {
      forall j | 0 <= j < |b.reservations|
        ensures b.reservations[j].owner != a.owner || b.reservations[j].day != a.day
      {
        assert ReservationOk(b, b.reservations[j]);
      }
      SumOfZeros(b.reservations, HeldBy(a.owner, a.day));
      SumOfZeros(b.reservations, CallsBy(a.owner, a.day, ModelCall));
      SumOfZeros(b.reservations, CallsBy(a.owner, a.day, ToolCall));
      assert Get(a, ReservedCNY) == Get(a, ModelCalls) == Get(a, ToolCalls) == 0.0;
    }
    forall k, f: Field | 0 <= k < |b.accounts| + 1 && IsModule((b.accounts + [a])[k])
      ensures Get((b.accounts + [a])[k], f) == Sum(b.accounts + [a], OfUsers((b.accounts + [a])[k].day, f))
    {
      var day := (b.accounts + [a])[k].day;
      SumNext(b.accounts, a, OfUsers(day, f));
      if k == |b.accounts| {
        assert !HasModule(b.accounts, day);
        SumOfZeros(b.accounts, OfUsers(day, f));
      }
    }
  }

  lemma SeedKeepsRest(b: Books, a: Account)
    requires KeysUnique(b.accounts) && NothingWithoutModule(b.accounts) && ReservationsOk(b)
    requires FindAccount(b.accounts, a.scope, a.owner, a.day) == |b.accounts|
    requires forall f: Field :: Get(a, f) == 0.0
    ensures KeysUnique(b.accounts + [a]) && NothingWithoutModule(b.accounts + [a])
            && ReservationsOk(b.(accounts := b.accounts + [a]))
  {
    var after := b.accounts + [a];
    forall k, f: Field | 0 <= k < |after| && after[k].scope == UserScope && !HasModule(after, after[k].day)
      ensures Get(after[k], f) == 0.0
    {
      if k < |b.accounts| {
        assert forall j :: 0 <= j < |b.accounts| ==> after[j] == b.accounts[j];
        assert !HasModule(b.accounts, after[k].day);
      }
    }
    forall k | 0 <= k < |b.reservations| ensures ReservationOk(b.(accounts := after), b.reservations[k]) {
      var r := b.reservations[k];
      assert ReservationOk(b, r);
      FindAfterAppend(b.accounts, a, UserScope, r.owner, r.day);
      FindAfterAppend(b.accounts, a, ModuleScope, 0, r.day);
    }
  }

  lemma SeedKeepsInv(b: Books, op: Op)
    requires Inv(b) && op.SeedAccount?
    ensures Inv(Step(b, op).0)
  {
    hide FindAccount, ModuleBalances, UsersBalance, ReservationsOk, KeysUnique, NothingWithoutModule;
    var (b2, out) := Step(b, op);
    if b2 != b {
      var a := b2.accounts[|b.accounts|];
      assert forall f: Field :: Get(a, f) == 0.0;
      SeedBalances(b, a);
      SeedKeepsRest(b, a);
    }
  }

  // ---------------------------------------------------------------- histories

  datatype Op =
    | SeedAccount(scope: Scope, owner: nat, day: int, limit: real, modelLimit: int, toolLimit: int, tokenLimit: int)
    | ReserveCall(request: Request)
    | KnownCost(owner: nat, attempt: nat, amount: real, tokens: int)
    | UnknownCost(owner: nat, attempt: nat)

  function Step(b: Books, op: Op): (Books, Outcome) {
    match op
    case SeedAccount(scope, owner, day, limit, models, tools, tokens) =>
      Seed(b, scope, owner, day, limit, models, tools, tokens)
    case ReserveCall(r) => Reserve(b, r)
    case KnownCost(owner, attempt, amount, tokens) => SettleKnown(b, owner, attempt, amount, tokens)
    case UnknownCost(owner, attempt) => SettleUnknown(b, owner, attempt)
  }

  function After(ops: seq<Op>): Books {
    if ops == [] then EMPTY_BOOKS else Step(After(ops[..|ops| - 1]), ops[|ops| - 1]).0
  }

  /** Double entry holds after every history of operations, failed ones included. */
  lemma {:induction false} DoubleEntry(ops: seq<Op>)
    ensures Inv(After(ops))
  {
    hide Inv, Reserve, SettleKnown, SettleUnknown, Seed;
    if ops == [] {
      NothingBalances();
    } else {
      DoubleEntry(ops[..|ops| - 1]);
      var b, op := After(ops[..|ops| - 1]), ops[|ops| - 1];
      match op
      case SeedAccount(_, _, _, _, _, _, _) => SeedKeepsInv(b, op);
      case ReserveCall(r) => ReserveKeepsInv(b, r);
      case KnownCost(owner, attempt, amount, tokens) => SettleKnownKeepsInv(b, owner, attempt, amount, tokens);
      case UnknownCost(owner, attempt) => SettleUnknownKeepsInv(b, owner, attempt);
    }
  }

  lemma NothingBalances()
    ensures Inv(EMPTY_BOOKS)
  {
  }

  // ---------------------------------------------------------------- limits

  ghost predicate WithinLimits(accounts: seq<Account>) {
    forall k :: 0 <= k < |accounts| ==> Used(accounts[k]) <= accounts[k].limit
  }

  function Used(a: Account): real {
    a.reserved + a.spent
  }

  /** A known settlement stays within the limits exactly when what it costs above its
      reservation still fits both accounts. */
  lemma SettlementWithinLimitsIff(b: Books, owner: nat, attempt: nat, amount: real, tokens: int)
    requires Inv(b) && WithinLimits(b.accounts) && SettleKnown(b, owner, attempt, amount, tokens).1 == Ok
    ensures var held := b.reservations[FindReservation(b.reservations, attempt)];
            var u, m := FindAccount(b.accounts, UserScope, owner, held.day),
              FindAccount(b.accounts, ModuleScope, 0, held.day);
            && u < |b.accounts| && m < |b.accounts|
            && (WithinLimits(SettleKnown(b, owner, attempt, amount, tokens).0.accounts) <==>
                && amount - held.amount <= b.accounts[u].limit - Used(b.accounts[u])
                && amount - held.amount <= b.accounts[m].limit - Used(b.accounts[m]))
  {
    hide Inv, FindAccount, FindReservation, SettleKnown;
    var k, u, m := SettleKnownMoves(b, owner, attempt, amount, tokens);
    var held := b.reservations[k];
    var after := SettleKnown(b, owner, attempt, amount, tokens).0.accounts;
    assert Used(after[u]) == Used(b.accounts[u]) + (amount - held.amount);
    assert Used(after[m]) == Used(b.accounts[m]) + (amount - held.amount);
  }

  /** The operation settles no reservation at more than it reserved. */
  ghost predicate CostsNoMoreThanReserved(b: Books, op: Op) {
    op.KnownCost? ==>
      var k := FindReservation(b.reservations, op.attempt);
      k < |b.reservations| ==> op.amount <= b.reservations[k].amount
  }

  lemma ReserveStaysWithinLimits(b: Books, r: Request)
    requires WithinLimits(b.accounts)
    ensures WithinLimits(Reserve(b, r).0.accounts)
  {
  }

  /** Reserved plus spent never passes an account's limit, user or module, if no settlement
      costs more than was reserved. */
  lemma {:induction false} NeverOverLimit(ops: seq<Op>)
    requires forall n :: 0 <= n < |ops| ==> CostsNoMoreThanReserved(After(ops[..n]), ops[n])
    ensures WithinLimits(After(ops).accounts)
  {
    hide Inv, Reserve, SettleKnown, Step, FindAccount;
    if ops == [] {
    } else {
      var before := ops[..|ops| - 1];
      var b, op := After(before), ops[|ops| - 1];
      forall n | 0 <= n < |before| ensures CostsNoMoreThanReserved(After(before[..n]), before[n]) {
        assert before[..n] == ops[..n];
      }
      NeverOverLimit(before);
      DoubleEntry(before);
      StepStaysWithinLimits(b, op);
    }
  }

  lemma StepStaysWithinLimits(b: Books, op: Op)
    requires Inv(b) && WithinLimits(b.accounts) && CostsNoMoreThanReserved(b, op)
    ensures WithinLimits(Step(b, op).0.accounts)
  {
    hide Inv, Reserve, SettleKnown, FindAccount;
    match op
    case ReserveCall(r) => ReserveStaysWithinLimits(b, r);
    case KnownCost(owner, attempt, amount, tokens) =>
      SettleKnownFailureKeepsBooks(b, owner, attempt, amount, tokens);
      if SettleKnown(b, owner, attempt, amount, tokens).1 == Ok {
        SettlementWithinLimitsIff(b, owner, attempt, amount, tokens);
        var k, u, m := SettleKnownMoves(b, owner, attempt, amount, tokens);
      }
    case _ =>
  }

  /** A settlement above its reservation can take an account past its limit: reserve 10 of 10, spend 20. */
  lemma SettlementCanPassTheLimit()
    ensures var ops := [
              SeedAccount(UserScope, 1, 0, 10.0, 5, 5, 0), SeedAccount(ModuleScope, 0, 0, 100.0, 5, 5, 0),
              ReserveCall(Request(7, 1, 0, 10.0, 0, ModelCall)), KnownCost(1, 7, 20.0, 0)];
            var b := After(ops); |b.accounts| == 2 && Used(b.accounts[0]) == 20.0 && b.accounts[0].limit == 10.0
  {
    var s1 := SeedAccount(UserScope, 1, 0, 10.0, 5, 5, 0);
    var s2 := SeedAccount(ModuleScope, 0, 0, 100.0, 5, 5, 0);
    var s3 := ReserveCall(Request(7, 1, 0, 10.0, 0, ModelCall));
    var s4 := KnownCost(1, 7, 20.0, 0);
    var a1 := Account(UserScope, 1, 0, 10.0, 0.0, 0.0, 0, 0, 0, 5, 5, 0);
    var a2 := Account(ModuleScope, 0, 0, 100.0, 0.0, 0.0, 0, 0, 0, 5, 5, 0);
    assert [s1, s2, s3, s4][..3] == [s1, s2, s3] && [s1, s2, s3][..2] == [s1, s2] && [s1, s2][..1] == [s1]
           && [s1][..0] == [];
    assert After([s1]).accounts == [a1];
    TwoAccounts(a1, a2);
    assert After([s1, s2]) == Books([a1, a2], [], {});
    var b3 := After([s1, s2, s3]);
    assert b3.accounts == [a1.(reserved := 10.0, modelCalls := 1), a2.(reserved := 10.0, modelCalls := 1)];
    TwoAccounts(b3.accounts[0], b3.accounts[1]);
    assert b3.reservations == [HeldRow(s3.request)];
    var once := Release(b3.accounts, UserScope, 1, b3.reservations[0], 20.0, 0);
    TwoAccounts(once.value[0], once.value[1]);
  }

  lemma TwoAccounts(a: Account, m: Account)
    requires SameUser(a, 1, 0) && m.scope == ModuleScope && m.owner == 0 && m.day == 0
    ensures FindAccount([a], ModuleScope, 0, 0) == 1
    ensures FindAccount([a, m], UserScope, 1, 0) == 0 && FindAccount([a, m], ModuleScope, 0, 0) == 1
  {
    assert [a, m][1..] == [m];
  }
}
