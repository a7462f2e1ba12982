/** The answers of the futures budget and its token quota, over the fields of the accounts. */
module FuturesQuota {
  import opened Sums
  import opened FuturesBudget
  import opened FuturesLedger

  // ---------------------------------------------------------------- what a reservation is answered

  /** What a request would leave on an account passes one of its limits; a token limit of zero is none. */
  predicate PassesALimit(a: Account, r: Request) {
    || a.limit < a.reserved + a.spent + r.amount
    || (0 < a.tokenLimit < a.tokens + r.tokens)
    || (r.kind == ModelCall && a.modelLimit <= a.modelCalls)
    || (r.kind == ToolCall && a.toolLimit <= a.toolCalls)
  }

  ghost predicate HasAccount(b: Books, scope: Scope, owner: nat, day: int) {
    exists k :: 0 <= k < |b.accounts| && b.accounts[k].scope == scope && b.accounts[k].owner == owner
                && b.accounts[k].day == day
  }

  /** One of the accounts of the user and of the module for that day would pass a limit. */
  ghost predicate OverQuota(b: Books, r: Request) {
    exists k :: 0 <= k < |b.accounts| && b.accounts[k].day == r.day && PassesALimit(b.accounts[k], r)
                && (SameUser(b.accounts[k], r.owner, r.day) || IsModule(b.accounts[k]))
  }

  ghost predicate Taken(b: Books, attempt: nat) {
    exists k :: 0 <= k < |b.reservations| && b.reservations[k].attempt == attempt
  }

  lemma FoundIff(b: Books, scope: Scope, owner: nat, day: int)
    ensures FindAccount(b.accounts, scope, owner, day) < |b.accounts| <==> HasAccount(b, scope, owner, day)
  {
  }

  lemma TakenIff(b: Books, attempt: nat)
    ensures FindReservation(b.reservations, attempt) < |b.reservations| <==> Taken(b, attempt)
  {
  }

  lemma ExceedsIff(a: Account, r: Request)
    ensures Exceeds(a, r) <==> PassesALimit(a, r)
  {
  }

  lemma OverQuotaIff(b: Books, r: Request, u: nat, m: nat)
    requires KeysUnique(b.accounts) && u < |b.accounts| && m < |b.accounts|
    requires SameUser(b.accounts[u], r.owner, r.day) && IsModule(b.accounts[m]) && b.accounts[m].day == r.day
    ensures OverQuota(b, r) <==> PassesALimit(b.accounts[u], r) || PassesALimit(b.accounts[m], r)
  {
    hide PassesALimit;
    forall k | 0 <= k < |b.accounts| && b.accounts[k].day == r.day
      && (SameUser(b.accounts[k], r.owner, r.day) || IsModule(b.accounts[k]))
      ensures k == u || k == m
    {
      assert k != u ==> !SameKey(b.accounts[k], b.accounts[u]);
      assert k != m ==> !SameKey(b.accounts[k], b.accounts[m]);
    }
  }

  /** Each answer of a reservation, exactly: a missing account, a limit it would pass, a row the
      tables refuse; else it is
      held. */
  lemma ReservationIsAnswered(b: Books, r: Request)
    requires Inv(b)
    ensures var (b2, out) := Reserve(b, r);
            var found := HasAccount(b, UserScope, r.owner, r.day) && HasAccount(b, ModuleScope, 0, r.day);
            && (out == NotFound <==> !found)
            && (out == QuotaExceeded <==> found && OverQuota(b, r))
            && (out == ConstraintViolated <==>
                  found && !OverQuota(b, r) && (r.amount < 0.0 || r.kind == OtherCall || Taken(b, r.attempt)))
            && (out != Ok ==> b2 == b)
            && (out == Ok ==> |b2.reservations| == |b.reservations| + 1
                              && b2.reservations[..|b.reservations|] == b.reservations
                              && b2.reservations[|b.reservations|].state == Reserved
                              && RequestOf(b2.reservations[|b.reservations|]) == r)
  {
    hide Exceeds, PassesALimit, OverQuota, FindAccount, FindReservation, Inv, HasAccount, Taken;
    FoundIff(b, UserScope, r.owner, r.day);
    FoundIff(b, ModuleScope, 0, r.day);
    TakenIff(b, r.attempt);
    var u, m := FindAccount(b.accounts, UserScope, r.owner, r.day), FindAccount(b.accounts, ModuleScope, 0, r.day);
    if u < |b.accounts| && m < |b.accounts| {
      ExceedsIff(b.accounts[u], r);
      ExceedsIff(b.accounts[m], r);
      assert KeysUnique(b.accounts) by { InvHasKeys(b); }
      OverQuotaIff(b, r, u, m);
    }
  }

  lemma InvHasKeys(b: Books)
    requires Inv(b)
    ensures KeysUnique(b.accounts)
  {
  }

  function RequestOf(h: Reservation): Request {
    Request(h.attempt, h.owner, h.day, h.amount, h.tokens, h.kind)
  }

  /** Opening an account: once, with the limits asked for and nothing used; none of them may be negative. */
  lemma OpeningIsAnswered(b: Books, scope: Scope, owner: nat, day: int, limit: real, models: int, tools: int,
          tokens: int)
    ensures var (b2, out) := Seed(b, scope, owner, day, limit, models, tools, tokens);
            var negative := limit < 0.0 || models < 0 || tools < 0 || tokens < 0;
            && (out == ConstraintViolated <==> !HasAccount(b, scope, owner, day) && negative)
            && (out != ConstraintViolated ==> out == Ok)
            && b2.reservations == b.reservations && b2.usage == b.usage
            && (HasAccount(b, scope, owner, day) || negative ==> b2 == b)
            && (!HasAccount(b, scope, owner, day) && !negative ==>
                  && |b2.accounts| == |b.accounts| + 1 && b2.accounts[..|b.accounts|] == b.accounts
                  && var a := b2.accounts[|b.accounts|];
                     && a.scope == scope && a.owner == owner && a.day == day && a.limit == limit
                     && a.modelLimit == models && a.toolLimit == tools && a.tokenLimit == tokens
                     && a.reserved == a.spent == 0.0 && a.modelCalls == a.toolCalls == a.tokens == 0)
  {
    hide FindAccount, HasAccount;
    FoundIff(b, scope, owner, day);
  }

  // ---------------------------------------------------------------- what a settlement is answered

  ghost predicate Holds(b: Books, owner: nat, attempt: nat, state: HeldState) {
    exists k :: 0 <= k < |b.reservations| && b.reservations[k].attempt == attempt && b.reservations[k].owner == owner
                && b.reservations[k].state == state
  }

  /** Neither the user's nor the module's spending would become negative. */
  ghost predicate SpendingStays(b: Books, owner: nat, attempt: nat, amount: real) {
    forall k, h :: 0 <= k < |b.accounts| && h in b.reservations && h.attempt == attempt
                   && (SameUser(b.accounts[k], owner, h.day) || (IsModule(b.accounts[k]) && b.accounts[k].day == h.day))
                   ==> b.accounts[k].spent + amount >= 0.0
  }

  lemma {:induction false} SumAtLeast<T>(xs: seq<T>, k: nat, f: T -> real)
    requires k < |xs| && forall j :: 0 <= j < |xs| ==> f(xs[j]) >= 0.0
    ensures Sum(xs, f) >= f(xs[k])
    decreases |xs|
  {
    var m := |xs| - 1;
    if k < m {
      SumAtLeast(xs[..m], k, f);
    } else {
      SumNotNegative(xs[..m], f);
    }
  }

  /** What a reservation holds is reserved on both accounts. */
  lemma HeldIsReserved(b: Books, k: nat, u: nat, m: nat)
    requires Inv(b) && k < |b.reservations| && b.reservations[k].state == Reserved
    requires u < |b.accounts| && SameUser(b.accounts[u], b.reservations[k].owner, b.reservations[k].day)
    requires m < |b.accounts| && IsModule(b.accounts[m]) && b.accounts[m].day == b.reservations[k].day
    ensures b.accounts[u].reserved >= b.reservations[k].amount && b.accounts[m].reserved >= b.reservations[k].amount
  {
    var held := b.reservations[k];
    forall j | 0 <= j < |b.reservations| ensures b.reservations[j].amount >= 0.0 {
      assert ReservationOk(b, b.reservations[j]);
    }
    SumAtLeast(b.reservations, k, HeldBy(held.owner, held.day));
    assert UserBalances(b.accounts[u], b.reservations);
    var f := OfUsers(held.day, ReservedCNY);
    forall j | 0 <= j < |b.accounts| ensures f(b.accounts[j]) >= 0.0 {
      if b.accounts[j].scope == UserScope {
        assert UserBalances(b.accounts[j], b.reservations);
        SumNotNegative(b.reservations, HeldBy(b.accounts[j].owner, b.accounts[j].day));
      }
    }
    SumAtLeast(b.accounts, u, f);
    assert Get(b.accounts[m], ReservedCNY) == Sum(b.accounts, f);
  }

  lemma HoldsIff(b: Books, owner: nat, attempt: nat, state: HeldState)
    requires Inv(b)
    ensures var k := FindReservation(b.reservations, attempt);
            Holds(b, owner, attempt, state) <==>
            k < |b.reservations| && b.reservations[k].owner == owner && b.reservations[k].state == state
  {
    hide UsersBalance, ModuleBalances, NothingWithoutModule;
    var k := FindReservation(b.reservations, attempt);
    if Holds(b, owner, attempt, state) {
      var j :| 0 <= j < |b.reservations| && b.reservations[j].attempt == attempt && b.reservations[j].owner == owner
        && b.reservations[j].state == state;
      assert !(j < k) && !(k < j);
    }
  }

  /** The accounts of a held reservation, and that they are the only ones its settlement asks about. */
  lemma HeldAccounts(b: Books, k: nat, amount: real) returns (u: nat, m: nat)
    requires Inv(b) && k < |b.reservations|
    ensures var h := b.reservations[k];
            && u == FindAccount(b.accounts, UserScope, h.owner, h.day) < |b.accounts|
            && m == FindAccount(b.accounts, ModuleScope, 0, h.day) < |b.accounts|
            && SameUser(b.accounts[u], h.owner, h.day) && IsModule(b.accounts[m]) && b.accounts[m].day == h.day
            && (SpendingStays(b, h.owner, h.attempt, amount) <==>
                b.accounts[u].spent + amount >= 0.0 && b.accounts[m].spent + amount >= 0.0)
  {
    hide UsersBalance, ModuleBalances, NothingWithoutModule, FindAccount;
    var h := b.reservations[k];
    assert ReservationOk(b, h) && h in b.reservations;
    u, m := FindAccount(b.accounts, UserScope, h.owner, h.day), FindAccount(b.accounts, ModuleScope, 0, h.day);
    forall j, g | 0 <= j < |b.accounts| && g in b.reservations && g.attempt == h.attempt
      && (SameUser(b.accounts[j], h.owner, g.day) || (IsModule(b.accounts[j]) && b.accounts[j].day == g.day))
      ensures j == u || j == m
    {
      assert g == h;
      assert j != u ==> !SameKey(b.accounts[j], b.accounts[u]);
      assert j != m ==> !SameKey(b.accounts[j], b.accounts[m]);
    }
  }

  lemma ReleaseAnswers(b: Books, k: nat, u: nat, m: nat, amount: real, tokens: int)
    requires Inv(b) && k < |b.reservations| && b.reservations[k].state == Reserved
    requires var h := b.reservations[k];
             && u == FindAccount(b.accounts, UserScope, h.owner, h.day) < |b.accounts|
             && m == FindAccount(b.accounts, ModuleScope, 0, h.day) < |b.accounts|
    ensures var h := b.reservations[k];
            var once := Release(b.accounts, UserScope, h.owner, h, amount, tokens);
            (once.Some? && Release(once.value, ModuleScope, 0, h, amount, tokens).Some?) <==>
            b.accounts[u].spent + amount >= 0.0 && b.accounts[m].spent + amount >= 0.0
  {
    hide Inv, FindAccount;
    var h := b.reservations[k];
    HeldIsReserved(b, k, u, m);
    FindDependsOnKeys(b.accounts, b.accounts[u := Released(b.accounts[u], h, amount, tokens)], ModuleScope, 0, h.day);
  }

  /** Each answer of a settlement at a known cost, exactly. */
  lemma SettlementIsAnswered(b: Books, owner: nat, attempt: nat, amount: real, tokens: int)
    requires Inv(b)
    ensures var out := SettleKnown(b, owner, attempt, amount, tokens).1;
            var settled := Holds(b, owner, attempt, SettledKnown) || Holds(b, owner, attempt, SettledUnknown);
            && (out == NotFound <==> !settled && !Holds(b, owner, attempt, Reserved))
            && (out == RevisionConflict <==> settled)
            && (out == Ok <==> Holds(b, owner, attempt, Reserved) && attempt !in b.usage
                               && SpendingStays(b, owner, attempt, amount))
  {
    hide Inv, Holds, SpendingStays, FindReservation, FindAccount, Release;
    HoldsIff(b, owner, attempt, Reserved);
    HoldsIff(b, owner, attempt, SettledKnown);
    HoldsIff(b, owner, attempt, SettledUnknown);
    var k := FindReservation(b.reservations, attempt);
    if k < |b.reservations| && b.reservations[k].owner == owner && b.reservations[k].state == Reserved {
      var u, m := HeldAccounts(b, k, amount);
      ReleaseAnswers(b, k, u, m, amount, tokens);
      assert b.reservations[k].attempt == attempt;
    }
  }

  /** And of a settlement at an unknown cost, which can be had once only. */
  lemma UnknownSettlementIsAnswered(b: Books, owner: nat, attempt: nat)
    requires Inv(b)
    ensures var (b2, out) := SettleUnknown(b, owner, attempt);
            && (out == NotFound <==> !Holds(b, owner, attempt, Reserved))
            && (out == Ok <==> Holds(b, owner, attempt, Reserved) && attempt !in b.usage)
            && (out == Ok ==> Holds(b2, owner, attempt, SettledUnknown) && attempt in b2.usage
                              && SettleUnknown(b2, owner, attempt).1 == NotFound)
            && (out != Ok ==> b2 == b) && b2.accounts == b.accounts
  {
    hide Inv, Holds, FindReservation;
    HoldsIff(b, owner, attempt, Reserved);
    var k := FindReservation(b.reservations, attempt);
    var (b2, out) := SettleUnknown(b, owner, attempt);
    if out == Ok {
      SettleUnknownKeepsInv(b, owner, attempt);
      FoundAgain(b, k, SettledUnknown);
      HoldsIff(b2, owner, attempt, SettledUnknown);
    }
  }

  lemma FoundAgain(b: Books, k: nat, state: HeldState)
    requires k < |b.reservations| && k == FindReservation(b.reservations, b.reservations[k].attempt)
    ensures FindReservation(b.reservations[k := b.reservations[k].(state := state)], b.reservations[k].attempt) == k
  {
    var after := b.reservations[k := b.reservations[k].(state := state)];
    assert forall j :: 0 <= j < |after| ==> after[j].attempt == b.reservations[j].attempt;
    var n := FindReservation(after, b.reservations[k].attempt);
    assert after[k].attempt == b.reservations[k].attempt;
  }

  // ---------------------------------------------------------------- tokens

  ghost predicate TokensWithin(accounts: seq<Account>) {
    forall k :: 0 <= k < |accounts| && accounts[k].tokenLimit > 0 ==> accounts[k].tokens <= accounts[k].tokenLimit
  }

  /** The account has room for so many more tokens. */
  predicate Fits(a: Account, more: int) {
    a.tokenLimit > 0 ==> more <= a.tokenLimit - a.tokens
  }

  /** A known settlement stays within the token quotas exactly when what it used above its reservation still fits both
      accounts. */
  lemma SettlementWithinTokensIff(b: Books, owner: nat, attempt: nat, amount: real, tokens: int)
    requires Inv(b) && TokensWithin(b.accounts) && SettleKnown(b, owner, attempt, amount, tokens).1 == Ok
    ensures var held := b.reservations[FindReservation(b.reservations, attempt)];
            var u, m := FindAccount(b.accounts, UserScope, owner, held.day),
              FindAccount(b.accounts, ModuleScope, 0, held.day);
            && u < |b.accounts| && m < |b.accounts|
            && (TokensWithin(SettleKnown(b, owner, attempt, amount, tokens).0.accounts) <==>
                Fits(b.accounts[u], tokens - held.tokens) && Fits(b.accounts[m], tokens - held.tokens))
  {
    hide Inv, FindAccount, FindReservation, SettleKnown;
    var k, u, m := SettleKnownMoves(b, owner, attempt, amount, tokens);
    var held := b.reservations[k];
    var after := SettleKnown(b, owner, attempt, amount, tokens).0.accounts;
    assert after[u].tokens == b.accounts[u].tokens + (tokens - held.tokens);
    assert after[m].tokens == b.accounts[m].tokens + (tokens - held.tokens);
  }

  /** The operation settles no reservation with more tokens than it reserved. */
  ghost predicate UsesNoMoreThanReserved(b: Books, op: Op) {
    op.KnownCost? ==>
      var k := FindReservation(b.reservations, op.attempt);
      k < |b.reservations| ==> op.tokens <= b.reservations[k].tokens
  }

  lemma ReservationStaysWithinTokens(b: Books, r: Request)
    requires TokensWithin(b.accounts)
    ensures TokensWithin(Reserve(b, r).0.accounts)
  {
  }

  lemma StepStaysWithinTokens(b: Books, op: Op)
    requires Inv(b) && TokensWithin(b.accounts) && UsesNoMoreThanReserved(b, op)
    ensures TokensWithin(Step(b, op).0.accounts)
  {
    hide Inv, Reserve, SettleKnown, FindAccount;
    match op
    case ReserveCall(r) => ReservationStaysWithinTokens(b, r);
    case KnownCost(owner, attempt, amount, tokens) =>
      SettleKnownFailureKeepsBooks(b, owner, attempt, amount, tokens);
      if SettleKnown(b, owner, attempt, amount, tokens).1 == Ok {
        SettlementWithinTokensIff(b, owner, attempt, amount, tokens);
        var k, u, m := SettleKnownMoves(b, owner, attempt, amount, tokens);
      }
    case _ =>
  }

  /** After every history in which no settlement uses more tokens than were reserved, every account with a token limit,
      user or module, is within it. */
  lemma {:induction false} NeverOverTokens(ops: seq<Op>)
    requires forall n :: 0 <= n < |ops| ==> UsesNoMoreThanReserved(After(ops[..n]), ops[n])
    ensures TokensWithin(After(ops).accounts)
  {
    hide Inv, Step, UsesNoMoreThanReserved;
    if ops != [] {
      var before := ops[..|ops| - 1];
      var b, op := After(before), ops[|ops| - 1];
      forall n | 0 <= n < |before| ensures UsesNoMoreThanReserved(After(before[..n]), before[n]) {
        assert before[..n] == ops[..n];
      }
      NeverOverTokens(before);
      DoubleEntry(before);
      StepStaysWithinTokens(b, op);
    }
  }
}
