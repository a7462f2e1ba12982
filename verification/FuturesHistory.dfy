/** Every field of a futures account, from the operations of a history that succeeded. */
module FuturesHistory {
  import opened FuturesBudget
  import opened FuturesLedger

  /** What a granted request puts on its user's account. */
  function Requested(r: Request, f: Field): real {
    match f
    case ReservedCNY => r.amount
    case SpentCNY => 0.0
    case Tokens => r.tokens as real
    case ModelCalls => if r.kind == ModelCall then 1.0 else 0.0
    case ToolCalls => if r.kind == ToolCall then 1.0 else 0.0
  }

  /** What a settlement moves there: the reserved amount becomes what was spent, the reserved tokens those used. */
  function Settled(held: Reservation, amount: real, tokens: int, f: Field): real {
    match f
    case ReservedCNY => -held.amount
    case SpentCNY => amount
    case Tokens => (tokens - held.tokens) as real
    case ModelCalls => 0.0
    case ToolCalls => 0.0
  }

  /** What one operation puts on the account of a user and day; one that fails puts nothing. */
  ghost function Effect(b: Books, op: Op, owner: nat, day: int, f: Field): real {
    if Step(b, op).1 != Ok then 0.0
    else
      match op
      case ReserveCall(r) => if r.owner == owner && r.day == day then Requested(r, f) else 0.0
      case KnownCost(who, attempt, amount, tokens) =>
        if exists h: Reservation :: h in b.reservations && h.attempt == attempt && h.day == day && who == owner then
          Settled(b.reservations[FindReservation(b.reservations, attempt)], amount, tokens, f)
        else 0.0
      case _ => 0.0
  }

  ghost function Booked(ops: seq<Op>, owner: nat, day: int, f: Field): real {
    if ops == [] then 0.0
    else
      var front := ops[..|ops| - 1];
      Booked(front, owner, day, f) + Effect(After(front), ops[|ops| - 1], owner, day, f)
  }

  /** The field of the user's account, or zero without one. */
  ghost function Shown(accounts: seq<Account>, owner: nat, day: int, f: Field): real {
    var k := FindAccount(accounts, UserScope, owner, day);
    if k < |accounts| then Get(accounts[k], f) else 0.0
  }

  lemma ShownAfterMove(accounts: seq<Account>, u: nat, m: nat, a2: Account, m2: Account, owner: nat, day: int, f: Field)
    requires u < |accounts| && m < |accounts| && SameKey(accounts[u], a2) && SameKey(accounts[m], m2)
    requires accounts[u].scope == UserScope && accounts[m].scope == ModuleScope
    requires u == FindAccount(accounts, UserScope, accounts[u].owner, accounts[u].day)
    ensures Shown(accounts[u := a2][m := m2], owner, day, f) - Shown(accounts, owner, day, f) ==
            if SameUser(accounts[u], owner, day) then Get(a2, f) - Get(accounts[u], f) else 0.0
  {
    hide FindAccount;
    var after := accounts[u := a2][m := m2];
    FindDependsOnKeys(accounts, after, UserScope, owner, day);
  }

  lemma FindAfterNew(accounts: seq<Account>, a: Account, owner: nat, day: int)
    requires FindAccount(accounts, a.scope, a.owner, a.day) == |accounts|
    ensures var k, k2 := FindAccount(accounts, UserScope, owner, day),
            FindAccount(accounts + [a], UserScope, owner, day);
            if k < |accounts| then k2 == k
              else if SameUser(a, owner, day) then k2 == |accounts| else k2 == |accounts| + 1
  {
    var after := accounts + [a];
    assert forall j :: 0 <= j < |accounts| ==> after[j] == accounts[j];
    assert after[|accounts|] == a;
  }

  lemma SeedShows(b: Books, op: Op, owner: nat, day: int, f: Field)
    requires op.SeedAccount?
    ensures Shown(Step(b, op).0.accounts, owner, day, f) == Shown(b.accounts, owner, day, f)
  {
    hide FindAccount;
    var b2 := Step(b, op).0;
    if b2 != b {
      FindAfterNew(b.accounts, b2.accounts[|b.accounts|], owner, day);
    }
  }

  lemma ReserveShows(b: Books, r: Request, owner: nat, day: int, f: Field)
    ensures Shown(Reserve(b, r).0.accounts, owner, day, f) ==
            Shown(b.accounts, owner, day, f) + Effect(b, ReserveCall(r), owner, day, f)
  {
    hide FindAccount, FindReservation, Exceeds, Shown;
    if Reserve(b, r).1 == Ok {
      var u, m := FindAccount(b.accounts, UserScope, r.owner, r.day), FindAccount(b.accounts, ModuleScope, 0, r.day);
      ShownAfterMove(b.accounts, u, m, Charged(b.accounts[u], r), Charged(b.accounts[m], r), owner, day, f);
      ChargedBy(b.accounts[u], r, f);
    }
  }

  lemma ChargedBy(a: Account, r: Request, f: Field)
    ensures Get(Charged(a, r), f) - Get(a, f) == Requested(r, f)
  {
  }

  lemma SettlementShows(b: Books, op: Op, owner: nat, day: int, f: Field)
    requires Inv(b) && op.KnownCost?
    ensures Shown(Step(b, op).0.accounts, owner, day, f) ==
            Shown(b.accounts, owner, day, f) + Effect(b, op, owner, day, f)
  {
    hide Inv, FindAccount, FindReservation, SettleKnown, Shown, Settled;
    SettleKnownFailureKeepsBooks(b, op.owner, op.attempt, op.amount, op.tokens);
    if Step(b, op).1 == Ok {
      var k, u, m := SettleKnownMoves(b, op.owner, op.attempt, op.amount, op.tokens);
      var held := b.reservations[k];
      assert held in b.reservations;
      OneReservation(b, k);
      ShownAfterMove(b.accounts, u, m, Released(b.accounts[u], held, op.amount, op.tokens),
        Released(b.accounts[m], held, op.amount, op.tokens), owner, day, f);
      ReleasedBy(b.accounts[u], held, op.amount, op.tokens, f);
    }
  }

  lemma ReleasedBy(a: Account, held: Reservation, amount: real, tokens: int, f: Field)
    ensures Get(Released(a, held, amount, tokens), f) - Get(a, f) == Settled(held, amount, tokens, f)
  {
  }

  /** An attempt names one reservation. */
  lemma OneReservation(b: Books, k: nat)
    requires Inv(b) && k < |b.reservations|
    ensures forall h :: h in b.reservations && h.attempt == b.reservations[k].attempt ==> h == b.reservations[k]
  {
  }

  lemma UnknownShows(b: Books, op: Op)
    requires op.UnknownCost?
    ensures Step(b, op).0.accounts == b.accounts
  {
  }

  /** After every history each field of each user's account is what the operations that succeeded put there; before an
      account there are none. */
  lemma {:induction false} AccountsShowHistory(ops: seq<Op>, owner: nat, day: int, f: Field)
    ensures Shown(After(ops).accounts, owner, day, f) == Booked(ops, owner, day, f)
  {
    hide Inv, Step, Effect, Shown;
    if ops == [] {
      assert Shown([], owner, day, f) == 0.0 by { NothingShown(owner, day, f); }
    } else {
      var front, op := ops[..|ops| - 1], ops[|ops| - 1];
      AccountsShowHistory(front, owner, day, f);
      DoubleEntry(front);
      StepShows(After(front), op, owner, day, f);
    }
  }

  lemma NothingShown(owner: nat, day: int, f: Field)
    ensures Shown([], owner, day, f) == 0.0
  {
  }

  lemma StepShows(b: Books, op: Op, owner: nat, day: int, f: Field)
    requires Inv(b)
    ensures Shown(Step(b, op).0.accounts, owner, day, f) ==
            Shown(b.accounts, owner, day, f) + Effect(b, op, owner, day, f)
  {
    hide Inv, Shown, Reserve, SettleKnown, SettleUnknown, Seed;
    match op
    case SeedAccount(_, _, _, _, _, _, _) => SeedShows(b, op, owner, day, f);
    case ReserveCall(r) => ReserveShows(b, r, owner, day, f);
    case KnownCost(_, _, _, _) => SettlementShows(b, op, owner, day, f);
    case UnknownCost(_, _) => UnknownShows(b, op);
  }

  // ---------------------------------------------------------------- limits

  /** Operation n opened the account, with these limits. */
  ghost predicate Opened(op: Op, a: Account) {
    op == SeedAccount(a.scope, a.owner, a.day, a.limit, a.modelLimit, a.toolLimit, a.tokenLimit)
  }

  ghost predicate SameLimits(a: Account, a2: Account) {
    && SameKey(a, a2) && a2.limit == a.limit
    && a2.modelLimit == a.modelLimit && a2.toolLimit == a.toolLimit && a2.tokenLimit == a.tokenLimit
  }

  lemma StepKeepsLimits(b: Books, op: Op)
    requires Inv(b)
    ensures var after := Step(b, op).0.accounts;
            && |b.accounts| <= |after| <= |b.accounts| + 1
            && (forall k :: 0 <= k < |b.accounts| ==> SameLimits(b.accounts[k], after[k]))
            && (|after| > |b.accounts| ==> Opened(op, after[|b.accounts|]))
  {
    hide Inv, FindAccount, FindReservation, Exceeds, Release;
    if op.KnownCost? && Step(b, op).1 == Ok {
      var k, u, m := SettleKnownMoves(b, op.owner, op.attempt, op.amount, op.tokens);
    }
  }

  /** Every account has, after every history, the limits of an operation that opened it. */
  lemma {:induction false} LimitsAsOpened(ops: seq<Op>, k: nat)
    requires k < |After(ops).accounts|
    ensures exists n :: 0 <= n < |ops| && Opened(ops[n], After(ops).accounts[k])
  {
    hide Inv, Step;
    if ops != [] {
      var front, op := ops[..|ops| - 1], ops[|ops| - 1];
      DoubleEntry(front);
      StepKeepsLimits(After(front), op);
      if k < |After(front).accounts| {
        LimitsAsOpened(front, k);
        var n :| 0 <= n < |front| && Opened(front[n], After(front).accounts[k]);
        assert ops[n] == front[n];
      }
    }
  }
}
