/** Admission of research runs (CreateResearch) over the table of all runs. */
module Admission {
  import opened Common
  import opened ResearchRun
  import opened ResearchRunSafety

  const GLOBAL_ACTIVE_MAX := 2
  const DAILY_RESEARCH_MAX := 10
  const DAY := 24 * 3600

  /** What a caller asks for: a run of one of its drafts, under a key of its own that makes the request repeatable.
      `hash` is the digest of the whole request. */
  datatype Request = Request(owner: nat, key: nat, hash: nat, draft: nat)

  /** The empty key. */
  const NO_KEY := 0

  datatype Owned = Owned(request: Request, run: Run)
  type Table = map<nat, Owned>

  datatype Reply =
    | Created
    | Replayed(id: nat)
    | Unauthenticated | MissingKey | KeyConflict | DraftRefused
    | ActiveRunExists | GlobalConcurrency | DailyLimit

  predicate Active(o: Owned) {
    !o.run.row.deleted && o.run.row.status in ACTIVE
  }

  function ActiveIds(t: Table): set<nat> {
    set id | id in t && Active(t[id])
  }

  function ActiveIdsOf(t: Table, owner: nat): set<nat> {
    set id | id in t && t[id].request.owner == owner && Active(t[id])
  }

  /** The rows the unique index on active runs sees: it does not look at deleted_at. */
  function IndexedIds(t: Table, owner: nat): set<nat> {
    set id | id in t && t[id].request.owner == owner && t[id].run.row.status in ACTIVE
  }

  function DayStart(now: int): int {
    now - now % DAY
  }

  function IdsSince(t: Table, owner: nat, start: int): set<nat> {
    set id | id in t && t[id].request.owner == owner && t[id].run.row.createdAt >= start
  }

  /** The runs an owner has asked for under a key. */
  function IdsWithKey(t: Table, owner: nat, key: nat): set<nat> {
    set id | id in t && t[id].request.owner == owner && t[id].request.key == key
  }

  /** The runs that confirmed a draft: confirmed_run_id is written with the run and never taken back. */
  function IdsOfDraft(t: Table, draft: nat): set<nat> {
    set id | id in t && t[id].request.draft == draft
  }

  /** Why a request under a new key is refused, in the order of the checks; `draftOk` stands for the other checks of the
      draft and `id` for the drawn run id. */
  function Refusal(t: Table, id: nat, r: Request, now: int, draftOk: bool): Option<Reply> {
    if !draftOk || IdsOfDraft(t, r.draft) != {} then Some(DraftRefused)
    else if |ActiveIdsOf(t, r.owner)| > 0 then Some(ActiveRunExists)
    else if |ActiveIds(t)| >= GLOBAL_ACTIVE_MAX then Some(GlobalConcurrency)
    else if |IdsSince(t, r.owner, DayStart(now))| >= DAILY_RESEARCH_MAX then Some(DailyLimit)
    else if id in t || IndexedIds(t, r.owner) != {} then Some(ActiveRunExists)
    else None
  }

  /** The answer to a request under the key of an earlier one. */
  function Again(first: Request, run: nat, r: Request): Reply {
    if first.hash == r.hash then Replayed(run) else KeyConflict
  }

  /** A run is created under a new key of a known owner that nothing else refuses. */
  predicate Admits(t: Table, id: nat, r: Request, now: int, draftOk: bool) {
    && r.owner != 0 && r.key != NO_KEY
    && IdsWithKey(t, r.owner, r.key) == {}
    && Refusal(t, id, r, now, draftOk).None?
  }

  datatype Move =
    | Create(id: nat, request: Request, now: int, queueTimeout: int, runTimeout: int, draftOk: bool)
    | OnRun(id: nat, event: Event)

  function MoveNext(t: Table, m: Move): Table {
    match m
    case Create(id, r, now, queueTimeout, runTimeout, draftOk) =>
      if Admits(t, id, r, now, draftOk) then t[id := Owned(r, Init(now, queueTimeout, runTimeout))] else t
    case OnRun(id, e) =>
      if id in t then t[id := t[id].(run := Next(t[id].run, e.now, e.agent, e.step))] else t
  }

  function MoveAll(t: Table, moves: seq<Move>): Table {
    if moves == [] then t else MoveNext(MoveAll(t, moves[..|moves| - 1]), moves[|moves| - 1])
  }

  /** The stored table. */
  class ResearchTable {
    var rows: Table

    /** The transaction of CreateResearch under the scheduler lock. */
    method CreateResearch(id: nat, r: Request, now: int, queueTimeout: int, runTimeout: int, draftOk: bool)
      returns (reply: Reply)
      modifies this
      ensures rows == MoveNext(old(rows), Create(id, r, now, queueTimeout, runTimeout, draftOk))
      ensures reply == Created <==> Admits(old(rows), id, r, now, draftOk)
      ensures reply == Unauthenticated <==> r.owner == 0
      ensures reply == MissingKey <==> r.owner != 0 && r.key == NO_KEY
      ensures var known := IdsWithKey(old(rows), r.owner, r.key);
              if r.owner == 0 || r.key == NO_KEY then true
              else if known == {} then reply == Created || Refusal(old(rows), id, r, now, draftOk) == Some(reply)
              else exists run :: run in known && reply == if old(rows)[run].request.hash == r.hash then Replayed(run)
                                                              else KeyConflict
    {
      if r.owner == 0 {
        return Unauthenticated;
      }
      if r.key == NO_KEY {
        return MissingKey;
      }
      var known := IdsWithKey(rows, r.owner, r.key);
      if known != {} {
        SomeIsMember(known);
        var run :| run in known;
        return Again(rows[run].request, run, r);
      }
      if !draftOk || IdsOfDraft(rows, r.draft) != {} {
        return DraftRefused;
      }
      var active := |ActiveIdsOf(rows, r.owner)|;
      if active > 0 {
        return ActiveRunExists;
      }
      var global := |ActiveIds(rows)|;
      if global >= GLOBAL_ACTIVE_MAX {
        return GlobalConcurrency;
      }
      var today := |IdsSince(rows, r.owner, DayStart(now))|;
      if today >= DAILY_RESEARCH_MAX {
        return DailyLimit;
      }
      if id in rows || IndexedIds(rows, r.owner) != {} {
        return ActiveRunExists;
      }
      rows := rows[id := Owned(r, Init(now, queueTimeout, runTimeout))];
      return Created;
    }
  }

  lemma SomeIsMember<T>(s: set<T>)
    requires s != {}
    ensures exists x :: x in s
  {
  }

  // ---------------------------------------------------------------- bounds

  ghost predicate Bounded(t: Table) {
    && (forall id :: id in t ==> Inv(t[id].run))
    && |ActiveIds(t)| <= GLOBAL_ACTIVE_MAX
    && (forall owner: nat :: |IndexedIds(t, owner)| <= 1)
    && (forall owner: nat, now: int :: |IdsOn(t, owner, now)| <= DAILY_RESEARCH_MAX)
  }

  /** The runs an owner created on the day of `now`. */
  function IdsOn(t: Table, owner: nat, now: int): set<nat> {
    set id | id in t && t[id].request.owner == owner && DayStart(t[id].run.row.createdAt) == DayStart(now)
  }

  lemma SubsetSize(p: set<nat>, q: set<nat>)
    requires p <= q
    ensures |p| <= |q|
  {
    if p != q {
      assert q == p + (q - p);
    }
  }

  lemma OneMore(p: set<nat>, q: set<nat>, id: nat)
    requires p <= q + {id}
    ensures |p| <= |q| + 1
  {
    SubsetSize(p, q + {id});
    SubsetSize(q, q + {id});
    if id !in q {
      assert |q + {id}| == |q| + 1;
    } else {
      assert q + {id} == q;
    }
  }

  lemma CreationStays(g: Run, e: Event)
    ensures Next(g, e.now, e.agent, e.step).row.createdAt == g.row.createdAt
  {
  }

  /** No step makes an inactive run active, brings a deleted one back or moves its creation time. */
  lemma StepNeverActivates(g: Run, e: Event)
    requires Inv(g)
    ensures var g' := Next(g, e.now, e.agent, e.step);
            && (g'.row.status in ACTIVE ==> g.row.status in ACTIVE)
            && (g.row.deleted ==> g'.row.deleted)
            && g'.row.createdAt == g.row.createdAt
  {
    hide Next, Inv;
    StepMovesRow(g, e.now, e.agent, e.step);
    CreationStays(g, e);
    if g.row.status !in ACTIVE {
      TerminalStays(g, e.now, e.agent, e.step);
    }
  }

  lemma RunStepKeepsBounds(t: Table, id: nat, e: Event)
    requires Bounded(t) && id in t
    ensures Bounded(MoveNext(t, OnRun(id, e)))
  {
    hide Next, Inv;
    var t' := MoveNext(t, OnRun(id, e));
    StepNeverActivates(t[id].run, e);
    StepKeepsInv(t[id].run, e.now, e.agent, e.step);
    SubsetSize(ActiveIds(t'), ActiveIds(t));
    forall owner: nat ensures |IndexedIds(t', owner)| <= 1 {
      SubsetSize(IndexedIds(t', owner), IndexedIds(t, owner));
    }
    forall owner: nat, now: int ensures |IdsOn(t', owner, now)| <= DAILY_RESEARCH_MAX {
      SubsetSize(IdsOn(t', owner, now), IdsOn(t, owner, now));
    }
  }

  /** What an admitted run finds. */
  lemma AdmittedFindsRoom(t: Table, m: Move)
    requires m.Create? && Admits(t, m.id, m.request, m.now, m.draftOk)
    ensures var r := m.request;
            && MoveNext(t, m) == t[m.id := Owned(r, Init(m.now, m.queueTimeout, m.runTimeout))] && m.id !in t
            && |ActiveIds(t)| < GLOBAL_ACTIVE_MAX && IndexedIds(t, r.owner) == {}
            && |IdsSince(t, r.owner, DayStart(m.now))| < DAILY_RESEARCH_MAX
  {
  }

  lemma AdmissionKeepsBounds(t: Table, m: Move)
    requires Bounded(t) && m.Create?
    ensures Bounded(MoveNext(t, m))
  {
    hide Inv, Init, Refusal, ActiveIds, IndexedIds, IdsOn, IdsSince, DayStart;
    if Admits(t, m.id, m.request, m.now, m.draftOk) {
      AdmittedFindsRoom(t, m);
      InitiallyInv(m.now, m.queueTimeout, m.runTimeout);
      var o := Owned(m.request, Init(m.now, m.queueTimeout, m.runTimeout));
      var t' := t[m.id := o];
      ActiveWithNew(t, m.id, o);
      forall owner: nat ensures |IndexedIds(t', owner)| <= 1 {
        IndexedWithNew(t, m.id, o, owner);
      }
      forall owner: nat, now: int ensures |IdsOn(t', owner, now)| <= DAILY_RESEARCH_MAX {
        CreatedNow(m.now, m.queueTimeout, m.runTimeout);
        DailyWithNew(t, m.id, o, owner, now);
      }
    }
  }

  lemma CreatedNow(now: int, queueTimeout: int, runTimeout: int)
    ensures Init(now, queueTimeout, runTimeout).row.createdAt == now
  {
  }

  lemma ActiveWithNew(t: Table, id: nat, o: Owned)
    ensures |ActiveIds(t[id := o])| <= |ActiveIds(t)| + 1
  {
    OneMore(ActiveIds(t[id := o]), ActiveIds(t), id);
  }

  lemma IndexedWithNew(t: Table, id: nat, o: Owned, owner: nat)
    ensures |IndexedIds(t[id := o], owner)| <= |IndexedIds(t, owner)| + if o.request.owner == owner then 1 else 0
  {
    if o.request.owner == owner {
      OneMore(IndexedIds(t[id := o], owner), IndexedIds(t, owner), id);
    } else {
      SubsetSize(IndexedIds(t[id := o], owner), IndexedIds(t, owner));
    }
  }

  lemma DailyWithNew(t: Table, id: nat, o: Owned, owner: nat, now: int)
    requires |IdsSince(t, o.request.owner, DayStart(o.run.row.createdAt))| < DAILY_RESEARCH_MAX
    requires |IdsOn(t, owner, now)| <= DAILY_RESEARCH_MAX
    ensures |IdsOn(t[id := o], owner, now)| <= DAILY_RESEARCH_MAX
  {
    hide DayStart;
    if owner == o.request.owner && DayStart(now) == DayStart(o.run.row.createdAt) {
      SameDayIsSince(t, owner, o.run.row.createdAt);
      assert IdsOn(t, owner, now) == IdsOn(t, owner, o.run.row.createdAt);
      OneMore(IdsOn(t[id := o], owner, now), IdsOn(t, owner, now), id);
    } else {
      SubsetSize(IdsOn(t[id := o], owner, now), IdsOn(t, owner, now));
    }
  }

  lemma SameDayIsSince(t: Table, owner: nat, now: int)
    ensures |IdsOn(t, owner, now)| <= |IdsSince(t, owner, DayStart(now))|
  {
    SubsetSize(IdsOn(t, owner, now), IdsSince(t, owner, DayStart(now)));
  }

  /** Whatever is created and whatever the runs do, at most two non-deleted runs are active at a time, at most
      one run per owner is active, and no owner starts more than ten runs on one day. */
  lemma {:induction false} AdmissionBounds(moves: seq<Move>)
    ensures Bounded(MoveAll(map[], moves))
    decreases |moves|
  {
    hide MoveNext, Inv;
    if moves == [] {
      EmptyIsBounded();
    } else {
      var m := |moves| - 1;
      var t := MoveAll(map[], moves[..m]);
      AdmissionBounds(moves[..m]);
      MoveKeepsBounds(t, moves[m]);
    }
  }

  lemma EmptyIsBounded()
    ensures Bounded(map[])
  {
    assert ActiveIds(map[]) == {};
    assert forall owner: nat :: IndexedIds(map[], owner) == {};
    assert forall owner: nat, now: int :: IdsOn(map[], owner, now) == {};
  }

  lemma MoveKeepsBounds(t: Table, m: Move)
    requires Bounded(t)
    ensures Bounded(MoveNext(t, m))
  {
    match m
    case Create(_, _, _, _, _, _) => AdmissionKeepsBounds(t, m);
    case OnRun(id, e) =>
      if id in t {
        RunStepKeepsBounds(t, id, e);
      }
  }

  // ---------------------------------------------------------------- keys and drafts

  /** A key of an owner names at most one run, and a draft is confirmed by at most one. */
  ghost predicate NamedOnce(t: Table) {
    && (forall i, j :: i in t && j in t && SameKey(t[i].request, t[j].request) ==> i == j)
    && (forall i, j :: i in t && j in t && t[i].request.draft == t[j].request.draft ==> i == j)
  }

  predicate SameKey(r: Request, s: Request) {
    r.owner == s.owner && r.key == s.key
  }

  /** Runs are neither removed nor asked for differently afterwards. */
  ghost predicate Extends(t: Table, t': Table) {
    forall id :: id in t ==> id in t' && t'[id].request == t[id].request
  }

  lemma MoveNames(t: Table, m: Move)
    requires NamedOnce(t)
    ensures NamedOnce(MoveNext(t, m)) && Extends(t, MoveNext(t, m))
  {
    hide Next;
    if m.Create? && Admits(t, m.id, m.request, m.now, m.draftOk) {
      AdmittedIsNew(t, m);
      hide Admits;
    }
  }

  lemma AdmittedIsNew(t: Table, m: Move)
    requires m.Create? && Admits(t, m.id, m.request, m.now, m.draftOk)
    ensures m.id !in t
    ensures forall i :: i in t ==> t[i].request.draft != m.request.draft && !SameKey(t[i].request, m.request)
  {
    forall i | i in t ensures t[i].request.draft != m.request.draft && !SameKey(t[i].request, m.request) {
      assert i !in IdsWithKey(t, m.request.owner, m.request.key) && i !in IdsOfDraft(t, m.request.draft);
    }
  }

  /** After any history each owner's key names one run at most, and no draft was confirmed twice. */
  lemma {:induction false} OneRunPerKeyAndDraft(moves: seq<Move>)
    ensures NamedOnce(MoveAll(map[], moves))
    decreases |moves|
  {
    hide MoveNext;
    if moves != [] {
      OneRunPerKeyAndDraft(moves[..|moves| - 1]);
      MoveNames(MoveAll(map[], moves[..|moves| - 1]), moves[|moves| - 1]);
    }
  }

  lemma {:induction false} TableExtends(moves: seq<Move>, more: seq<Move>)
    ensures Extends(MoveAll(map[], moves), MoveAll(map[], moves + more))
    decreases |more|
  {
    hide MoveNext;
    if more == [] {
      assert moves + more == moves;
    } else {
      var all := moves + more;
      assert all[..|all| - 1] == moves + more[..|more| - 1] && all[|all| - 1] == more[|more| - 1];
      TableExtends(moves, more[..|more| - 1]);
      OneRunPerKeyAndDraft(moves + more[..|more| - 1]);
      MoveNames(MoveAll(map[], moves + more[..|more| - 1]), all[|all| - 1]);
    }
  }

  /** Once a run was created, its key names exactly that run whatever happens later: the same request again is answered
      with it, a different one under the key is a conflict, and neither changes anything. */
  lemma KeyIsForGood(moves: seq<Move>, more: seq<Move>, run: nat, m: Move)
    requires run in MoveAll(map[], moves) && m.Create?
    requires var r := MoveAll(map[], moves)[run].request; SameKey(m.request, r)
    ensures var t := MoveAll(map[], moves + more);
            && IdsWithKey(t, m.request.owner, m.request.key) == {run}
            && t[run].request == MoveAll(map[], moves)[run].request
            && MoveNext(t, m) == t
  {
    hide MoveAll, Refusal;
    var t := MoveAll(map[], moves + more);
    TableExtends(moves, more);
    OneRunPerKeyAndDraft(moves + more);
    assert run in IdsWithKey(t, m.request.owner, m.request.key);
  }

  // ---------------------------------------------------------------- days and refusals in numbers

  /** The runs an owner created from one moment up to another. */
  function CreatedBetween(t: Table, owner: nat, start: int, end: int): set<nat> {
    set id | id in t && t[id].request.owner == owner && start <= t[id].run.row.createdAt < end
  }

  /** After any history an owner has at most ten runs created from one midnight to the next. */
  lemma AtMostTenADay(moves: seq<Move>, owner: nat, k: int)
    ensures |CreatedBetween(MoveAll(map[], moves), owner, k * 86400, (k + 1) * 86400)| <= 10
  {
    hide MoveAll, Inv;
    var t := MoveAll(map[], moves);
    AdmissionBounds(moves);
    DayIsIdsOn(t, owner, k);
    assert |IdsOn(t, owner, k * DAY)| <= DAILY_RESEARCH_MAX by { BoundedDaily(t, owner, k * DAY); }
  }

  lemma BoundedDaily(t: Table, owner: nat, now: int)
    requires Bounded(t)
    ensures |IdsOn(t, owner, now)| <= DAILY_RESEARCH_MAX
  {
  }

  lemma DayIsIdsOn(t: Table, owner: nat, k: int)
    ensures CreatedBetween(t, owner, k * 86400, (k + 1) * 86400) == IdsOn(t, owner, k * DAY)
  {
    hide DayStart;
    forall id | id in t
      ensures k * 86400 <= t[id].run.row.createdAt < (k + 1) * 86400 <==>
              DayStart(t[id].run.row.createdAt) == DayStart(k * DAY)
    {
      SameDayIff(t[id].run.row.createdAt, k);
    }
  }

  lemma SameDayIff(x: int, k: int)
    ensures k * 86400 <= x < (k + 1) * 86400 <==> DayStart(x) == DayStart(k * DAY)
  {
    assert x == (x / DAY) * DAY + x % DAY;
    assert (k * DAY) % DAY == 0;
  }

  /** The run is waiting, working or being canceled. */
  predicate Busy(row: Row) {
    row.status == Queued || row.status == Researching || row.status == Verifying || row.status == Canceling
  }

  function Undone(t: Table): set<nat> {
    set id | id in t && Busy(t[id].run.row) && !t[id].run.row.deleted
  }

  ghost predicate HasActive(t: Table, owner: nat) {
    exists id :: id in Undone(t) && t[id].request.owner == owner
  }

  /** Two busy runs of one owner. */
  predicate BusyOf(t: Table, i: nat, j: nat) {
    && i in t && j in t && t[i].request.owner == t[j].request.owner
    && Busy(t[i].run.row) && Busy(t[j].run.row)
  }

  /** After any history at most two undeleted runs are busy, and at most one of an owner, deleted or not. */
  lemma AtMostTwoBusy(moves: seq<Move>)
    ensures var t := MoveAll(map[], moves);
            && |Undone(t)| <= 2
            && forall i, j :: BusyOf(t, i, j) ==> i == j
  {
    hide MoveAll, Inv;
    var t := MoveAll(map[], moves);
    AdmissionBounds(moves);
    assert Undone(t) == ActiveIds(t);
    forall i, j | BusyOf(t, i, j) ensures i == j {
      var owner := t[i].request.owner;
      assert i in IndexedIds(t, owner) && j in IndexedIds(t, owner) && |IndexedIds(t, owner)| <= 1;
      if i != j {
        SubsetSize({i, j}, IndexedIds(t, owner));
      }
    }
  }

  /** The owner has a run in an active status, deleted or not. */
  ghost predicate HasIndexed(t: Table, owner: nat) {
    exists id :: id in t && t[id].request.owner == owner && Busy(t[id].run.row)
  }

  ghost predicate DraftIsUsed(t: Table, draft: nat) {
    exists id :: id in t && t[id].request.draft == draft
  }

  /** Why a request under a new key is refused, exactly: its draft, an active run of the owner,
      two active runs in all, ten
      runs of the owner since midnight, and last what the table's own indexes refuse. */
  lemma RefusedIff(t: Table, id: nat, r: Request, now: int, draftOk: bool)
    ensures var reply := Refusal(t, id, r, now, draftOk);
            if !draftOk || DraftIsUsed(t, r.draft) then reply == Some(DraftRefused)
            else if HasActive(t, r.owner) then reply == Some(ActiveRunExists)
            else if |Undone(t)| >= 2 then reply == Some(GlobalConcurrency)
            else if |CreatedSince(t, r.owner, now)| >= 10 then reply == Some(DailyLimit)
            else if id in t || HasIndexed(t, r.owner) then reply == Some(ActiveRunExists)
            else reply == None
  {
    DraftIff(t, r.draft);
    assert Undone(t) == ActiveIds(t);
    ActiveIff(t, r.owner);
    IndexedIff(t, r.owner);
    SinceMidnight(t, r.owner, now);
  }

  lemma ActiveIff(t: Table, owner: nat)
    ensures |ActiveIdsOf(t, owner)| > 0 <==> HasActive(t, owner)
  {
    if HasActive(t, owner) {
      var run :| run in Undone(t) && t[run].request.owner == owner;
      assert run in ActiveIdsOf(t, owner);
    }
    if ActiveIdsOf(t, owner) != {} {
      SomeIsMember(ActiveIdsOf(t, owner));
      var run :| run in ActiveIdsOf(t, owner);
      assert run in Undone(t);
    }
  }

  lemma IndexedIff(t: Table, owner: nat)
    ensures IndexedIds(t, owner) != {} <==> HasIndexed(t, owner)
  {
    if HasIndexed(t, owner) {
      var run :| run in t && t[run].request.owner == owner && Busy(t[run].run.row);
      assert run in IndexedIds(t, owner);
    }
    if IndexedIds(t, owner) != {} {
      SomeIsMember(IndexedIds(t, owner));
      var run :| run in IndexedIds(t, owner);
      assert Busy(t[run].run.row);
    }
  }

  lemma DraftIff(t: Table, draft: nat)
    ensures IdsOfDraft(t, draft) != {} <==> DraftIsUsed(t, draft)
  {
    if DraftIsUsed(t, draft) {
      var run :| run in t && t[run].request.draft == draft;
      assert run in IdsOfDraft(t, draft);
    }
    if IdsOfDraft(t, draft) != {} {
      SomeIsMember(IdsOfDraft(t, draft));
      var run :| run in IdsOfDraft(t, draft);
      assert t[run].request.draft == draft;
    }
  }

  /** The owner's runs created at or after the last midnight. */
  function CreatedSince(t: Table, owner: nat, now: int): set<nat> {
    set id | id in t && t[id].request.owner == owner && 86400 * (now / 86400) <= t[id].run.row.createdAt
  }

  lemma SinceMidnight(t: Table, owner: nat, now: int)
    ensures IdsSince(t, owner, DayStart(now)) == CreatedSince(t, owner, now)
  {
    assert DayStart(now) == 86400 * (now / 86400);
  }
}
