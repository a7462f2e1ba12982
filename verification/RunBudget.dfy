/** Call budgets of research runs: the counter form (budget_memory.go) refines the counting form (budget_service.go). */
module RunBudget {
  import opened Common

  // ---------------------------------------------------------------- snapshots (run_state.go)

  datatype Snapshot = Snapshot(modelCalls: int, toolCalls: int, modelPerRole: int, toolPerRole: int, runTimeout: int,
          queueTimeout: int)
  datatype Policy = Policy(modelCalls: int, toolCalls: int, runTimeout: int, queueTimeout: int)

  const DEFAULT_SNAPSHOT := Snapshot(14, 12, 4, 6, 180, 30)

  function Min(x: int, y: int): int {
    if x > y then y else x
  }

  function OrElse(x: int, otherwise: int): int {
    if x > 0 then x else otherwise
  }

  /** FreezeBudgetSnapshot */
  function Frozen(p: Policy): Snapshot {
    var model, tool := OrElse(p.modelCalls, 14), OrElse(p.toolCalls, 12);
    Snapshot(model, tool, Min(4, model), Min(6, tool), OrElse(p.runTimeout, 180), OrElse(p.queueTimeout, 30))
  }

  /** ParseBudgetSnapshot after decoding. */
  function Parsed(s: Snapshot): Snapshot {
    var model, tool := OrElse(s.modelCalls, 14), OrElse(s.toolCalls, 12);
    s.(modelCalls := model, toolCalls := tool,
       modelPerRole := Min(OrElse(s.modelPerRole, 4), model), toolPerRole := Min(OrElse(s.toolPerRole, 6), tool))
  }

  /** Whatever is stored, the caps in force are positive and no role may use more than the run. */
  lemma ParsedCapsAreSane(s: Snapshot)
    ensures var p := Parsed(s); 0 < p.modelPerRole <= p.modelCalls && 0 < p.toolPerRole <= p.toolCalls
    ensures Parsed(Parsed(s)) == Parsed(s)
  {
  }

  /** What admission freezes is what the budgets later enforce. */
  lemma FrozenIsEnforced(p: Policy)
    ensures Parsed(Frozen(p)) == Frozen(p)
  {
  }

  /** Identifiers are numbers; NO_ID stands for the empty string, NAMED_RUN for the literal id "run". */
  type Id = nat
  const NO_ID: Id := 0
  const NAMED_RUN: Id := 1

  datatype Kind = ModelKind | ToolKind | OtherKind(name: Id)

  function CallCap(s: Snapshot, kind: Kind): int {
    if kind == ToolKind then s.toolCalls else s.modelCalls
  }

  function RoleCap(s: Snapshot, kind: Kind): int {
    if kind == ToolKind then s.toolPerRole else s.modelPerRole
  }

  // ---------------------------------------------------------------- ledger

  datatype LedgerStatus = Reserved | Succeeded | Unknown
  datatype Request = Request(requestId: Id, kind: Kind, runId: Id, taskId: Id, parseId: Id, tokens: int)
  datatype LedgerRow = LedgerRow(id: nat, request: Request, status: LedgerStatus, actualTokens: Option<int>)
  datatype Usage = Usage(unknown: bool, input: Option<int>, output: Option<int>)
  datatype Cause = MissingRequestId | RunBudgetExceeded | RoleBudgetExceeded | ReservationNotFound
  datatype Outcome = Granted(id: nat, requestId: Id) | Reconciled | Refused(cause: Cause)

  /** The budget snapshot in force for a run id; that of NO_ID governs parse requests. */
  type Snapshots = Id -> Snapshot

  function NewRow(r: Request, id: nat): LedgerRow {
    LedgerRow(id, r, Reserved, None)
  }

  function Reconciliation(row: LedgerRow, u: Usage): LedgerRow {
    if u.unknown then row.(status := Unknown)
    else if u.input.Some? && u.output.Some?
    then row.(status := Succeeded, actualTokens := Some(u.input.value + u.output.value))
    else row.(status := Succeeded)
  }

  // ---------------------------------------------------------------- the counting form

  function Count(rows: seq<LedgerRow>, p: LedgerRow -> bool): nat {
    if rows == [] then 0 else Count(rows[..|rows| - 1], p) + if p(rows[|rows| - 1]) then 1 else 0
  }

  /** The rows a request competes with. */
  function InScope(r: Request): LedgerRow -> bool {
    (row: LedgerRow) =>
      && row.request.kind == r.kind && row.status in {Reserved, Succeeded, Unknown}
      && (if r.runId != NO_ID then row.request.runId == r.runId
          else r.parseId != NO_ID ==> row.request.parseId == r.parseId)
  }

  function InRole(r: Request): LedgerRow -> bool {
    (row: LedgerRow) => row.request.kind == r.kind && row.request.taskId == r.taskId
      && row.status in {Reserved, Succeeded, Unknown}
  }

  /** The index of the row with this request id, or |rows|. */
  function IndexOfRequest(rows: seq<LedgerRow>, requestId: Id): (k: nat)
    ensures k <= |rows| && (k < |rows| ==> rows[k].request.requestId == requestId)
    ensures forall j :: 0 <= j < k ==> rows[j].request.requestId != requestId
  {
    if rows == [] then 0
    else if rows[0].request.requestId == requestId then 0
    else 1 + IndexOfRequest(rows[1..], requestId)
  }

  function IndexOfId(rows: seq<LedgerRow>, id: nat): (k: nat)
    ensures k <= |rows| && (k < |rows| ==> rows[k].id == id)
    ensures forall j :: 0 <= j < k ==> rows[j].id != id
  {
    if rows == [] then 0
    else if rows[0].id == id then 0
    else 1 + IndexOfId(rows[1..], id)
  }

  function CountingReserve(rows: seq<LedgerRow>, snaps: Snapshots, r: Request, uuid: nat): (seq<LedgerRow>, Outcome) {
    if r.requestId == NO_ID then (rows, Refused(MissingRequestId))
    else
      var k := IndexOfRequest(rows, r.requestId);
      if k < |rows| then (rows, Granted(rows[k].id, r.requestId))
      else if Count(rows, InScope(r)) >= CallCap(snaps(r.runId), r.kind) then (rows, Refused(RunBudgetExceeded))
      else if r.taskId != NO_ID && Count(rows, InRole(r)) >= RoleCap(snaps(r.runId), r.kind)
      then (rows, Refused(RoleBudgetExceeded))
      else (rows + [NewRow(r, uuid)], Granted(uuid, r.requestId))
  }

  function CountingReconcile(rows: seq<LedgerRow>, id: nat, u: Usage): (seq<LedgerRow>, Outcome) {
    var k := IndexOfId(rows, id);
    if k == |rows| then (rows, Refused(ReservationNotFound)) else (rows[k := Reconciliation(rows[k], u)], Reconciled)
  }

  class DBBudget {
    var ledger: seq<LedgerRow>

    method Reserve(snaps: Snapshots, r: Request, uuid: nat) returns (out: Outcome)
      modifies this
      ensures (ledger, out) == CountingReserve(old(ledger), snaps, r, uuid)
    {
      if r.requestId == NO_ID {
        return Refused(MissingRequestId);
      }
      var k := IndexOfRequest(ledger, r.requestId);
      if k < |ledger| {
        return Granted(ledger[k].id, r.requestId);
      }
      var snap := snaps(r.runId);
      var runMax, roleMax := snap.modelCalls, snap.modelPerRole;
      if r.kind == ToolKind {
        runMax, roleMax := snap.toolCalls, snap.toolPerRole;
      }
      var used := Count(ledger, InScope(r));
      if used >= runMax {
        return Refused(RunBudgetExceeded);
      }
      if r.taskId != NO_ID {
        var roleUsed := Count(ledger, InRole(r));
        if roleUsed >= roleMax {
          return Refused(RoleBudgetExceeded);
        }
      }
      ledger := ledger + [NewRow(r, uuid)];
      out := Granted(uuid, r.requestId);
    }

    method Reconcile(id: nat, u: Usage) returns (out: Outcome)
      modifies this
      ensures (ledger, out) == CountingReconcile(old(ledger), id, u)
    {
      var k := IndexOfId(ledger, id);
      if k == |ledger| {
        return Refused(ReservationNotFound);
      }
      ledger := ledger[k := Reconciliation(ledger[k], u)];
      out := Reconciled;
    }
  }

  // ---------------------------------------------------------------- the counter form

  /** The string keys of the counters, kept apart by kind of key. */
  datatype Key = RunKey(kind: Kind, runId: Id) | ParseKey(kind: Kind, parseId: Id) | TaskKey(kind: Kind, taskId: Id)

  function KeyOf(r: Request): Key {
    if r.runId == NO_ID then ParseKey(r.kind, r.parseId) else RunKey(r.kind, r.runId)
  }

  datatype Memory = Memory(remaining: map<Key, int>, rows: map<Id, LedgerRow>)

  const EMPTY_MEMORY := Memory(map[RunKey(ModelKind, NAMED_RUN) := 14, RunKey(ToolKind, NAMED_RUN) := 12], map[])

  /** The counter of a key, set to its cap when first used. */
  function Touched(remaining: map<Key, int>, key: Key, cap: int): map<Key, int> {
    if key in remaining then remaining else remaining[key := cap]
  }

  function CounterReserve(m: Memory, snaps: Snapshots, r: Request, uuid: nat): (Memory, Outcome) {
    if r.requestId == NO_ID then (m, Refused(MissingRequestId))
    else if r.requestId in m.rows then (m, Granted(m.rows[r.requestId].id, r.requestId))
    else
      var key, role := KeyOf(r), TaskKey(r.kind, r.taskId);
      var left := Touched(m.remaining, key, CallCap(snaps(r.runId), r.kind));
      if left[key] <= 0 then (m.(remaining := left), Refused(RunBudgetExceeded))
      else
        var both := if r.taskId == NO_ID then left else Touched(left, role, RoleCap(snaps(r.runId), r.kind));
        if r.taskId != NO_ID && both[role] <= 0 then (m.(remaining := both), Refused(RoleBudgetExceeded))
        else
          var used := if r.taskId == NO_ID then both else both[role := both[role] - 1];
          (Memory(used[key := used[key] - 1], m.rows[r.requestId := NewRow(r, uuid)]), Granted(uuid, r.requestId))
  }

  /** The request whose row has this id. */
  ghost function Holder(rows: map<Id, LedgerRow>, id: nat): (h: Option<Id>)
    ensures h.Some? ==> h.value in rows && rows[h.value].id == id
    ensures h.None? ==> forall q :: q in rows ==> rows[q].id != id
  {
    if exists q :: q in rows && rows[q].id == id then
      var q :| q in rows && rows[q].id == id;
      Some(q)
    else None
  }

  ghost predicate UniqueIds(rows: map<Id, LedgerRow>) {
    forall p, q :: p in rows && q in rows && rows[p].id == rows[q].id ==> p == q
  }

  ghost function CounterReconcile(m: Memory, id: nat, u: Usage): (Memory, Outcome) {
    var h := Holder(m.rows, id);
    if h.None? then (m, Refused(ReservationNotFound))
    else (m.(rows := m.rows[h.value := Reconciliation(m.rows[h.value], u)]), Reconciled)
  }

  class MemoryBudget {
    var remaining: map<Key, int>
    var rows: map<Id, LedgerRow>

    constructor ()
      ensures Memory(remaining, rows) == EMPTY_MEMORY
    {
      remaining := map[RunKey(ModelKind, NAMED_RUN) := 14, RunKey(ToolKind, NAMED_RUN) := 12];
      rows := map[];
    }

    method Reserve(snaps: Snapshots, r: Request, uuid: nat) returns (out: Outcome)
      modifies this
      ensures (Memory(remaining, rows), out) == CounterReserve(Memory(old(remaining), old(rows)), snaps, r, uuid)
    {
      if r.requestId == NO_ID {
        return Refused(MissingRequestId);
      }
      if r.requestId in rows {
        return Granted(rows[r.requestId].id, r.requestId);
      }
      var key := KeyOf(r);
      var snap := snaps(r.runId);
      var limit, roleLimit := snap.modelCalls, snap.modelPerRole;
      if r.kind == ToolKind {
        limit, roleLimit := snap.toolCalls, snap.toolPerRole;
      }
      if key !in remaining {
        remaining := remaining[key := limit];
      }
      if remaining[key] <= 0 {
        return Refused(RunBudgetExceeded);
      }
      if r.taskId != NO_ID {
        var role := TaskKey(r.kind, r.taskId);
        if role !in remaining {
          remaining := remaining[role := roleLimit];
        }
        if remaining[role] <= 0 {
          return Refused(RoleBudgetExceeded);
        }
        remaining := remaining[role := remaining[role] - 1];
      }
      remaining := remaining[key := remaining[key] - 1];
      rows := rows[r.requestId := NewRow(r, uuid)];
      out := Granted(uuid, r.requestId);
    }

    method Reconcile(id: nat, u: Usage) returns (out: Outcome)
      requires UniqueIds(rows)
      modifies this
      ensures (Memory(remaining, rows), out) == CounterReconcile(Memory(old(remaining), old(rows)), id, u)
    {
      var pending := rows.Keys;
      while pending != {}
        invariant pending <= rows.Keys && rows == old(rows) && remaining == old(remaining)
        invariant forall q :: q in rows && q !in pending ==> rows[q].id != id
        decreases pending
      {
        var q :| q in pending;
        if rows[q].id == id {
          assert Holder(rows, id) == Some(q);
          rows := rows[q := Reconciliation(rows[q], u)];
          return Reconciled;
        }
        pending := pending - {q};
      }
      out := Refused(ReservationNotFound);
    }
  }

  // ---------------------------------------------------------------- refinement

  /** Requests name exactly one of a run and a parse, and a task always runs under the same run. */
  ghost predicate WellFormed(r: Request, runOf: Id -> Id) {
    && (r.runId == NO_ID) != (r.parseId == NO_ID)
    && (r.taskId != NO_ID ==> runOf(r.taskId) == r.runId)
  }

  /** The cap behind a counter. */
  ghost function Cap(snaps: Snapshots, runOf: Id -> Id, key: Key): int {
    match key
    case RunKey(kind, run) => CallCap(snaps(run), kind)
    case ParseKey(kind, _) => CallCap(snaps(NO_ID), kind)
    case TaskKey(kind, task) => RoleCap(snaps(runOf(task)), kind)
  }

  /** The rows a counter stands for. */
  ghost function Charged(key: Key): LedgerRow -> bool {
    (row: LedgerRow) => ChargedTo(row.request, key)
  }

  predicate ChargedTo(r: Request, key: Key) {
    if key.TaskKey? then r.taskId != NO_ID && key == TaskKey(r.kind, r.taskId) else key == KeyOf(r)
  }

  ghost function Left(m: Memory, snaps: Snapshots, runOf: Id -> Id, key: Key): int {
    if key in m.remaining then m.remaining[key] else Cap(snaps, runOf, key)
  }

  /** Every counter is its cap less the rows charged to it. */
  ghost predicate Counters(m: Memory, ledger: seq<LedgerRow>, snaps: Snapshots, runOf: Id -> Id) {
    forall key: Key :: Left(m, snaps, runOf, key) == Cap(snaps, runOf, key) - Count(ledger, Charged(key))
  }

  ghost predicate AllWellFormed(ledger: seq<LedgerRow>, runOf: Id -> Id) {
    forall k :: 0 <= k < |ledger| ==> WellFormed(ledger[k].request, runOf)
  }

  /** The two forms hold the same rows, one per request id and one per row id. */
  ghost predicate SameRows(rows: map<Id, LedgerRow>, ledger: seq<LedgerRow>) {
    && (forall k :: 0 <= k < |ledger| ==>
      ledger[k].request.requestId in rows && rows[ledger[k].request.requestId] == ledger[k])
    && (forall q :: q in rows ==> exists k :: 0 <= k < |ledger| && ledger[k].request.requestId == q)
    && (forall j, k :: 0 <= j < k < |ledger| ==>
      ledger[j].id != ledger[k].id && ledger[j].request.requestId != ledger[k].request.requestId)
  }

  ghost predicate Refines(m: Memory, ledger: seq<LedgerRow>, snaps: Snapshots, runOf: Id -> Id) {
    AllWellFormed(ledger, runOf) && SameRows(m.rows, ledger) && Counters(m, ledger, snaps, runOf)
  }

  lemma {:induction false} CountSame(rows: seq<LedgerRow>, p: LedgerRow -> bool, q: LedgerRow -> bool)
    requires forall k :: 0 <= k < |rows| ==> p(rows[k]) == q(rows[k])
    ensures Count(rows, p) == Count(rows, q)
    decreases |rows|
  {
    if rows != [] {
      CountSame(rows[..|rows| - 1], p, q);
    }
  }

  lemma CountNext(rows: seq<LedgerRow>, row: LedgerRow, p: LedgerRow -> bool)
    ensures Count(rows + [row], p) == Count(rows, p) + if p(row) then 1 else 0
  {
    assert (rows + [row])[..|rows|] == rows;
  }

  lemma {:induction false} CountAfterUpdate(rows: seq<LedgerRow>, k: nat, row: LedgerRow, p: LedgerRow -> bool)
    requires k < |rows| && p(row) == p(rows[k])
    ensures Count(rows[k := row], p) == Count(rows, p)
    decreases |rows|
  {
    var m := |rows| - 1;
    if k < m {
      CountAfterUpdate(rows[..m], k, row, p);
      assert rows[k := row][..m] == rows[..m][k := row];
    } else {
      assert rows[k := row][..m] == rows[..m];
    }
  }

  lemma EveryStatusCounts(s: LedgerStatus)
    ensures s in {Reserved, Succeeded, Unknown}
  {
    match s
    case Reserved =>
    case Succeeded =>
    case Unknown =>
  }

  /** What the counting form counts for a request is what the counters of the request stand for. */
  lemma ScopesAreCounters(ledger: seq<LedgerRow>, r: Request, runOf: Id -> Id)
    requires WellFormed(r, runOf) && AllWellFormed(ledger, runOf)
    ensures Count(ledger, InScope(r)) == Count(ledger, Charged(KeyOf(r)))
    ensures r.taskId != NO_ID ==> Count(ledger, InRole(r)) == Count(ledger, Charged(TaskKey(r.kind, r.taskId)))
  {
    forall k | 0 <= k < |ledger| ensures InScope(r)(ledger[k]) == Charged(KeyOf(r))(ledger[k]) {
      assert WellFormed(ledger[k].request, runOf);
      EveryStatusCounts(ledger[k].status);
    }
    CountSame(ledger, InScope(r), Charged(KeyOf(r)));
    if r.taskId != NO_ID {
      forall k | 0 <= k < |ledger| ensures InRole(r)(ledger[k]) == Charged(TaskKey(r.kind, r.taskId))(ledger[k]) {
        EveryStatusCounts(ledger[k].status);
      }
      CountSame(ledger, InRole(r), Charged(TaskKey(r.kind, r.taskId)));
    }
  }

  /** The row a request finds is the same in both forms. */
  lemma SameLookup(rows: map<Id, LedgerRow>, ledger: seq<LedgerRow>, requestId: Id)
    requires SameRows(rows, ledger)
    ensures var k := IndexOfRequest(ledger, requestId);
            && (k < |ledger| <==> requestId in rows)
            && (k < |ledger| ==> rows[requestId] == ledger[k])
  {
    if requestId in rows {
      var k :| 0 <= k < |ledger| && ledger[k].request.requestId == requestId;
    }
  }

  lemma SameRowsAfterInsert(rows: map<Id, LedgerRow>, ledger: seq<LedgerRow>, row: LedgerRow)
    requires SameRows(rows, ledger) && row.request.requestId !in rows
    requires forall k :: 0 <= k < |ledger| ==> ledger[k].id != row.id
    ensures SameRows(rows[row.request.requestId := row], ledger + [row])
  {
    var rows', ledger' := rows[row.request.requestId := row], ledger + [row];
    forall q | q in rows' ensures exists k :: 0 <= k < |ledger'| && ledger'[k].request.requestId == q {
      if q in rows {
        var k :| 0 <= k < |ledger| && ledger[k].request.requestId == q;
        assert ledger'[k].request.requestId == q;
      } else {
        assert ledger'[|ledger|].request.requestId == q;
      }
    }
  }

  /** Charging a request lowers exactly the counters of its keys. */
  lemma CountersAfterCharge(m: Memory, m': Memory, ledger: seq<LedgerRow>, snaps: Snapshots, runOf: Id -> Id,
          row: LedgerRow)
    requires Counters(m, ledger, snaps, runOf)
    requires forall key: Key ::
             Left(m', snaps, runOf, key) == Left(m, snaps, runOf, key) - if ChargedTo(row.request, key) then 1 else 0
    ensures Counters(m', ledger + [row], snaps, runOf)
  {
    hide Left, Cap, ChargedTo;
    forall key: Key
      ensures Left(m', snaps, runOf, key) == Cap(snaps, runOf, key) - Count(ledger + [row], Charged(key))
    {
      CountNext(ledger, row, Charged(key));
      assert Left(m, snaps, runOf, key) == Cap(snaps, runOf, key) - Count(ledger, Charged(key));
    }
  }

  /** The counter form decides by the counters of the request's keys and charges just those. */
  lemma CounterReserveCharges(m: Memory, snaps: Snapshots, runOf: Id -> Id, r: Request, uuid: nat)
    requires WellFormed(r, runOf) && r.requestId != NO_ID && r.requestId !in m.rows
    ensures var (m', out) := CounterReserve(m, snaps, r, uuid);
            var left, role := Left(m, snaps, runOf, KeyOf(r)), Left(m, snaps, runOf, TaskKey(r.kind, r.taskId));
            && out == (if left <= 0 then Refused(RunBudgetExceeded)
                       else if r.taskId != NO_ID && role <= 0 then Refused(RoleBudgetExceeded)
                       else Granted(uuid, r.requestId))
            && m'.rows == (if out.Granted? then m.rows[r.requestId := NewRow(r, uuid)] else m.rows)
            && forall key: Key :: Left(m', snaps, runOf, key) ==
                 Left(m, snaps, runOf, key) - if out.Granted? && ChargedTo(r, key) then 1 else 0
  {
  }

  lemma ReserveRefines(m: Memory, ledger: seq<LedgerRow>, snaps: Snapshots, runOf: Id -> Id, r: Request, uuid: nat)
    requires Refines(m, ledger, snaps, runOf) && WellFormed(r, runOf)
    requires forall k :: 0 <= k < |ledger| ==> ledger[k].id != uuid
    ensures var (m', out) := CounterReserve(m, snaps, r, uuid);
            var (ledger', out') := CountingReserve(ledger, snaps, r, uuid);
            out == out' && Refines(m', ledger', snaps, runOf)
  {
    hide Left, Count, InScope, InRole, Charged, ChargedTo, SameRows, AllWellFormed, WellFormed, IndexOfRequest;
    SameLookup(m.rows, ledger, r.requestId);
    if r.requestId != NO_ID && r.requestId !in m.rows {
      hide CounterReserve;
      var (m', out) := CounterReserve(m, snaps, r, uuid);
      CounterReserveCharges(m, snaps, runOf, r, uuid);
      CountsDecide(m, ledger, snaps, runOf, r);
      if out.Granted? {
        var row := NewRow(r, uuid);
        SameRowsAfterInsert(m.rows, ledger, row);
        CountersAfterCharge(m, m', ledger, snaps, runOf, row);
        StillWellFormed(ledger, row, runOf);
      } else {
        SameCounters(m, m', ledger, snaps, runOf);
      }
    }
  }

  lemma SameCounters(m: Memory, m': Memory, ledger: seq<LedgerRow>, snaps: Snapshots, runOf: Id -> Id)
    requires Counters(m, ledger, snaps, runOf)
    requires forall key: Key :: Left(m', snaps, runOf, key) == Left(m, snaps, runOf, key)
    ensures Counters(m', ledger, snaps, runOf)
  {
    hide Left, Cap, Count;
  }

  lemma StillWellFormed(ledger: seq<LedgerRow>, row: LedgerRow, runOf: Id -> Id)
    requires AllWellFormed(ledger, runOf) && WellFormed(row.request, runOf)
    ensures AllWellFormed(ledger + [row], runOf)
  {
  }

  /** Counting the rows and reading the counters decide alike. */
  lemma CountsDecide(m: Memory, ledger: seq<LedgerRow>, snaps: Snapshots, runOf: Id -> Id, r: Request)
    requires Refines(m, ledger, snaps, runOf) && WellFormed(r, runOf)
    ensures Left(m, snaps, runOf, KeyOf(r)) == CallCap(snaps(r.runId), r.kind) - Count(ledger, InScope(r))
    ensures r.taskId != NO_ID ==>
              Left(m, snaps, runOf, TaskKey(r.kind, r.taskId)) ==
                RoleCap(snaps(r.runId), r.kind) - Count(ledger, InRole(r))
  {
    hide Left, Count, InScope, InRole, Charged, SameRows;
    ScopesAreCounters(ledger, r, runOf);
  }

  lemma ReconcileRefines(m: Memory, ledger: seq<LedgerRow>, snaps: Snapshots, runOf: Id -> Id, id: nat, u: Usage)
    requires Refines(m, ledger, snaps, runOf)
    ensures UniqueIds(m.rows)
    ensures var (m', out) := CounterReconcile(m, id, u);
            var (ledger', out') := CountingReconcile(ledger, id, u);
            out == out' && Refines(m', ledger', snaps, runOf)
  {
    hide Left, Count, Cap, Charged;
    RowIdsAreUnique(m.rows, ledger);
    var k := IndexOfId(ledger, id);
    if k < |ledger| {
      var q := ledger[k].request.requestId;
      assert Holder(m.rows, id) == Some(q);
      ReconcileKeepsCounts(ledger, k, u);
      ReconcileKeepsRows(m.rows, ledger, k, u);
      CountersOfEqualCounts(m, m.(rows := m.rows[q := Reconciliation(ledger[k], u)]), ledger,
        ledger[k := Reconciliation(ledger[k], u)], snaps, runOf);
    } else {
      NobodyHolds(m.rows, ledger, id);
    }
  }

  lemma NobodyHolds(rows: map<Id, LedgerRow>, ledger: seq<LedgerRow>, id: nat)
    requires SameRows(rows, ledger) && forall k :: 0 <= k < |ledger| ==> ledger[k].id != id
    ensures Holder(rows, id) == None
  {
    forall q | q in rows ensures rows[q].id != id {
      var k :| 0 <= k < |ledger| && ledger[k].request.requestId == q;
    }
  }

  lemma RowIdsAreUnique(rows: map<Id, LedgerRow>, ledger: seq<LedgerRow>)
    requires SameRows(rows, ledger)
    ensures UniqueIds(rows)
  {
    forall p, q | p in rows && q in rows && rows[p].id == rows[q].id ensures p == q {
      var j :| 0 <= j < |ledger| && ledger[j].request.requestId == p;
      var k :| 0 <= k < |ledger| && ledger[k].request.requestId == q;
    }
  }

  lemma CountersOfEqualCounts(m: Memory, m': Memory, ledger: seq<LedgerRow>, ledger': seq<LedgerRow>, snaps: Snapshots,
          runOf: Id -> Id)
    requires Counters(m, ledger, snaps, runOf) && m'.remaining == m.remaining
    requires forall key: Key :: Count(ledger', Charged(key)) == Count(ledger, Charged(key))
    ensures Counters(m', ledger', snaps, runOf)
  {
    hide Count, Cap, Charged;
    forall key: Key ensures Left(m', snaps, runOf, key) == Cap(snaps, runOf, key) - Count(ledger', Charged(key)) {
      assert Left(m, snaps, runOf, key) == Cap(snaps, runOf, key) - Count(ledger, Charged(key));
    }
  }

  /** Reconciling never frees capacity: every count stays as it is. */
  lemma ReconcileKeepsCounts(ledger: seq<LedgerRow>, k: nat, u: Usage)
    requires k < |ledger|
    ensures forall key: Key ::
            Count(ledger[k := Reconciliation(ledger[k], u)], Charged(key)) == Count(ledger, Charged(key))
  {
    forall key: Key
      ensures Count(ledger[k := Reconciliation(ledger[k], u)], Charged(key)) == Count(ledger, Charged(key))
    {
      CountAfterUpdate(ledger, k, Reconciliation(ledger[k], u), Charged(key));
    }
  }

  lemma ReconcileKeepsRows(rows: map<Id, LedgerRow>, ledger: seq<LedgerRow>, k: nat, u: Usage)
    requires SameRows(rows, ledger) && k < |ledger|
    ensures var row := Reconciliation(ledger[k], u);
            SameRows(rows[row.request.requestId := row], ledger[k := row])
  {
    var row := Reconciliation(ledger[k], u);
    var rows', ledger' := rows[row.request.requestId := row], ledger[k := row];
    assert forall j :: 0 <= j < |ledger| ==> ledger'[j].request == ledger[j].request && ledger'[j].id == ledger[j].id;
    forall q | q in rows' ensures exists j :: 0 <= j < |ledger'| && ledger'[j].request.requestId == q {
      if q in rows {
        var j :| 0 <= j < |ledger| && ledger[j].request.requestId == q;
        assert ledger'[j].request.requestId == q;
      }
    }
  }

  // ---------------------------------------------------------------- whole histories

  datatype Op = DoReserve(request: Request, uuid: nat) | DoReconcile(id: nat, usage: Usage)

  function CountingRun(snaps: Snapshots, ops: seq<Op>): (seq<LedgerRow>, seq<Outcome>) {
    if ops == [] then ([], [])
    else
      var (ledger, outs) := CountingRun(snaps, ops[..|ops| - 1]);
      var (ledger', out) :=
        match ops[|ops| - 1]
        case DoReserve(r, uuid) => CountingReserve(ledger, snaps, r, uuid)
        case DoReconcile(id, u) => CountingReconcile(ledger, id, u);
      (ledger', outs + [out])
  }

  ghost function CounterRun(snaps: Snapshots, ops: seq<Op>): (Memory, seq<Outcome>) {
    if ops == [] then (EMPTY_MEMORY, [])
    else
      var (m, outs) := CounterRun(snaps, ops[..|ops| - 1]);
      var (m', out) :=
        match ops[|ops| - 1]
        case DoReserve(r, uuid) => CounterReserve(m, snaps, r, uuid)
        case DoReconcile(id, u) => CounterReconcile(m, id, u);
      (m', outs + [out])
  }

  /** Requests are well formed and row ids are never drawn twice. */
  ghost predicate Admissible(ops: seq<Op>, runOf: Id -> Id) {
    && (forall k :: 0 <= k < |ops| && ops[k].DoReserve? ==> WellFormed(ops[k].request, runOf))
    && (forall j, k :: 0 <= j < k < |ops| && ops[j].DoReserve? && ops[k].DoReserve? ==> ops[j].uuid != ops[k].uuid)
  }

  lemma {:induction false} LedgerIdsWereDrawn(snaps: Snapshots, ops: seq<Op>, k: nat)
    requires k < |CountingRun(snaps, ops).0|
    ensures exists j :: 0 <= j < |ops| && ops[j].DoReserve? && ops[j].uuid == CountingRun(snaps, ops).0[k].id
    decreases |ops|
  {
    var front := ops[..|ops| - 1];
    var ledger := CountingRun(snaps, front).0;
    if k < |ledger| {
      LedgerIdsWereDrawn(snaps, front, k);
      var j :| 0 <= j < |front| && front[j].DoReserve? && front[j].uuid == ledger[k].id;
      assert ops[j] == front[j];
    }
  }

  /** Over every history the two forms grant and refuse alike, with the same row ids. */
  lemma {:induction false} SameAnswers(snaps: Snapshots, runOf: Id -> Id, ops: seq<Op>)
    requires Admissible(ops, runOf) && snaps(NAMED_RUN) == DEFAULT_SNAPSHOT
    ensures CounterRun(snaps, ops).1 == CountingRun(snaps, ops).1
    ensures Refines(CounterRun(snaps, ops).0, CountingRun(snaps, ops).0, snaps, runOf)
    decreases |ops|
  {
    if ops != [] {
      var front := ops[..|ops| - 1];
      SameAnswers(snaps, runOf, front);
      var m, ledger := CounterRun(snaps, front).0, CountingRun(snaps, front).0;
      match ops[|ops| - 1]
      case DoReserve(r, uuid) =>
        forall k | 0 <= k < |ledger| ensures ledger[k].id != uuid {
          LedgerIdsWereDrawn(snaps, front, k);
        }
        ReserveRefines(m, ledger, snaps, runOf, r, uuid);
      case DoReconcile(id, u) =>
        ReconcileRefines(m, ledger, snaps, runOf, id, u);
    }
  }

  /** A granted request finds room under every cap it is charged to. */
  lemma ReserveKeepsCap(ledger: seq<LedgerRow>, snaps: Snapshots, runOf: Id -> Id, r: Request, uuid: nat, key: Key)
    requires WellFormed(r, runOf) && AllWellFormed(ledger, runOf)
    requires Count(ledger, Charged(key)) <= Cap(snaps, runOf, key)
    ensures Count(CountingReserve(ledger, snaps, r, uuid).0, Charged(key)) <= Cap(snaps, runOf, key)
  {
    hide Count, InScope, InRole, IndexOfRequest, AllWellFormed;
    ScopesAreCounters(ledger, r, runOf);
    CountNext(ledger, NewRow(r, uuid), Charged(key));
  }

  /** At most `Cap` rows are ever charged to any key. */
  lemma {:induction false} NeverOverCap(snaps: Snapshots, runOf: Id -> Id, ops: seq<Op>, key: Key)
    requires Admissible(ops, runOf) && snaps(NAMED_RUN) == DEFAULT_SNAPSHOT && Cap(snaps, runOf, key) >= 0
    ensures Count(CountingRun(snaps, ops).0, Charged(key)) <= Cap(snaps, runOf, key)
    decreases |ops|
  {
    hide Count, CountingReserve, Cap, Charged, SameRows, Counters, WellFormed, AllWellFormed, Reconciliation;
    if ops == [] {
      CountOfNothing(Charged(key));
    } else {
      var front := ops[..|ops| - 1];
      NeverOverCap(snaps, runOf, front, key);
      SameAnswers(snaps, runOf, front);
      var ledger := CountingRun(snaps, front).0;
      match ops[|ops| - 1]
      case DoReserve(r, uuid) => ReserveKeepsCap(ledger, snaps, runOf, r, uuid, key);
      case DoReconcile(id, u) =>
        var k := IndexOfId(ledger, id);
        if k < |ledger| {
          ReconcileKeepsCounts(ledger, k, u);
        }
    }
  }

  lemma CountOfNothing(p: LedgerRow -> bool)
    ensures Count([], p) == 0
  {
  }

  /** Rows keep their id and request over every later history. */
  lemma {:induction false} RowsStay(snaps: Snapshots, ops: seq<Op>, more: seq<Op>, k: nat)
    requires k < |CountingRun(snaps, ops).0|
    ensures var before, after := CountingRun(snaps, ops).0, CountingRun(snaps, ops + more).0;
            k < |after| && after[k].id == before[k].id && after[k].request == before[k].request
    decreases |more|
  {
    hide Count, InScope, InRole, IndexOfRequest, IndexOfId;
    if more == [] {
      assert ops + more == ops;
    } else {
      var m := |more| - 1;
      RowsStay(snaps, ops, more[..m], k);
      assert (ops + more)[..|ops| + m] == ops + more[..m];
    }
  }

  lemma {:induction false} RowsAreNamed(snaps: Snapshots, ops: seq<Op>, k: nat)
    requires k < |CountingRun(snaps, ops).0|
    ensures CountingRun(snaps, ops).0[k].request.requestId != NO_ID
    decreases |ops|
  {
    hide Count, InScope, InRole, IndexOfRequest, IndexOfId;
    if ops != [] && k < |CountingRun(snaps, ops[..|ops| - 1]).0| {
      RowsAreNamed(snaps, ops[..|ops| - 1], k);
    }
  }

  /** Retrying a request id that was granted is free after every later history: both forms grant it again with the id
      of its row and change nothing. */
  lemma RetryIsFree(snaps: Snapshots, runOf: Id -> Id, ops: seq<Op>, more: seq<Op>, k: nat, retry: Request, uuid: nat)
    requires Admissible(ops + more, runOf) && snaps(NAMED_RUN) == DEFAULT_SNAPSHOT
    requires k < |CountingRun(snaps, ops).0| && retry.requestId == CountingRun(snaps, ops).0[k].request.requestId
    ensures var granted := Granted(CountingRun(snaps, ops).0[k].id, retry.requestId);
            var ledger, m := CountingRun(snaps, ops + more).0, CounterRun(snaps, ops + more).0;
            && CountingReserve(ledger, snaps, retry, uuid) == (ledger, granted)
            && CounterReserve(m, snaps, retry, uuid) == (m, granted)
  {
    hide Count, InScope, InRole, Counters, AllWellFormed, WellFormed, CountingRun, CounterRun;
    SameAnswers(snaps, runOf, ops + more);
    RowsStay(snaps, ops, more, k);
    RowsAreNamed(snaps, ops, k);
    var ledger, m := CountingRun(snaps, ops + more).0, CounterRun(snaps, ops + more).0;
    assert ledger[k].request.requestId == retry.requestId;
    SameLookup(m.rows, ledger, retry.requestId);
    assert IndexOfRequest(ledger, retry.requestId) == k;
  }
}
