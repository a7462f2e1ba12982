/** The call budgets of research runs by the rows themselves: which requests are granted, and
    how many calls a run, a parse
    and a task can ever have. */
module RunBudgetCaps {
  import opened Common
  import opened RunBudget

  // ---------------------------------------------------------------- counting

  function Positions(rows: seq<LedgerRow>, p: LedgerRow -> bool): set<nat> {
    set k: nat | k < |rows| && p(rows[k])
  }

  lemma PositionsOfNext(rows: seq<LedgerRow>, p: LedgerRow -> bool)
    requires rows != []
    ensures var m := |rows| - 1;
            Positions(rows, p) == Positions(rows[..m], p) + if p(rows[m]) then {m as nat} else {}
  {
  }

  lemma {:induction false} CountIsCardinality(rows: seq<LedgerRow>, p: LedgerRow -> bool)
    ensures Count(rows, p) == |Positions(rows, p)|
    decreases |rows|
  {
    if rows == [] {
      assert Positions(rows, p) == {};
    } else {
      var m: nat := |rows| - 1;
      CountIsCardinality(rows[..m], p);
      PositionsOfNext(rows, p);
      assert m !in Positions(rows[..m], p);
      hide Positions;
    }
  }

  /** The calls of a kind that the request competes with: those of its run, else of its parse, else all. */
  function Rivals(rows: seq<LedgerRow>, r: Request): set<nat> {
    set k: nat | k < |rows| && rows[k].request.kind == r.kind
                 && (r.runId != NO_ID ==> rows[k].request.runId == r.runId)
                 && (r.runId == NO_ID && r.parseId != NO_ID ==> rows[k].request.parseId == r.parseId)
  }

  function CallsOfTask(rows: seq<LedgerRow>, kind: Kind, task: Id): set<nat> {
    set k: nat | k < |rows| && rows[k].request.kind == kind && rows[k].request.taskId == task
  }

  lemma RivalsAreCounted(rows: seq<LedgerRow>, r: Request)
    ensures Count(rows, InScope(r)) == |Rivals(rows, r)|
    ensures Count(rows, InRole(r)) == |CallsOfTask(rows, r.kind, r.taskId)|
  {
    CountIsCardinality(rows, InScope(r));
    CountIsCardinality(rows, InRole(r));
    forall k: nat | k < |rows| ensures rows[k].status in {Reserved, Succeeded, Unknown} {
      EveryStatusCounts(rows[k].status);
    }
    assert Positions(rows, InScope(r)) == Rivals(rows, r);
    assert Positions(rows, InRole(r)) == CallsOfTask(rows, r.kind, r.taskId);
  }

  // ---------------------------------------------------------------- what a request is answered

  /** Calls of its kind use up the run's budget. */
  ghost predicate RunIsSpent(rows: seq<LedgerRow>, s: Snapshot, r: Request) {
    match r.kind
    case ModelKind => |Rivals(rows, r)| >= s.modelCalls
    case ToolKind => |Rivals(rows, r)| >= s.toolCalls
    case OtherKind(_) => |Rivals(rows, r)| >= s.modelCalls
  }

  ghost predicate RoleIsSpent(rows: seq<LedgerRow>, s: Snapshot, r: Request) {
    match r.kind
    case ModelKind => |CallsOfTask(rows, r.kind, r.taskId)| >= s.modelPerRole
    case ToolKind => |CallsOfTask(rows, r.kind, r.taskId)| >= s.toolPerRole
    case OtherKind(_) => |CallsOfTask(rows, r.kind, r.taskId)| >= s.modelPerRole
  }

  ghost predicate Known(rows: seq<LedgerRow>, requestId: Id) {
    exists k :: 0 <= k < |rows| && rows[k].request.requestId == requestId
  }

  /** Each answer, exactly. */
  lemma RequestIsAnswered(rows: seq<LedgerRow>, snaps: Snapshots, r: Request, uuid: nat)
    ensures var (after, out) := CountingReserve(rows, snaps, r, uuid);
            var s := snaps(r.runId);
            if r.requestId == NO_ID then out == Refused(MissingRequestId) && after == rows
            else if Known(rows, r.requestId) then
              && after == rows && out.Granted? && out.requestId == r.requestId
              && exists k :: 0 <= k < |rows| && rows[k].request.requestId == r.requestId && rows[k].id == out.id
            else if RunIsSpent(rows, s, r) then out == Refused(RunBudgetExceeded) && after == rows
            else if r.taskId != NO_ID && RoleIsSpent(rows, s, r)
              then out == Refused(RoleBudgetExceeded) && after == rows
            else
              && out == Granted(uuid, r.requestId)
              && after == rows + [LedgerRow(uuid, r, Reserved, None)]
  {
    hide InScope, InRole, Count, Rivals, CallsOfTask;
    RivalsAreCounted(rows, r);
    var k := IndexOfRequest(rows, r.requestId);
    assert k < |rows| <==> Known(rows, r.requestId);
  }

  /** A reconciled row keeps its request and its reservation counts on; its tokens are known if both parts are. */
  lemma ReconciledAs(rows: seq<LedgerRow>, k: nat, u: Usage)
    requires k < |rows| && forall j :: 0 <= j < k ==> rows[j].id != rows[k].id
    ensures var (after, out) := CountingReconcile(rows, rows[k].id, u);
            && out == Reconciled && |after| == |rows| && (forall j :: 0 <= j < |rows| && j != k ==> after[j] == rows[j])
            && after[k].id == rows[k].id && after[k].request == rows[k].request
            && after[k].status == (if u.unknown then Unknown else Succeeded)
            && after[k].actualTokens ==
               match (u.unknown, u.input, u.output)
               case (false, Some(input), Some(output)) => Some(input + output)
               case _ => rows[k].actualTokens
  {
    var n := IndexOfId(rows, rows[k].id);
    assert !(n < k) && !(k < n);
  }

  // ---------------------------------------------------------------- histories

  function CallsOfRun(rows: seq<LedgerRow>, kind: Kind, run: Id): set<nat> {
    set k: nat | k < |rows| && rows[k].request.kind == kind && rows[k].request.runId == run
  }

  function CallsOfParse(rows: seq<LedgerRow>, kind: Kind, parse: Id): set<nat> {
    set k: nat | k < |rows| && rows[k].request.kind == kind && rows[k].request.runId == NO_ID
                 && rows[k].request.parseId == parse
  }

  lemma ChargedRows(rows: seq<LedgerRow>, kind: Kind, id: Id)
    requires id != NO_ID
    ensures Count(rows, Charged(RunKey(kind, id))) == |CallsOfRun(rows, kind, id)|
    ensures Count(rows, Charged(TaskKey(kind, id))) == |CallsOfTask(rows, kind, id)|
    ensures Count(rows, Charged(ParseKey(kind, id))) == |CallsOfParse(rows, kind, id)|
  {
    CountIsCardinality(rows, Charged(RunKey(kind, id)));
    CountIsCardinality(rows, Charged(TaskKey(kind, id)));
    CountIsCardinality(rows, Charged(ParseKey(kind, id)));
    assert Positions(rows, Charged(RunKey(kind, id))) == CallsOfRun(rows, kind, id);
    assert Positions(rows, Charged(TaskKey(kind, id))) == CallsOfTask(rows, kind, id);
    assert Positions(rows, Charged(ParseKey(kind, id))) == CallsOfParse(rows, kind, id);
  }

  /** After every history the model and tool calls of a run are within the run's own numbers, and those of a task within
      its role's. */
  lemma RunStaysWithinItsCalls(snaps: Snapshots, runOf: Id -> Id, ops: seq<Op>, run: Id, task: Id)
    requires Admissible(ops, runOf) && snaps(NAMED_RUN) == DEFAULT_SNAPSHOT
    requires run != NO_ID && task != NO_ID && runOf(task) == run
    requires snaps(run).modelCalls >= 0 && snaps(run).toolCalls >= 0
    requires snaps(run).modelPerRole >= 0 && snaps(run).toolPerRole >= 0
    ensures var rows := CountingRun(snaps, ops).0;
            && |CallsOfRun(rows, ModelKind, run)| <= snaps(run).modelCalls
            && |CallsOfRun(rows, ToolKind, run)| <= snaps(run).toolCalls
            && |CallsOfTask(rows, ModelKind, task)| <= snaps(run).modelPerRole
            && |CallsOfTask(rows, ToolKind, task)| <= snaps(run).toolPerRole
  {
    hide CountingRun, Count, Charged, Admissible, CallsOfRun, CallsOfTask;
    var rows := CountingRun(snaps, ops).0;
    NeverOverCap(snaps, runOf, ops, RunKey(ModelKind, run));
    NeverOverCap(snaps, runOf, ops, RunKey(ToolKind, run));
    NeverOverCap(snaps, runOf, ops, TaskKey(ModelKind, task));
    NeverOverCap(snaps, runOf, ops, TaskKey(ToolKind, task));
    ChargedRows(rows, ModelKind, run);
    ChargedRows(rows, ToolKind, run);
    ChargedRows(rows, ModelKind, task);
    ChargedRows(rows, ToolKind, task);
  }

  /** Parses are governed by the snapshot without a run. */
  lemma ParseStaysWithinItsCalls(snaps: Snapshots, runOf: Id -> Id, ops: seq<Op>, parse: Id)
    requires Admissible(ops, runOf) && snaps(NAMED_RUN) == DEFAULT_SNAPSHOT && parse != NO_ID
    requires snaps(NO_ID).modelCalls >= 0 && snaps(NO_ID).toolCalls >= 0
    ensures var rows := CountingRun(snaps, ops).0;
            && |CallsOfParse(rows, ModelKind, parse)| <= snaps(NO_ID).modelCalls
            && |CallsOfParse(rows, ToolKind, parse)| <= snaps(NO_ID).toolCalls
  {
    hide CountingRun, Count, Charged, Admissible, CallsOfParse;
    var rows := CountingRun(snaps, ops).0;
    NeverOverCap(snaps, runOf, ops, ParseKey(ModelKind, parse));
    NeverOverCap(snaps, runOf, ops, ParseKey(ToolKind, parse));
    ChargedRows(rows, ModelKind, parse);
    ChargedRows(rows, ToolKind, parse);
  }

  // ---------------------------------------------------------------- snapshots

  /** A snapshot that can be in force: positive numbers, and no role above its run. */
  predicate Sane(s: Snapshot) {
    0 < s.modelPerRole <= s.modelCalls && 0 < s.toolPerRole <= s.toolCalls
  }

  /** The value that counts when one is stored, and the one that counts otherwise. */
  predicate KeptOr(stored: int, otherwise: int, used: int) {
    (stored > 0 && used == stored) || (stored <= 0 && used == otherwise)
  }

  /** Parsing leaves sane snapshots alone and changes every other; positive run numbers are kept
      and others become 14 model
      and 12 tool calls; a role has what was stored for it, else 4 and 6, or all of its run if that is less. */
  lemma ParsedRepairs(s: Snapshot)
    ensures var p := Parsed(s);
            && Sane(p) && (p == s <==> Sane(s))
            && KeptOr(s.modelCalls, 14, p.modelCalls) && KeptOr(s.toolCalls, 12, p.toolCalls)
            && (p.modelPerRole < p.modelCalls ==> KeptOr(s.modelPerRole, 4, p.modelPerRole))
            && (p.toolPerRole < p.toolCalls ==> KeptOr(s.toolPerRole, 6, p.toolPerRole))
            && (0 < s.modelPerRole <= p.modelCalls ==> p.modelPerRole == s.modelPerRole)
            && (0 < s.toolPerRole <= p.toolCalls ==> p.toolPerRole == s.toolPerRole)
            && p.runTimeout == s.runTimeout && p.queueTimeout == s.queueTimeout
  {
  }

  /** Admission freezes the policy's positive numbers, else 14, 12, 180 and 30; roles get 4
      model and 6 tool calls, or all
      of the run's if those are fewer. */
  lemma FrozenFollowsPolicy(p: Policy)
    ensures var s := Frozen(p);
            && KeptOr(p.modelCalls, 14, s.modelCalls) && KeptOr(p.toolCalls, 12, s.toolCalls)
            && KeptOr(p.runTimeout, 180, s.runTimeout) && KeptOr(p.queueTimeout, 30, s.queueTimeout)
            && (s.modelPerRole == 4 <= s.modelCalls || s.modelPerRole == s.modelCalls < 4)
            && (s.toolPerRole == 6 <= s.toolCalls || s.toolPerRole == s.toolCalls < 6)
  {
  }
}
