/** One research run: its database row, every conditional update of that row (run_state.go, nodes.go,
    worker.go, research_service.go), and the agents that read the row in one step and update it in a
    later one. Times are integers; a transaction or a conditional UPDATE is one atomic step. */
module ResearchRun {
  import opened Common

  // ---------------------------------------------------------------- the row

  datatype Status = Queued | Researching | Verifying | Completed | Incomplete | Failed | Canceling | Canceled

  datatype Stage =
    | AtQueued | AtResearching | AtVerifying | AtDone | AtQueueTimeout | AtLeaseLost
    | AtCanceling | AtDeleting | AtCanceled

  datatype Row = Row(
    status: Status, stage: Stage, version: int,
    leased: bool, leaseUntil: Option<int>, deadline: Option<int>,
    createdAt: int, queueTimeout: int, runTimeout: int,
    deleted: bool)

  const LEASE_TTL := 15
  const RETENTION := 30 * 24 * 3600

  const ACTIVE: set<Status> := {Queued, Researching, Verifying, Canceling}

  predicate Terminal(s: Status) {
    s == Completed || s == Incomplete || s == Failed || s == Canceled
  }

  /** runIsCanceled */
  predicate IsCanceled(row: Row) {
    row.deleted || row.status == Canceling || row.status == Canceled
  }

  predicate LeaseExpired(leaseUntil: Option<int>, now: int) {
    leaseUntil.None? || leaseUntil.value <= now
  }

  function Created(now: int, queueTimeout: int, runTimeout: int): Row {
    Row(Queued, AtQueued, 1, false, None, None, now, queueTimeout, runTimeout, false)
  }

  // ---------------------------------------------------------------- the conditional updates
  // `None` is "no row affected".

  /** casUpdateRun */
  function CasUpdate(row: Row, expected: int, allowed: set<Status>, patch: Row -> Row): Option<Row> {
    if row.version == expected && !row.deleted && (allowed == {} || row.status in allowed)
    then Some(patch(row).(version := expected + 1))
    else None
  }

  /** The update of freeze, with the clock read before it. */
  function Freeze(row: Row, seen: int, at: int): Option<Row> {
    CasUpdate(row, seen, {Queued}, (r: Row) =>
      r.(status := Researching, stage := AtResearching, deadline := Some(at + r.runTimeout), leased := true,
        leaseUntil := Some(at + LEASE_TTL)))
  }

  /** The fence of synthesize. */
  function StartVerifying(row: Row, expected: int): Option<Row> {
    CasUpdate(row, expected, {Queued, Researching}, (r: Row) => r.(status := Verifying, stage := AtVerifying))
  }

  /** failOrIncomplete: it excludes four statuses, not `Incomplete`. */
  function FailOrIncomplete(row: Row, fence: int, failed: bool): Option<Row> {
    if !row.deleted && row.status !in {Canceled, Canceling, Completed, Failed} && (fence > 0 ==> row.version == fence)
    then Some(row.(status := if failed then Failed else Incomplete, stage := AtDone,
                   leased := false, leaseUntil := None,
                   version := (if fence > 0 then fence else row.version) + 1))
    else None
  }

  datatype Quality = QualityCompleted | QualityIncomplete | QualityFailed

  /** Publish: one transaction under the row lock; `valid` stands for the checks of the report itself. */
  function Publish(row: Row, now: int, expected: int, quality: Quality, valid: bool): Option<Row> {
    if IsCanceled(row) || row.status != Verifying then None
    else if row.leaseUntil.None? || row.leaseUntil.value < now then None
    else if row.deadline.Some? && row.deadline.value < now then None
    else if row.version != expected || !valid then None
    else Some(row.(status := match quality
                             case QualityCompleted => Completed
                             case QualityIncomplete => Incomplete
                             case QualityFailed => Failed,
                   stage := AtDone, version := row.version + 1, leased := false, leaseUntil := None))
  }

  /** The update of failQueueTimeouts. */
  function TimeOut(row: Row): Option<Row> {
    if row.status == Queued
    then Some(row.(status := Failed, stage := AtQueueTimeout, leased := false, leaseUntil := None,
                   version := row.version + 1))
    else None
  }

  /** The update of reapExpiredLeases: the version is checked again, the status is not. */
  function Reap(row: Row, seen: int): Option<Row> {
    if row.version == seen
    then Some(row.(status := Incomplete, stage := AtLeaseLost, leased := false, leaseUntil := None,
                   version := seen + 1))
    else None
  }

  /** renewLease */
  function Renew(row: Row, now: int): Option<Row> {
    if row.leased && row.status in {Researching, Verifying}
    then Some(row.(leaseUntil := Some(now + LEASE_TTL))) else None
  }

  /** The claim of Tick: not exclusive, and the version stays. */
  function Claim(row: Row, now: int): Option<Row> {
    if row.status == Queued then Some(row.(leased := true, leaseUntil := Some(now + LEASE_TTL))) else None
  }

  /** The transaction of CancelResearch. */
  function Cancel(row: Row): Option<Row> {
    if row.deleted || Terminal(row.status) || row.status == Canceling then None
    else CasUpdate(row, row.version, {Queued, Researching, Verifying}, (r: Row) =>
      if Dispatched(r) then r.(status := Canceling, stage := AtCanceling)
      else r.(status := Canceled, stage := AtCanceled, leased := false, leaseUntil := None))
  }

  predicate Dispatched(row: Row) {
    row.status == Researching || row.status == Verifying || row.leased
  }

  /** The transaction of DeleteResearch. */
  function Delete(row: Row): Option<Row> {
    if row.deleted then None
    else if row.status in ACTIVE
    then CasUpdate(row, row.version, ACTIVE, (r: Row) => r.(status := Canceling, stage := AtDeleting))
    else Some(row.(deleted := true, version := row.version + 1, leased := false, leaseUntil := None))
  }

  /** The update of finalizeCancel. */
  function Finalize(row: Row): Option<Row> {
    if row.status == Canceling
    then Some(row.(status := Canceled, stage := AtCanceled, leased := false, leaseUntil := None,
                   version := row.version + 1))
    else None
  }

  /** The unconditional writes of deleted_at. */
  function MarkDeleted(row: Row): Row {
    row.(deleted := true)
  }

  /** The retention sweep of PurgeRetention. */
  function Purge(row: Row, now: int): Option<Row> {
    if !row.deleted && row.createdAt < now - RETENTION then Some(MarkDeleted(row)) else None
  }

  // ---------------------------------------------------------------- the same updates on a stored row

  /** The stored row and the number of its published reports. */
  class RunStore {
    var row: Row
    var reports: nat

    method CasUpdateRun(expected: int, allowed: set<Status>, patch: Row -> Row) returns (ok: bool)
      modifies this`row
      ensures ok == CasUpdate(old(row), expected, allowed, patch).Some?
      ensures row == if ok then CasUpdate(old(row), expected, allowed, patch).value else old(row)
    {
      ok := row.version == expected && !row.deleted;
      if allowed != {} {
        ok := ok && row.status in allowed;
      }
      if ok {
        row := patch(row);
        row := row.(version := expected + 1);
      }
    }

    method CancelResearch() returns (changed: bool, dispatched: bool)
      modifies this`row
      ensures changed == Cancel(old(row)).Some?
      ensures row == if changed then Cancel(old(row)).value else old(row)
      ensures changed ==> dispatched == (row.status == Canceling)
    {
      changed, dispatched := false, false;
      if row.deleted {
        return;
      }
      match row.status {
        case Completed | Incomplete | Failed | Canceled => return;
        case Canceling => return;
        case _ =>
      }
      dispatched := row.status == Researching || row.status == Verifying || row.leased;
      if dispatched {
        changed := CasUpdateRun(row.version, {Queued, Researching, Verifying},
                                (r: Row) => r.(status := Canceling, stage := AtCanceling));
      } else {
        changed := CasUpdateRun(row.version, {Queued, Researching, Verifying}, (r: Row) =>
          r.(status := Canceled, stage := AtCanceled, leased := false, leaseUntil := None));
      }
    }

    method DeleteResearch() returns (changed: bool, wasActive: bool)
      modifies this`row
      ensures changed == Delete(old(row)).Some?
      ensures row == if changed then Delete(old(row)).value else old(row)
      ensures wasActive == (!old(row).deleted && old(row).status in ACTIVE)
    {
      changed, wasActive := false, false;
      if row.deleted {
        return;
      }
      wasActive := row.status == Queued || row.status == Researching || row.status == Verifying
        || row.status == Canceling;
      if wasActive {
        changed := CasUpdateRun(row.version, ACTIVE, (r: Row) => r.(status := Canceling, stage := AtDeleting));
      } else {
        row := row.(deleted := true, version := row.version + 1, leased := false, leaseUntil := None);
        changed := true;
      }
    }

    method PublishReport(now: int, expected: int, quality: Quality, valid: bool) returns (ok: bool)
      modifies this
      ensures ok == Publish(old(row), now, expected, quality, valid).Some?
      ensures row == if ok then Publish(old(row), now, expected, quality, valid).value else old(row)
      ensures reports == old(reports) + if ok then 1 else 0
    {
      ok := false;
      if row.deleted || row.status == Canceling || row.status == Canceled {
        return;
      }
      if row.status != Verifying {
        return;
      }
      if row.leaseUntil.None? || now > row.leaseUntil.value {
        return;
      }
      if row.deadline.Some? && now > row.deadline.value {
        return;
      }
      if row.version != expected {
        return;
      }
      if !valid {
        return;
      }
      reports := reports + 1;
      var status := Completed;
      if quality == QualityIncomplete {
        status := Incomplete;
      }
      if quality == QualityFailed {
        status := Failed;
      }
      row := row.(status := status, stage := AtDone, version := row.version + 1, leased := false, leaseUntil := None);
      ok := true;
    }
  }

  // ---------------------------------------------------------------- agents

  /** What an agent remembers between its read of the row and its later update. */
  datatype Agent =
    | Idle
    // Tick: the row was queued and free; then claimed, so an orchestrator starts.
    | ClaimSeen
    | Claimed
    // An orchestrator: freeze has read the row; has frozen it with a fence; synthesize has read it; has
    // moved the fence; verify has read the row.
    | FreezeSeen(seen: int, at: int)
    | Frozen(fence: int)
    | SynthesizeSeen(fence: int, seen: int)
    | Synthesized(fence: int, failRun: bool)
    | VerifySeen(fence: int, failRun: bool, status: Status, seen: int)
    // failQueueTimeouts and reapExpiredLeases after their read.
    | TimeOutSeen
    | ReapSeen(seen: int)
    // finalizeCancel: to start; after its read; with deleted_at still to be written. `deleting` is
    // DeleteResearch, which looks at the row once more afterwards.
    | Finalizing(deleting: bool)
    | FinalizeSeen(deleting: bool, stage: Stage)
    | FinalizeMarks(deleting: bool)
    | DeleteLooks
    | DeleteMarks

  /** One step of one agent, with what the environment decides for it. */
  datatype Step =
    | DoClaimRead | DoClaim
    | DoFreezeRead | DoFreeze
    | DoSynthesizeRead | DoSynthesize(failRun: bool)
    | DoVerifyRead | DoVerify(structural: bool, quality: Quality, valid: bool)
    | DoRenew
    | DoTimeOutRead | DoTimeOut | DoReapRead | DoReap
    | DoCancel | DoDelete
    | DoConvergeRead | DoFinalizeRead(acked: bool) | DoFinalize | DoFinalizeMark | DoDeleteLook | DoDeleteMark
    | DoPurge
    | Crash

  /** The run with its agents; `freezes` counts the orchestrators that ever passed freeze. */
  datatype Run = Run(row: Row, reports: nat, freezes: nat, agents: map<nat, Agent>)

  function Pc(g: Run, a: nat): Agent {
    if a in g.agents then g.agents[a] else Idle
  }

  function Become(g: Run, a: nat, pc: Agent): Run {
    g.(agents := g.agents[a := pc])
  }

  /** Write the row if the update affected it; the agent goes on to `yes` or `no`. */
  function Try(g: Run, a: nat, update: Option<Row>, yes: Agent, no: Agent): Run {
    if update.Some? then Become(g.(row := update.value), a, yes) else Become(g, a, no)
  }

  function AfterFinalize(deleting: bool): Agent {
    if deleting then DeleteLooks else Idle
  }

  function Next(g: Run, now: int, a: nat, step: Step): Run {
    var row := g.row;
    match (step, Pc(g, a))
    case (Crash, _) => Become(g, a, Idle)
    case (DoRenew, pc) => Try(g, a, Renew(row, now), pc, pc)
    case (DoPurge, pc) => Try(g, a, Purge(row, now), pc, pc)
    // Tick
    case (DoClaimRead, Idle) =>
      if row.status == Queued && !row.deleted && (row.leaseUntil.None? || row.leaseUntil.value < now)
      then Become(g, a, ClaimSeen) else g
    case (DoClaim, ClaimSeen) => Try(g, a, Claim(row, now), Claimed, Idle)
    // Orchestrator.Run
    case (DoFreezeRead, Claimed) => Become(g, a, if IsCanceled(row) then Idle else FreezeSeen(row.version, now))
    case (DoFreeze, FreezeSeen(seen, at)) =>
      var frozen := Try(g, a, Freeze(row, seen, at), Frozen(seen + 1), Idle);
      if Freeze(row, seen, at).Some? then frozen.(freezes := g.freezes + 1) else frozen
    case (DoSynthesizeRead, Frozen(fence)) =>
      Become(g, a, if IsCanceled(row) then Idle else SynthesizeSeen(fence, row.version))
    case (DoSynthesize(failRun), SynthesizeSeen(fence, seen)) =>
      var expected := if fence == 0 then seen else fence;
      Try(g, a, StartVerifying(row, expected), Synthesized(expected + 1, failRun), Idle)
    case (DoVerifyRead, Synthesized(fence, failRun)) =>
      Become(g, a, if IsCanceled(row) then Idle else VerifySeen(fence, failRun, row.status, row.version))
    case (DoVerify(structural, quality, valid), VerifySeen(fence, failRun, status, seen)) =>
      if failRun || !structural then Try(g, a, FailOrIncomplete(row, fence, true), Idle, Idle)
      else if status != Verifying then Become(g, a, Idle)
      else
        var published := Publish(row, now, if fence == 0 then seen else fence, quality, valid);
        Try(g.(reports := g.reports + if published.Some? then 1 else 0), a, published, Idle, Idle)
    // housekeeping
    case (DoTimeOutRead, Idle) =>
      if row.status == Queued && !row.deleted && row.createdAt + row.queueTimeout <= now
      then Become(g, a, TimeOutSeen) else g
    case (DoTimeOut, TimeOutSeen) => Try(g, a, TimeOut(row), Idle, Idle)
    case (DoReapRead, Idle) =>
      if row.status in {Researching, Verifying} && row.leaseUntil.Some? && row.leaseUntil.value < now && !row.deleted
      then Become(g, a, ReapSeen(row.version)) else g
    case (DoReap, ReapSeen(seen)) => Try(g, a, Reap(row, seen), Idle, Idle)
    // cancel and delete
    case (DoCancel, Idle) => Try(g, a, Cancel(row), if Dispatched(row) then Finalizing(false) else Idle, Idle)
    case (DoDelete, Idle) => Try(g, a, Delete(row), if row.status in ACTIVE then Finalizing(true) else Idle, Idle)
    case (DoConvergeRead, Idle) => if row.status == Canceling then Become(g, a, Finalizing(false)) else g
    case (DoFinalizeRead(acked), Finalizing(deleting)) =>
      Become(g, a,
             if acked || LeaseExpired(row.leaseUntil, now) then FinalizeSeen(deleting, row.stage)
             else AfterFinalize(deleting))
    case (DoFinalize, FinalizeSeen(deleting, stage)) =>
      Try(g, a, Finalize(row), if stage == AtDeleting then FinalizeMarks(deleting) else AfterFinalize(deleting),
          AfterFinalize(deleting))
    case (DoFinalizeMark, FinalizeMarks(deleting)) => Become(g.(row := MarkDeleted(row)), a, AfterFinalize(deleting))
    case (DoDeleteLook, DeleteLooks) =>
      Become(g, a, if row.status == Canceled && !row.deleted then DeleteMarks else Idle)
    case (DoDeleteMark, DeleteMarks) => Become(g.(row := MarkDeleted(row)), a, Idle)
    case _ => g
  }

  function Init(now: int, queueTimeout: int, runTimeout: int): Run {
    Run(Created(now, queueTimeout, runTimeout), 0, 0, map[])
  }

  datatype Event = Event(now: int, agent: nat, step: Step)

  /** The state after a trace: any interleaving of any number of agents, under any clock. */
  function Exec(g: Run, trace: seq<Event>): Run {
    if trace == [] then g
    else
      var e := trace[|trace| - 1];
      Next(Exec(g, trace[..|trace| - 1]), e.now, e.agent, e.step)
  }
}
