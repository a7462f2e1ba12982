/** Time in a research run: which step may change the row when, and what that means over every interleaving. */
module ResearchRunTimes {
  import opened Common
  import opened ResearchRun
  import opened ResearchRunSafety

  // ---------------------------------------------------------------- one step

  /** What has to hold for a step to publish a report. */
  ghost predicate MayPublish(row: Row, now: int, pc: Agent, step: Step) {
    && step.DoVerify? && step.structural && step.valid
    && pc.VerifySeen? && !pc.failRun && pc.status == Verifying && pc.fence == row.version
    && row.status == Verifying && !row.deleted
    && row.leaseUntil.Some? && now <= row.leaseUntil.value
    && (row.deadline.Some? ==> now <= row.deadline.value)
  }

  /** The status a report asks for. */
  function QualityStatus(q: Quality): Status {
    match q
    case QualityCompleted => Completed
    case QualityIncomplete => Incomplete
    case QualityFailed => Failed
  }

  /** The status after a step of an agent that remembers `pc`: it changes exactly under the fence or version that the
      agent remembers, or at a user's request. */
  ghost function StatusAfter(row: Row, now: int, pc: Agent, step: Step): Status {
    match (step, pc)
    case (DoFreeze, FreezeSeen(seen, _)) =>
      if row.status == Queued && !row.deleted && row.version == seen then Researching else row.status
    case (DoSynthesize(_), SynthesizeSeen(fence, _)) =>
      if row.status == Researching && !row.deleted && row.version == fence then Verifying else row.status
    case (DoVerify(structural, quality, _), VerifySeen(fence, failRun, _, _)) =>
      if failRun || !structural then
        if Open(row.status) && !row.deleted && row.version == fence then Failed else row.status
      else if MayPublish(row, now, pc, step) then QualityStatus(quality) else row.status
    case (DoTimeOut, TimeOutSeen) => if row.status == Queued then Failed else row.status
    case (DoReap, ReapSeen(seen)) => if row.version == seen then Incomplete else row.status
    case (DoCancel, Idle) =>
      if row.deleted then row.status
      else if row.status == Queued && !row.leased then Canceled
      else if row.status == Queued || Open(row.status) then Canceling
      else row.status
    case (DoDelete, Idle) =>
      if !row.deleted && (row.status == Queued || Open(row.status)) then Canceling else row.status
    case (DoFinalize, FinalizeSeen(_, _)) => if row.status == Canceling then Canceled else row.status
    case _ => row.status
  }

  lemma StepMovesStatus(g: Run, now: int, a: nat, step: Step)
    requires Inv(g)
    ensures Next(g, now, a, step).row.status == StatusAfter(g.row, now, Pc(g, a), step)
  {
    assert AgentOk(g.row, g.freezes, Pc(g, a));
  }

  /** A lease runs for fifteen seconds from the clock of the step that takes or renews it, at freeze from the clock read
      before; it ends with the run. */
  ghost function LeaseAfterStep(row: Row, now: int, pc: Agent, step: Step): Option<int> {
    var status := StatusAfter(row, now, pc, step);
    match (step, pc)
    case (DoClaim, ClaimSeen) => if row.status == Queued then Some(now + 15) else row.leaseUntil
    case (DoRenew, _) => if row.leased && Open(row.status) then Some(now + 15) else row.leaseUntil
    case (DoFreeze, FreezeSeen(_, at)) => if status != row.status then Some(at + 15) else row.leaseUntil
    case (DoDelete, Idle) => if !row.deleted && Terminal(row.status) then None else row.leaseUntil
    case _ => if status != row.status && Terminal(status) then None else row.leaseUntil
  }

  /** Only freeze sets a deadline, counted from the clock it read before. */
  ghost function DeadlineAfter(row: Row, now: int, pc: Agent, step: Step): Option<int> {
    match (step, pc)
    case (DoFreeze, FreezeSeen(_, at)) =>
      if StatusAfter(row, now, pc, step) != row.status then Some(at + row.runTimeout) else row.deadline
    case _ => row.deadline
  }

  lemma StepMovesLease(g: Run, now: int, a: nat, step: Step)
    requires Inv(g)
    ensures var row' := Next(g, now, a, step).row; row'.leaseUntil == LeaseAfterStep(g.row, now, Pc(g, a), step)
  {
    assert AgentOk(g.row, g.freezes, Pc(g, a));
  }

  lemma StepMovesDeadline(g: Run, now: int, a: nat, step: Step)
    requires Inv(g)
    ensures Next(g, now, a, step).row.deadline == DeadlineAfter(g.row, now, Pc(g, a), step)
    ensures SameTimes(g.row, Next(g, now, a, step).row)
  {
    assert AgentOk(g.row, g.freezes, Pc(g, a));
  }

  /** The times given at creation. */
  predicate SameTimes(row: Row, row': Row) {
    row'.createdAt == row.createdAt && row'.queueTimeout == row.queueTimeout && row'.runTimeout == row.runTimeout
  }

  /** A run is marked deleted exactly by who asked for it, or more than thirty days after its creation. */
  lemma StepMovesDeletion(g: Run, now: int, a: nat, step: Step)
    ensures Next(g, now, a, step).row.deleted <==>
            || g.row.deleted
            || (step == DoPurge && g.row.createdAt + 30 * 24 * 3600 < now)
            || (step == DoDelete && Pc(g, a) == Idle && Terminal(g.row.status))
            || (step == DoFinalizeMark && Pc(g, a).FinalizeMarks?)
            || (step == DoDeleteMark && Pc(g, a) == DeleteMarks)
  {
  }

  /** What a read makes of the agent: it goes on exactly with a free queued run, with one past
      its queue timeout, with an
      open one whose lease ran out, with one that is not canceled, or with a cancellation that the executor acknowledged
      or that outlived its lease. */
  lemma ReadsFind(g: Run, now: int, a: nat, step: Step)
    ensures var row, pc' := g.row, Pc(Next(g, now, a, step), a);
            var gone := row.deleted || row.status == Canceling || row.status == Canceled;
            var runOut := row.leaseUntil.Some? && row.leaseUntil.value < now;
            match (step, Pc(g, a))
            case (DoClaimRead, Idle) =>
              pc' == if row.status == Queued && !row.deleted && (row.leaseUntil.None? || runOut) then ClaimSeen
                else Idle
            case (DoFreezeRead, Claimed) => pc' == if gone then Idle else FreezeSeen(row.version, now)
            case (DoSynthesizeRead, Frozen(fence)) => pc' == if gone then Idle else SynthesizeSeen(fence, row.version)
            case (DoVerifyRead, Synthesized(fence, failRun)) =>
              pc' == if gone then Idle else VerifySeen(fence, failRun, row.status, row.version)
            case (DoTimeOutRead, Idle) =>
              pc' == if row.status == Queued && !row.deleted && now - row.createdAt >= row.queueTimeout
                     then TimeOutSeen else Idle
            case (DoReapRead, Idle) =>
              pc' == if Open(row.status) && !row.deleted && runOut then ReapSeen(row.version) else Idle
            case (DoConvergeRead, Idle) => pc' == if row.status == Canceling then Finalizing(false) else Idle
            case (DoFinalizeRead(acked), Finalizing(deleting)) =>
              if acked || row.leaseUntil.None? || row.leaseUntil.value <= now
              then pc' == FinalizeSeen(deleting, row.stage)
              else pc' == if deleting then DeleteLooks else Idle
            case _ => true
  {
  }

  // ---------------------------------------------------------------- what an agent read, and when

  /** At some event before the n-th the agent made this step with this clock. */
  ghost predicate Made(trace: seq<Event>, k: nat, a: nat, step: Step, now: int) {
    k < |trace| && trace[k] == Event(now, a, step)
  }

  ghost predicate FrozeAt(trace: seq<Event>, a: nat, at: int) {
    exists k: nat :: Made(trace, k, a, DoFreezeRead, at)
  }

  /** The agent came to its decision by a read at a time that allowed it. */
  ghost predicate ReadInTime(trace: seq<Event>, row: Row, a: nat, pc: Agent) {
    match pc
    case FreezeSeen(_, at) => FrozeAt(trace, a, at)
    case TimeOutSeen => exists k: nat, now: int :: LateRead(trace, row, k, a, now)
    case _ => PastFreeze(pc) ==> row.deadline.Some? && FrozeAt(trace, a, row.deadline.value - row.runTimeout)
  }

  ghost predicate LateRead(trace: seq<Event>, row: Row, k: nat, a: nat, now: int) {
    Made(trace, k, a, DoTimeOutRead, now) && row.createdAt + row.queueTimeout <= now
  }

  ghost predicate TimesOk(g: Run, trace: seq<Event>) {
    forall a: nat :: ReadInTime(trace, g.row, a, Pc(g, a))
  }

  lemma MadeStays(trace: seq<Event>, e: Event, row: Row, row': Row, a: nat, pc: Agent)
    requires ReadInTime(trace, row, a, pc)
    requires SameTimes(row, row')
    requires PastFreeze(pc) ==> row'.deadline == row.deadline
    ensures ReadInTime(trace + [e], row', a, pc)
  {
    hide LateRead;
    if pc.FreezeSeen? {
      FrozeStays(trace, e, a, pc.at);
    } else if pc.TimeOutSeen? {
      var k: nat, now: int :| LateRead(trace, row, k, a, now);
      LateReadStays(trace, e, row, row', k, a, now);
    } else if PastFreeze(pc) {
      FrozeStays(trace, e, a, row.deadline.value - row.runTimeout);
    }
  }

  lemma FrozeStays(trace: seq<Event>, e: Event, a: nat, at: int)
    requires FrozeAt(trace, a, at)
    ensures FrozeAt(trace + [e], a, at)
  {
    var k: nat :| Made(trace, k, a, DoFreezeRead, at);
    assert Made(trace + [e], k, a, DoFreezeRead, at);
  }

  lemma LateReadStays(trace: seq<Event>, e: Event, row: Row, row': Row, k: nat, a: nat, now: int)
    requires LateRead(trace, row, k, a, now) && SameTimes(row, row')
    ensures LateRead(trace + [e], row', k, a, now)
  {
  }

  /** What the moving agent remembers after its step comes from the same memory, from this step's read, or from the
      freeze it has just made. */
  ghost predicate MemoryMoves(row: Row, row': Row, now: int, pc: Agent, pc': Agent, step: Step) {
    && (pc'.FreezeSeen? ==> pc' == pc || (step == DoFreezeRead && pc'.at == now))
    && (pc'.TimeOutSeen? ==> pc == pc' || (step == DoTimeOutRead && row.createdAt + row.queueTimeout <= now))
    && (PastFreeze(pc') ==>
          || (PastFreeze(pc) && row'.deadline == row.deadline)
          || (pc.FreezeSeen? && row'.deadline == Some(pc.at + row.runTimeout)))
  }

  lemma StepMovesMemory(g: Run, now: int, a: nat, step: Step)
    ensures var g' := Next(g, now, a, step); MemoryMoves(g.row, g'.row, now, Pc(g, a), Pc(g', a), step)
  {
  }

  lemma OwnReadInTime(trace: seq<Event>, row: Row, row': Row, now: int, a: nat, pc: Agent, pc': Agent, step: Step)
    requires ReadInTime(trace, row, a, pc) && MemoryMoves(row, row', now, pc, pc', step)
    requires SameTimes(row, row')
    ensures ReadInTime(trace + [Event(now, a, step)], row', a, pc')
  {
    hide LateRead;
    var e := Event(now, a, step);
    if pc'.FreezeSeen? {
      if pc' == pc {
        FrozeStays(trace, e, a, pc.at);
      } else {
        assert Made(trace + [e], |trace|, a, DoFreezeRead, now);
      }
    } else if pc'.TimeOutSeen? {
      if pc' == pc {
        MadeStays(trace, e, row, row', a, pc);
      } else {
        assert LateRead(trace + [e], row', |trace|, a, now) by {
          NewLateRead(trace, row', now, a);
        }
      }
    } else if PastFreeze(pc') {
      if PastFreeze(pc) && row'.deadline == row.deadline {
        FrozeStays(trace, e, a, row.deadline.value - row.runTimeout);
      } else {
        FrozeStays(trace, e, a, pc.at);
      }
    }
  }

  lemma NewLateRead(trace: seq<Event>, row: Row, now: int, a: nat)
    requires row.createdAt + row.queueTimeout <= now
    ensures LateRead(trace + [Event(now, a, DoTimeOutRead)], row, |trace|, a, now)
  {
  }

  /** Freezing is done once, so nobody else is past it when the deadline is set. */
  lemma OthersKeepDeadline(g: Run, now: int, a: nat, step: Step, b: nat)
    requires Inv(g) && b != a && PastFreeze(Pc(g, b))
    ensures Next(g, now, a, step).row.deadline == g.row.deadline
  {
    assert AgentOk(g.row, g.freezes, Pc(g, a)) && AgentOk(g.row, g.freezes, Pc(g, b));
  }

  lemma StepKeepsTimes(g: Run, e: Event, trace: seq<Event>)
    requires Inv(g) && TimesOk(g, trace)
    ensures TimesOk(Next(g, e.now, e.agent, e.step), trace + [e])
  {
    hide Next, Inv, Pc, ReadInTime, MemoryMoves;
    var g' := Next(g, e.now, e.agent, e.step);
    StepMovesDeadline(g, e.now, e.agent, e.step);
    forall b: nat ensures ReadInTime(trace + [e], g'.row, b, Pc(g', b)) {
      assert ReadInTime(trace, g.row, b, Pc(g, b));
      if b == e.agent {
        StepMovesMemory(g, e.now, e.agent, e.step);
        OwnReadInTime(trace, g.row, g'.row, e.now, b, Pc(g, b), Pc(g', b), e.step);
      } else {
        StepLeavesOthers(g, e.now, e.agent, e.step, b);
        if PastFreeze(Pc(g, b)) {
          OthersKeepDeadline(g, e.now, e.agent, e.step, b);
        }
        MadeStays(trace, e, g.row, g'.row, b, Pc(g, b));
      }
    }
  }

  lemma {:induction false} TimesAlways(now: int, queueTimeout: int, runTimeout: int, trace: seq<Event>)
    ensures var init := Init(now, queueTimeout, runTimeout);
            && Inv(Exec(init, trace)) && TimesOk(Exec(init, trace), trace)
            && Exec(init, trace).row.runTimeout == runTimeout && Exec(init, trace).row.createdAt == now
            && Exec(init, trace).row.queueTimeout == queueTimeout
    decreases |trace|
  {
    hide Next, Inv, TimesOk;
    var init := Init(now, queueTimeout, runTimeout);
    InitiallyInv(now, queueTimeout, runTimeout);
    if trace == [] {
      assert TimesOk(init, []) by { NothingRead(init); }
    } else {
      var m := |trace| - 1;
      TimesAlways(now, queueTimeout, runTimeout, trace[..m]);
      var g, e := Exec(init, trace[..m]), trace[m];
      assert trace[..m] + [e] == trace;
      StepKeepsInv(g, e.now, e.agent, e.step);
      StepKeepsTimes(g, e, trace[..m]);
      StepMovesDeadline(g, e.now, e.agent, e.step);
    }
  }

  lemma NothingRead(g: Run)
    requires g.agents == map[]
    ensures TimesOk(g, [])
  {
  }

  lemma StepSetsDeadline(g: Run, now: int, a: nat, step: Step)
    requires Inv(g)
    ensures var g' := Next(g, now, a, step);
            g'.row.deadline == g.row.deadline || (g.freezes == 0 && g'.freezes == 1 && g'.row.deadline.Some?)
    ensures Next(g, now, a, step).freezes > g.freezes ==> Next(g, now, a, step).row.deadline.Some?
  {
    assert AgentOk(g.row, g.freezes, Pc(g, a));
  }

  /** A run has a deadline exactly once it was frozen. */
  lemma {:induction false} DeadlineIffFrozen(now: int, queueTimeout: int, runTimeout: int, trace: seq<Event>)
    ensures var g := Exec(Init(now, queueTimeout, runTimeout), trace); g.row.deadline.Some? <==> g.freezes == 1
    decreases |trace|
  {
    hide Next, Inv;
    var init := Init(now, queueTimeout, runTimeout);
    InitiallyInv(now, queueTimeout, runTimeout);
    if trace != [] {
      var m := |trace| - 1;
      DeadlineIffFrozen(now, queueTimeout, runTimeout, trace[..m]);
      var g, e := Exec(init, trace[..m]), trace[m];
      InvAlways(init, trace[..m]);
      InvAlways(init, trace);
      StepSetsDeadline(g, e.now, e.agent, e.step);
      StepMovesRow(g, e.now, e.agent, e.step);
      FreezesAtMostOnce(Exec(init, trace));
      FreezesAtMostOnce(g);
    }
  }

  lemma FreezesAtMostOnce(g: Run)
    requires Inv(g)
    ensures g.freezes <= 1
  {
  }

  // ---------------------------------------------------------------- publication

  /** A step publishes exactly when it may, and leaves the status its report's quality asks for. */
  lemma PublishesIff(g: Run, now: int, a: nat, step: Step)
    requires Inv(g)
    ensures var g' := Next(g, now, a, step);
            && (g'.reports > g.reports <==> MayPublish(g.row, now, Pc(g, a), step))
            && (g'.reports > g.reports ==>
                  && g'.reports == g.reports + 1 && g'.row.status == QualityStatus(step.quality)
                  && g'.row == g.row.(status := g'.row.status, stage := AtDone, version := g.row.version + 1,
                                      leased := false, leaseUntil := None))
  {
    assert AgentOk(g.row, g.freezes, Pc(g, a));
  }

  /** Over every interleaving a report is published only within the lease, and not later than the run's time after the
      clock that its own orchestrator read when it froze the run; the quality of the report decides the status. */
  lemma PublishedInTime(now: int, queueTimeout: int, runTimeout: int, trace: seq<Event>, k: nat)
    requires k < |trace|
    requires var init := Init(now, queueTimeout, runTimeout);
             Exec(init, trace[..k + 1]).reports > Exec(init, trace[..k]).reports
    ensures var init := Init(now, queueTimeout, runTimeout);
            var before, after, e := Exec(init, trace[..k]).row, Exec(init, trace[..k + 1]).row, trace[k];
            && before.leaseUntil.Some? && e.now <= before.leaseUntil.value
            && before.deadline.Some? && e.now <= before.deadline.value
            && e.step.DoVerify? && after.status == QualityStatus(e.step.quality)
            && exists m: nat :: m < k && trace[m].agent == e.agent && trace[m].step == DoFreezeRead
                                && before.deadline.value == trace[m].now + runTimeout
  {
    hide Next, Inv, ReadInTime, Pc;
    var init := Init(now, queueTimeout, runTimeout);
    TimesAlways(now, queueTimeout, runTimeout, trace[..k]);
    var g, e := Exec(init, trace[..k]), trace[k];
    assert trace[..k + 1][..k] == trace[..k] && trace[..k + 1][k] == e;
    PublishesIff(g, e.now, e.agent, e.step);
    assert ReadInTime(trace[..k], g.row, e.agent, Pc(g, e.agent));
    var m := FreezeOf(trace[..k], g.row, e.agent, Pc(g, e.agent));
    assert trace[..k][m] == trace[m];
  }

  lemma FreezeOf(trace: seq<Event>, row: Row, a: nat, pc: Agent) returns (m: nat)
    requires ReadInTime(trace, row, a, pc) && PastFreeze(pc)
    ensures row.deadline.Some? && Made(trace, m, a, DoFreezeRead, row.deadline.value - row.runTimeout)
  {
    m :| Made(trace, m, a, DoFreezeRead, row.deadline.value - row.runTimeout);
  }

  /** A run fails in the queue only if somebody read the clock at or past its queue timeout before. */
  lemma TimedOutLate(now: int, queueTimeout: int, runTimeout: int, trace: seq<Event>, k: nat)
    requires k < |trace| && trace[k].step == DoTimeOut
    requires var init := Init(now, queueTimeout, runTimeout);
             Exec(init, trace[..k + 1]).row.status != Exec(init, trace[..k]).row.status
    ensures Exec(Init(now, queueTimeout, runTimeout), trace[..k]).row.status == Queued
    ensures exists m: nat :: m < k && trace[m].agent == trace[k].agent && trace[m].step == DoTimeOutRead
                             && now + queueTimeout <= trace[m].now
  {
    hide Next, Inv, ReadInTime, Pc;
    var init := Init(now, queueTimeout, runTimeout);
    TimesAlways(now, queueTimeout, runTimeout, trace[..k]);
    var g, e := Exec(init, trace[..k]), trace[k];
    assert trace[..k + 1][..k] == trace[..k] && trace[..k + 1][k] == e;
    StepMovesStatus(g, e.now, e.agent, e.step);
    assert ReadInTime(trace[..k], g.row, e.agent, Pc(g, e.agent));
    var m := LateReadOf(trace[..k], g.row, e.agent, Pc(g, e.agent));
    assert trace[..k][m] == trace[m];
  }

  lemma LateReadOf(trace: seq<Event>, row: Row, a: nat, pc: Agent) returns (m: nat)
    requires ReadInTime(trace, row, a, pc) && pc.TimeOutSeen?
    ensures m < |trace| && trace[m].agent == a && trace[m].step == DoTimeOutRead
            && row.createdAt + row.queueTimeout <= trace[m].now
  {
    var k: nat, now: int :| LateRead(trace, row, k, a, now);
    m := k;
  }
}
