/** Safety of one research run over every interleaving of its agents. */
module ResearchRunSafety {
  import opened ResearchRun

  // ---------------------------------------------------------------- the invariant

  predicate Open(s: Status) {
    s == Researching || s == Verifying
  }

  /** What an agent's memory says about the row now: a fence or a seen version that is still current
      pins the status, because every status change raises the version. */
  ghost predicate AgentOk(row: Row, freezes: nat, pc: Agent) {
    match pc
    case FreezeSeen(seen, _) => seen <= row.version
    case Frozen(fence) =>
      freezes == 1 && 1 < fence <= row.version && (fence == row.version ==> row.status == Researching)
    case SynthesizeSeen(fence, _) =>
      freezes == 1 && 1 < fence <= row.version && (fence == row.version ==> row.status == Researching)
    case Synthesized(fence, _) =>
      freezes == 1 && 1 < fence <= row.version && (fence == row.version ==> row.status == Verifying)
    case VerifySeen(fence, _, _, _) =>
      freezes == 1 && 1 < fence <= row.version && (fence == row.version ==> row.status == Verifying)
    case ReapSeen(seen) => 1 <= seen <= row.version && (seen == row.version ==> Open(row.status))
    case _ => true
  }

  ghost predicate Inv(g: Run) {
    && g.row.version >= 1
    && g.freezes <= 1 && (g.row.status == Queued ==> g.freezes == 0)
    && g.reports <= 1 && (g.reports == 1 ==> g.row.status in {Completed, Incomplete, Failed})
    && forall a: nat :: AgentOk(g.row, g.freezes, Pc(g, a))
  }

  /** An orchestrator that passed freeze. */
  predicate PastFreeze(pc: Agent) {
    pc.Frozen? || pc.SynthesizeSeen? || pc.Synthesized? || pc.VerifySeen?
  }

  function Fence(pc: Agent): int
    requires PastFreeze(pc)
  {
    match pc
    case Frozen(f) => f
    case SynthesizeSeen(f, _) => f
    case Synthesized(f, _) => f
    case VerifySeen(f, _, _, _) => f
  }

  // ---------------------------------------------------------------- one step

  /** How one step may change the row: the version never falls, and rises with every change of status. */
  ghost predicate RowMoves(r: Row, r': Row) {
    && r.version <= r'.version
    && (r.status != r'.status ==> r.version < r'.version)
    && (r.deleted ==> r'.deleted)
    && (r'.status == Queued ==> r.status == Queued)
  }

  lemma StepMovesRow(g: Run, now: int, a: nat, step: Step)
    ensures RowMoves(g.row, Next(g, now, a, step).row)
    ensures g.reports <= Next(g, now, a, step).reports && g.freezes <= Next(g, now, a, step).freezes
  {
  }

  lemma StepLeavesOthers(g: Run, now: int, a: nat, step: Step, b: nat)
    requires b != a
    ensures Pc(Next(g, now, a, step), b) == Pc(g, b)
  {
  }

  /** The memory of an agent stays right when the row moves on. */
  lemma MemoryStaysOk(row: Row, row': Row, freezes: nat, freezes': nat, pc: Agent)
    requires AgentOk(row, freezes, pc) && RowMoves(row, row') && freezes <= freezes' <= 1
    ensures AgentOk(row', freezes', pc)
  {
  }

  lemma StepKeepsGlobal(g: Run, now: int, a: nat, step: Step)
    requires Inv(g)
    ensures var g' := Next(g, now, a, step);
            && g'.row.version >= 1
            && g'.freezes <= 1 && (g'.row.status == Queued ==> g'.freezes == 0)
            && g'.reports <= 1 && (g'.reports == 1 ==> g'.row.status in {Completed, Incomplete, Failed})
  {
    assert AgentOk(g.row, g.freezes, Pc(g, a));
  }

  lemma StepKeepsOwnMemory(g: Run, now: int, a: nat, step: Step)
    requires Inv(g)
    ensures var g' := Next(g, now, a, step); AgentOk(g'.row, g'.freezes, Pc(g', a))
  {
    assert AgentOk(g.row, g.freezes, Pc(g, a));
  }

  lemma StepKeepsInv(g: Run, now: int, a: nat, step: Step)
    requires Inv(g)
    ensures Inv(Next(g, now, a, step))
  {
    hide Next, AgentOk, RowMoves, Pc;
    var g' := Next(g, now, a, step);
    StepMovesRow(g, now, a, step);
    StepKeepsGlobal(g, now, a, step);
    StepKeepsOwnMemory(g, now, a, step);
    forall b: nat ensures AgentOk(g'.row, g'.freezes, Pc(g', b)) {
      if b != a {
        StepLeavesOthers(g, now, a, step, b);
        MemoryStaysOk(g.row, g'.row, g.freezes, g'.freezes, Pc(g, b));
      }
    }
  }

  /** A terminal status never changes again, although FailOrIncomplete does not exclude `Incomplete`
      and Reap does not look at the status. */
  lemma TerminalStays(g: Run, now: int, a: nat, step: Step)
    requires Inv(g) && Terminal(g.row.status)
    ensures Next(g, now, a, step).row.status == g.row.status
  {
    assert AgentOk(g.row, g.freezes, Pc(g, a));
  }

  // ---------------------------------------------------------------- whole runs

  /** Two traces one after the other. */
  lemma {:induction false} ExecAppend(g: Run, t: seq<Event>, u: seq<Event>)
    ensures Exec(g, t + u) == Exec(Exec(g, t), u)
    decreases |u|
  {
    hide Next;
    if u == [] {
      assert t + u == t;
    } else {
      var m := |u| - 1;
      ExecAppend(g, t, u[..m]);
      assert (t + u)[..|t| + m] == t + u[..m];
      assert (t + u)[|t| + m] == u[m];
    }
  }

  lemma {:induction false} InvAlways(g: Run, trace: seq<Event>)
    requires Inv(g)
    ensures Inv(Exec(g, trace))
    decreases |trace|
  {
    hide Next, Inv;
    if trace != [] {
      var m := |trace| - 1;
      InvAlways(g, trace[..m]);
      StepKeepsInv(Exec(g, trace[..m]), trace[m].now, trace[m].agent, trace[m].step);
    }
  }

  lemma InitiallyInv(now: int, queueTimeout: int, runTimeout: int)
    ensures Inv(Init(now, queueTimeout, runTimeout))
  {
  }

  /** Over every stretch of a run the version never falls, rises if the status differs, and nothing is undone. */
  lemma {:induction false} RunMovesForward(g: Run, trace: seq<Event>)
    ensures RowMoves(g.row, Exec(g, trace).row)
    ensures g.reports <= Exec(g, trace).reports && g.freezes <= Exec(g, trace).freezes
    decreases |trace|
  {
    hide Next;
    if trace != [] {
      var m := |trace| - 1;
      RunMovesForward(g, trace[..m]);
      StepMovesRow(Exec(g, trace[..m]), trace[m].now, trace[m].agent, trace[m].step);
    }
  }

  /** Once terminal, terminal with the same status for the rest of the run. */
  lemma {:induction false} TerminalForever(g: Run, trace: seq<Event>)
    requires Inv(g) && Terminal(g.row.status)
    ensures Exec(g, trace).row.status == g.row.status
    decreases |trace|
  {
    hide Next, Inv;
    if trace != [] {
      var m := |trace| - 1;
      TerminalForever(g, trace[..m]);
      InvAlways(g, trace[..m]);
      TerminalStays(Exec(g, trace[..m]), trace[m].now, trace[m].agent, trace[m].step);
    }
  }

  /** A fence is never ahead of the version, and current only while the run is researching or verifying. */
  lemma FencesAreCurrentOnlyWhileOpen(now: int, queueTimeout: int, runTimeout: int, trace: seq<Event>, a: nat)
    ensures var g := Exec(Init(now, queueTimeout, runTimeout), trace);
            var pc := Pc(g, a);
            PastFreeze(pc) ==> Fence(pc) <= g.row.version && (Fence(pc) == g.row.version ==> Open(g.row.status))
  {
    hide Next;
    var g := Exec(Init(now, queueTimeout, runTimeout), trace);
    InitiallyInv(now, queueTimeout, runTimeout);
    InvAlways(Init(now, queueTimeout, runTimeout), trace);
    assert AgentOk(g.row, g.freezes, Pc(g, a));
  }

  // ---------------------------------------------------------------- one orchestrator, one report

  ghost predicate OneOrchestrator(g: Run) {
    forall a: nat, b: nat :: PastFreeze(Pc(g, a)) && PastFreeze(Pc(g, b)) ==> a == b
  }

  /** An agent comes past freeze only from a queued row, when nobody else is past it. */
  lemma StepPassesFreeze(g: Run, now: int, a: nat, step: Step)
    requires Inv(g)
    ensures var g' := Next(g, now, a, step);
            PastFreeze(Pc(g', a)) ==> PastFreeze(Pc(g, a)) || g.freezes == 0
  {
    assert AgentOk(g.row, g.freezes, Pc(g, a));
  }

  lemma StepKeepsOneOrchestrator(g: Run, now: int, a: nat, step: Step)
    requires Inv(g) && OneOrchestrator(g)
    ensures OneOrchestrator(Next(g, now, a, step))
  {
    hide Next, Pc;
    var g' := Next(g, now, a, step);
    StepPassesFreeze(g, now, a, step);
    forall b: nat, c: nat | PastFreeze(Pc(g', b)) && PastFreeze(Pc(g', c)) ensures b == c {
      if b != a {
        StepLeavesOthers(g, now, a, step, b);
        assert AgentOk(g.row, g.freezes, Pc(g, b));
      }
      if c != a {
        StepLeavesOthers(g, now, a, step, c);
        assert AgentOk(g.row, g.freezes, Pc(g, c));
      }
    }
  }

  lemma NoAgentInitially(now: int, queueTimeout: int, runTimeout: int)
    ensures OneOrchestrator(Init(now, queueTimeout, runTimeout))
  {
  }

  /** The claim of Tick is not exclusive, yet in every reachable state at most one orchestrator is past
      freeze, at most one ever was, and at most one report exists. */
  lemma {:induction false} AtMostOneOrchestratorAndReport(now: int, queueTimeout: int, runTimeout: int,
          trace: seq<Event>)
    ensures var g := Exec(Init(now, queueTimeout, runTimeout), trace);
            Inv(g) && OneOrchestrator(g) && g.freezes <= 1 && g.reports <= 1
    decreases |trace|
  {
    var init := Init(now, queueTimeout, runTimeout);
    hide Next, Pc, AgentOk;
    InitiallyInv(now, queueTimeout, runTimeout);
    InvAlways(init, trace);
    if trace == [] {
      NoAgentInitially(now, queueTimeout, runTimeout);
    } else {
      var m := |trace| - 1;
      AtMostOneOrchestratorAndReport(now, queueTimeout, runTimeout, trace[..m]);
      StepKeepsOneOrchestrator(Exec(init, trace[..m]), trace[m].now, trace[m].agent, trace[m].step);
    }
  }

  // ---------------------------------------------------------------- cancellation

  /** A canceling run stays so, with the same lease, until it is canceled; it has no report. */
  lemma StepKeepsCanceling(g: Run, now: int, a: nat, step: Step)
    requires Inv(g) && g.row.status == Canceling
    ensures var row' := Next(g, now, a, step).row;
            row'.status == Canceled || (row'.status == Canceling && row'.leaseUntil == g.row.leaseUntil)
  {
    assert AgentOk(g.row, g.freezes, Pc(g, a));
  }

  lemma {:induction false} CancelingEndsCanceled(g: Run, trace: seq<Event>)
    requires Inv(g) && (g.row.status == Canceling || g.row.status == Canceled)
    ensures var g' := Exec(g, trace);
            && (g'.row.status == Canceled || (g'.row.status == Canceling && g'.row.leaseUntil == g.row.leaseUntil))
            && g'.reports == 0
    decreases |trace|
  {
    hide Next, AgentOk, Pc;
    InvAlways(g, trace);
    if trace != [] {
      var m := |trace| - 1;
      var mid := Exec(g, trace[..m]);
      CancelingEndsCanceled(g, trace[..m]);
      InvAlways(g, trace[..m]);
      if mid.row.status == Canceling {
        StepKeepsCanceling(mid, trace[m].now, trace[m].agent, trace[m].step);
      } else {
        TerminalStays(mid, trace[m].now, trace[m].agent, trace[m].step);
      }
    }
  }

  /** A run that is canceling or canceled at any point of a trace never had and never gets a report. */
  lemma CanceledRunsHaveNoReport(now: int, queueTimeout: int, runTimeout: int, before: seq<Event>, after: seq<Event>)
    requires IsCanceling(Exec(Init(now, queueTimeout, runTimeout), before).row.status)
    ensures Exec(Init(now, queueTimeout, runTimeout), before).reports == 0
    ensures Exec(Init(now, queueTimeout, runTimeout), before + after).reports == 0
    ensures IsCanceling(Exec(Init(now, queueTimeout, runTimeout), before + after).row.status)
  {
    hide Next;
    var init := Init(now, queueTimeout, runTimeout);
    InitiallyInv(now, queueTimeout, runTimeout);
    InvAlways(init, before);
    ExecAppend(init, before, after);
    CancelingEndsCanceled(Exec(init, before), []);
    CancelingEndsCanceled(Exec(init, before), after);
  }

  predicate IsCanceling(s: Status) {
    s == Canceling || s == Canceled
  }

  lemma {:induction false} OthersLeaveAgent(g: Run, trace: seq<Event>, a: nat)
    requires forall k :: 0 <= k < |trace| ==> trace[k].agent != a
    ensures Pc(Exec(g, trace), a) == Pc(g, a)
    decreases |trace|
  {
    hide Next, Pc;
    if trace != [] {
      var m := |trace| - 1;
      OthersLeaveAgent(g, trace[..m], a);
      StepLeavesOthers(Exec(g, trace[..m]), trace[m].now, trace[m].agent, trace[m].step, a);
    }
  }

  /** One pass of convergeCancels by agent `a` with the clock at or past the lease makes the run canceled,
      whether or not the executor acknowledges, and whatever the other agents do meanwhile. */
  lemma CancelConverges(g: Run, a: nat, acked: bool, t0: int, t1: int, t2: int, others1: seq<Event>,
          others2: seq<Event>)
    requires Inv(g) && g.row.status == Canceling && Pc(g, a) == Idle
    requires LeaseExpired(g.row.leaseUntil, t1)
    requires forall k :: 0 <= k < |others1| ==> others1[k].agent != a
    requires forall k :: 0 <= k < |others2| ==> others2[k].agent != a
    ensures var seen := Next(g, t0, a, DoConvergeRead);
            var loaded := Next(Exec(seen, others1), t1, a, DoFinalizeRead(acked));
            Next(Exec(loaded, others2), t2, a, DoFinalize).row.status == Canceled
  {
    hide Next, Pc, Inv;
    var seen := Next(g, t0, a, DoConvergeRead);
    ConvergeRead(g, a, t0);
    var before := Exec(seen, others1);
    StepKeepsInv(g, t0, a, DoConvergeRead);
    OthersLeaveAgent(seen, others1, a);
    InvAlways(seen, others1);
    CancelingEndsCanceled(seen, others1);
    var loaded := Next(before, t1, a, DoFinalizeRead(acked));
    FinalizeRead(before, a, acked, t1);
    var after := Exec(loaded, others2);
    StepKeepsInv(before, t1, a, DoFinalizeRead(acked));
    OthersLeaveAgent(loaded, others2, a);
    InvAlways(loaded, others2);
    CancelingEndsCanceled(loaded, others2);
    if before.row.status == Canceled {
      TerminalForever(loaded, others2);
    }
    FinalizeCancels(after, a, t2);
  }

  lemma ConvergeRead(g: Run, a: nat, now: int)
    requires g.row.status == Canceling && Pc(g, a) == Idle
    ensures var g' := Next(g, now, a, DoConvergeRead); Pc(g', a) == Finalizing(false) && g'.row == g.row
  {
  }

  lemma FinalizeRead(g: Run, a: nat, acked: bool, now: int)
    requires Pc(g, a) == Finalizing(false)
    ensures var g' := Next(g, now, a, DoFinalizeRead(acked));
            && g'.row == g.row
            && (LeaseExpired(g.row.leaseUntil, now) ==> Pc(g', a).FinalizeSeen?)
  {
  }

  lemma FinalizeCancels(g: Run, a: nat, now: int)
    requires (Pc(g, a).FinalizeSeen? && g.row.status == Canceling) || (Inv(g) && g.row.status == Canceled)
    ensures Next(g, now, a, DoFinalize).row.status == Canceled
  {
  }
}
