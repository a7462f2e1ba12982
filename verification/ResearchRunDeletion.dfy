/** Deleting a run while it is being canceled: when a finaliser completes the deletion, and when it is lost for good. */
module ResearchRunDeletion {
  import opened Common
  import opened ResearchRun
  import opened ResearchRunSafety

  // ---------------------------------------------------------------- what one finaliser does

  /** A finaliser that nobody interrupts leaves the run deleted exactly if it saw the deletion
      or itself asked for it. */
  lemma FinaliserDeletesIff(g: Run, a: nat, deleting: bool, stage: Stage, now: int)
    requires Pc(g, a) == FinalizeSeen(deleting, stage) && g.row.status == Canceling && !g.row.deleted
    ensures var g1 := Next(g, now, a, DoFinalize);
            var g2 := Next(g1, now, a, DoFinalizeMark);
            var g3 := Next(g2, now, a, DoDeleteLook);
            var g4 := Next(g3, now, a, DoDeleteMark);
            g4.row.deleted <==> stage == AtDeleting || deleting
  {
    hide Next, Pc;
    FinaliseStep(g, a, deleting, stage, now);
    var g1 := Next(g, now, a, DoFinalize);
    MarkStep(g1, a, deleting, stage == AtDeleting, now);
    var g2 := Next(g1, now, a, DoFinalizeMark);
    LookSteps(g2, a, deleting, now);
  }

  lemma FinaliseStep(g: Run, a: nat, deleting: bool, stage: Stage, now: int)
    requires Pc(g, a) == FinalizeSeen(deleting, stage) && g.row.status == Canceling
    ensures var g2 := Next(g, now, a, DoFinalize);
            && g2.row.status == Canceled && g2.row.deleted == g.row.deleted
            && Pc(g2, a) == if stage == AtDeleting then FinalizeMarks(deleting) else AfterFinalize(deleting)
  {
  }

  lemma MarkStep(g: Run, a: nat, deleting: bool, marks: bool, now: int)
    requires Pc(g, a) == (if marks then FinalizeMarks(deleting) else AfterFinalize(deleting)) && !g.row.deleted
    ensures var g2 := Next(g, now, a, DoFinalizeMark);
            g2.row.status == g.row.status && g2.row.deleted == marks && Pc(g2, a) == AfterFinalize(deleting)
  {
  }

  lemma LookSteps(g: Run, a: nat, deleting: bool, now: int)
    requires Pc(g, a) == AfterFinalize(deleting) && g.row.status == Canceled
    ensures Next(Next(g, now, a, DoDeleteLook), now, a, DoDeleteMark).row.deleted <==> g.row.deleted || deleting
  {
    var g2 := Next(g, now, a, DoDeleteLook);
    assert g2.row == g.row && Pc(g2, a) == if deleting && !g.row.deleted then DeleteMarks else Idle;
  }

  /** The agent will mark a canceled run deleted if it goes on. */
  predicate WillDelete(pc: Agent) {
    match pc
    case Finalizing(deleting) => deleting
    case FinalizeSeen(deleting, _) => deleting
    case FinalizeMarks(_) => true
    case DeleteLooks => true
    case DeleteMarks => true
    case _ => false
  }

  function OwnEvent(now: int, a: nat, k: nat): Event
    requires k < 5
  {
    Event(now, a, if k == 0 then DoFinalizeRead(true) else if k == 1 then DoFinalize else if k == 2 then DoFinalizeMark
                  else if k == 3 then DoDeleteLook else DoDeleteMark)
  }

  /** The remaining steps of a finaliser. */
  function OwnEvents(now: int, a: nat): seq<Event> {
    [OwnEvent(now, a, 0), OwnEvent(now, a, 1), OwnEvent(now, a, 2), OwnEvent(now, a, 3), OwnEvent(now, a, 4)]
  }

  /** How far an agent that will delete is, as the number of its next step. */
  predicate Reached(pc: Agent, k: nat) {
    match pc
    case Finalizing(deleting) => deleting && k == 0
    case FinalizeSeen(deleting, _) => deleting && k <= 1
    case FinalizeMarks(_) => k <= 2
    case DeleteLooks => k <= 3
    case DeleteMarks => k <= 4
    case _ => false
  }

  /** Its step `k` brings it to the next, or deletes the run. */
  lemma OwnStep(g: Run, now: int, a: nat, k: nat)
    requires k < 5 && g.row.status == Canceled && !g.row.deleted && Reached(Pc(g, a), k)
    ensures var e := OwnEvent(now, a, k);
            var g2 := Next(g, e.now, e.agent, e.step);
            g2.row.deleted || (k < 4 && g2.row == g.row && Reached(Pc(g2, a), k + 1))
  {
  }

  lemma {:induction false} OwnSteps(g: Run, now: int, a: nat, k: nat)
    requires k < 5 && g.row.status == Canceled && !g.row.deleted && Reached(Pc(g, a), k)
    ensures Exec(g, OwnEvents(now, a)[k..]).row.deleted
    decreases 5 - k
  {
    hide Next, Pc, Reached;
    var e, rest := OwnEvent(now, a, k), OwnEvents(now, a)[k + 1..];
    OwnStep(g, now, a, k);
    var g2 := Next(g, e.now, e.agent, e.step);
    assert OwnEvents(now, a)[k..] == [e] + rest;
    ExecAppend(g, [e], rest);
    assert Exec(g, [e]) == g2 by {
      assert [e][..0] == [];
    }
    RunMovesForward(g2, rest);
    if !g2.row.deleted {
      OwnSteps(g2, now, a, k + 1);
    }
  }

  // ---------------------------------------------------------------- lost for good

  /** No deletion is asked for anew, by a user or by the retention sweep. */
  predicate AsksDeletion(step: Step) {
    step.DoDelete? || step.DoPurge?
  }

  ghost predicate NobodyDeletes(g: Run) {
    forall a: nat :: !WillDelete(Pc(g, a))
  }

  /** A canceled run stays undeleted over a step if no agent is in deletion and none is asked
      for; and nobody gets there. */
  lemma StepKeepsUndeleted(g: Run, now: int, a: nat, step: Step)
    requires g.row.status == Canceled && !g.row.deleted && !WillDelete(Pc(g, a)) && !AsksDeletion(step)
    ensures var g2 := Next(g, now, a, step); !g2.row.deleted && !WillDelete(Pc(g2, a))
  {
  }

  lemma {:induction false} StaysUndeleted(g: Run, trace: seq<Event>)
    requires Inv(g) && g.row.status == Canceled && !g.row.deleted && NobodyDeletes(g)
    requires forall k :: 0 <= k < |trace| ==> !AsksDeletion(trace[k].step)
    ensures !Exec(g, trace).row.deleted && NobodyDeletes(Exec(g, trace))
    decreases |trace|
  {
    hide Next, Pc, Inv, WillDelete;
    if trace != [] {
      var m := |trace| - 1;
      StaysUndeleted(g, trace[..m]);
      TerminalForever(g, trace[..m]);
      var mid, e := Exec(g, trace[..m]), trace[m];
      StepKeepsUndeleted(mid, e.now, e.agent, e.step);
      forall b: nat ensures !WillDelete(Pc(Exec(g, trace), b)) {
        if b != e.agent {
          StepLeavesOthers(mid, e.now, e.agent, e.step, b);
        }
      }
    }
  }

  /** The run stays undeleted whatever happens, unless deletion is asked for again. */
  ghost predicate LostForGood(g: Run) {
    forall trace: seq<Event> :: (forall k :: 0 <= k < |trace| ==> !AsksDeletion(trace[k].step)) ==>
      !Exec(g, trace).row.deleted
  }

  /** A deletion of a canceled, undeleted run is lost for good exactly when no agent is left that will carry it out. */
  lemma LostForGoodIff(g: Run)
    requires Inv(g) && g.row.status == Canceled && !g.row.deleted
    ensures LostForGood(g) <==> NobodyDeletes(g)
  {
    hide Inv, Pc, Exec, WillDelete;
    if NobodyDeletes(g) {
      forall trace: seq<Event> | forall k :: 0 <= k < |trace| ==> !AsksDeletion(trace[k].step)
        ensures !Exec(g, trace).row.deleted
      {
        StaysUndeleted(g, trace);
      }
    } else {
      var a: nat :| WillDelete(Pc(g, a));
      var k := NextStep(Pc(g, a));
      OwnSteps(g, 0, a, k);
      var rest := OwnEvents(0, a)[k..];
      assert forall j :: 0 <= j < |rest| ==> !AsksDeletion(rest[j].step);
    }
  }

  lemma NextStep(pc: Agent) returns (k: nat)
    requires WillDelete(pc)
    ensures k < 5 && Reached(pc, k)
  {
    match pc
    case Finalizing(_) => k := 0;
    case FinalizeSeen(_, _) => k := 1;
    case FinalizeMarks(_) => k := 2;
    case DeleteLooks => k := 3;
    case DeleteMarks => k := 4;
  }

  // ---------------------------------------------------------------- completing under interleaving

  /** The deletion is done, or the agent is at step `k` of it with the run canceled. */
  ghost predicate Deleting(g: Run, a: nat, k: nat) {
    Inv(g) && (g.row.deleted || (g.row.status == Canceled && Reached(Pc(g, a), k)))
  }

  lemma OthersKeepDeleting(g: Run, a: nat, k: nat, others: seq<Event>)
    requires Deleting(g, a, k) && forall j :: 0 <= j < |others| ==> others[j].agent != a
    ensures Deleting(Exec(g, others), a, k)
  {
    hide Next, Pc, Inv, Reached;
    InvAlways(g, others);
    RunMovesForward(g, others);
    OthersLeaveAgent(g, others, a);
    if !g.row.deleted {
      TerminalForever(g, others);
    }
  }

  lemma OwnStepDeletes(g: Run, now: int, a: nat, k: nat)
    requires k < 5 && Deleting(g, a, k)
    ensures var e := OwnEvent(now, a, k);
            var g2 := Next(g, e.now, e.agent, e.step);
            if k < 4 then Deleting(g2, a, k + 1) else g2.row.deleted
  {
    hide Next, Pc, Inv, Reached;
    var e := OwnEvent(now, a, k);
    StepKeepsInv(g, e.now, e.agent, e.step);
    StepMovesRow(g, e.now, e.agent, e.step);
    if !g.row.deleted {
      OwnStep(g, now, a, k);
    }
  }

  /** A finaliser that saw the deletion, or that runs for the request to delete, completes it whatever the other agents
      do between its steps. */
  lemma DeletionCompletes(g: Run, a: nat, deleting: bool, stage: Stage, now: int,
                          others1: seq<Event>, others2: seq<Event>, others3: seq<Event>)
    requires Inv(g) && Pc(g, a) == FinalizeSeen(deleting, stage) && g.row.status == Canceling
             && (stage == AtDeleting || deleting)
    requires forall j :: 0 <= j < |others1| ==> others1[j].agent != a
    requires forall j :: 0 <= j < |others2| ==> others2[j].agent != a
    requires forall j :: 0 <= j < |others3| ==> others3[j].agent != a
    ensures var g1 := Exec(Next(g, now, a, DoFinalize), others1);
            var g2 := Exec(Next(g1, now, a, DoFinalizeMark), others2);
            var g3 := Exec(Next(g2, now, a, DoDeleteLook), others3);
            Next(g3, now, a, DoDeleteMark).row.deleted
  {
    hide Next, Pc, Inv, Reached;
    StepKeepsInv(g, now, a, DoFinalize);
    FinaliseStep(g, a, deleting, stage, now);
    assert Reached(Pc(Next(g, now, a, DoFinalize), a), 2) by {
      StartsDeletion(Pc(Next(g, now, a, DoFinalize), a), deleting, stage);
    }
    var g0 := Next(g, now, a, DoFinalize);
    OthersKeepDeleting(g0, a, 2, others1);
    var g1 := Exec(g0, others1);
    OwnStepDeletes(g1, now, a, 2);
    OthersKeepDeleting(Next(g1, now, a, DoFinalizeMark), a, 3, others2);
    var g2 := Exec(Next(g1, now, a, DoFinalizeMark), others2);
    OwnStepDeletes(g2, now, a, 3);
    OthersKeepDeleting(Next(g2, now, a, DoDeleteLook), a, 4, others3);
    OwnStepDeletes(Exec(Next(g2, now, a, DoDeleteLook), others3), now, a, 4);
  }

  lemma StartsDeletion(pc: Agent, deleting: bool, stage: Stage)
    requires pc == (if stage == AtDeleting then FinalizeMarks(deleting) else AfterFinalize(deleting))
             && (stage == AtDeleting || deleting)
    ensures Reached(pc, 2)
  {
  }

  // ---------------------------------------------------------------- a deletion that is lost

  /** The run is queued but claimed until 15, and no agent is at work. */
  ghost predicate ClaimedOnly(g: Run) {
    && g.row == Created(0, 30, 180).(leased := true, leaseUntil := Some(15))
    && forall a: nat :: Pc(g, a) == Idle
  }

  lemma ClaimThenCrash(g: Run)
    requires g == Init(0, 30, 180)
    ensures ClaimedOnly(Next(Next(Next(g, 0, 0, DoClaimRead), 0, 0, DoClaim), 0, 0, Crash))
  {
  }

  /** Canceling; agent 1 will finalize with the stage it read before any deletion. */
  ghost predicate CancelAcknowledged(g: Run) {
    && g.row.status == Canceling && g.row.leaseUntil == Some(15) && !g.row.deleted
    && Pc(g, 1) == FinalizeSeen(false, AtCanceling)
    && forall a: nat :: a != 1 ==> Pc(g, a) == Idle
  }

  lemma CancelWithAcknowledgement(g: Run)
    requires ClaimedOnly(g)
    ensures CancelAcknowledged(Next(Next(g, 1, 1, DoCancel), 2, 1, DoFinalizeRead(true)))
  {
    var g1 := Next(g, 1, 1, DoCancel);
    assert Pc(g, 1) == Idle;
    forall a: nat | a != 1 ensures Pc(Next(g1, 2, 1, DoFinalizeRead(true)), a) == Idle {
      StepLeavesOthers(g, 1, 1, DoCancel, a);
      StepLeavesOthers(g1, 2, 1, DoFinalizeRead(true), a);
    }
  }

  lemma DeleterGivesUp(g: Run)
    requires Pc(g, 2) == Finalizing(true) && g.row.status == Canceling && g.row.leaseUntil == Some(15)
    ensures var g' := Next(Next(g, 3, 2, DoFinalizeRead(false)), 3, 2, DoDeleteLook);
            g'.row == g.row && Pc(g', 2) == Idle
  {
  }

  lemma DeleterStarts(g: Run)
    requires CancelAcknowledged(g)
    ensures var g' := Next(g, 3, 2, DoDelete);
            && Pc(g', 2) == Finalizing(true)
            && g'.row.status == Canceling && g'.row.leaseUntil == Some(15) && !g'.row.deleted
  {
    assert Pc(g, 2) == Idle;
  }

  lemma DeleteWithoutAcknowledgement(g: Run)
    requires CancelAcknowledged(g)
    ensures CancelAcknowledged(Next(Next(Next(g, 3, 2, DoDelete), 3, 2, DoFinalizeRead(false)), 3, 2, DoDeleteLook))
  {
    hide Next, Pc;
    DeleterStarts(g);
    DeleterGivesUp(Next(g, 3, 2, DoDelete));
    DeleterLeavesOthers(g);
  }

  lemma DeleterLeavesOthers(g: Run)
    ensures forall a: nat :: a != 2 ==>
            Pc(Next(Next(Next(g, 3, 2, DoDelete), 3, 2, DoFinalizeRead(false)), 3, 2, DoDeleteLook), a) == Pc(g, a)
  {
    hide Next, Pc;
    var g1 := Next(g, 3, 2, DoDelete);
    var g2 := Next(g1, 3, 2, DoFinalizeRead(false));
    forall a: nat | a != 2 ensures Pc(Next(g2, 3, 2, DoDeleteLook), a) == Pc(g, a) {
      StepLeavesOthers(g, 3, 2, DoDelete, a);
      StepLeavesOthers(g1, 3, 2, DoFinalizeRead(false), a);
      StepLeavesOthers(g2, 3, 2, DoDeleteLook, a);
    }
  }

  lemma FinalizeForgetsDeletion(g: Run)
    requires CancelAcknowledged(g)
    ensures var g' := Next(g, 4, 1, DoFinalize);
            g'.row.status == Canceled && !g'.row.deleted && forall a: nat :: Pc(g', a) == Idle
  {
    forall a: nat | a != 1 ensures Pc(Next(g, 4, 1, DoFinalize), a) == Idle {
      StepLeavesOthers(g, 4, 1, DoFinalize, a);
    }
  }

  /** A deletion can be lost: agent 1 cancels and reads the row with the executor's acknowledgement; agent 2
      requests deletion but gets no acknowledgement before the lease ends and leaves the rest to others;
      agent 1 then finalizes with the stage it read before. The run ends canceled, all agents idle, not
      deleted, and stays so unless deletion is asked for again. */
  lemma DeletionCanBeLost()
    ensures var trace := [
              Event(0, 0, DoClaimRead), Event(0, 0, DoClaim), Event(0, 0, Crash),
              Event(1, 1, DoCancel), Event(2, 1, DoFinalizeRead(true)),
              Event(3, 2, DoDelete), Event(3, 2, DoFinalizeRead(false)), Event(3, 2, DoDeleteLook),
              Event(4, 1, DoFinalize)];
            var g := Exec(Init(0, 30, 180), trace);
            && g.row.status == Canceled && !g.row.deleted
            && (forall a: nat :: Pc(g, a) == Idle)
            && LostForGood(g)
  {
    hide Next, Pc, Init, LostForGood;
    var t1 := [Event(0, 0, DoClaimRead), Event(0, 0, DoClaim), Event(0, 0, Crash)];
    var t2 := [Event(1, 1, DoCancel), Event(2, 1, DoFinalizeRead(true))];
    var t3 := [Event(3, 2, DoDelete), Event(3, 2, DoFinalizeRead(false)), Event(3, 2, DoDeleteLook)];
    var t4 := [Event(4, 1, DoFinalize)];
    var g0 := Init(0, 30, 180);
    ExecThree(g0, t1[0], t1[1], t1[2]);
    ClaimThenCrash(g0);
    var g1 := Exec(g0, t1);
    ExecTwo(g1, t2[0], t2[1]);
    CancelWithAcknowledgement(g1);
    var g2 := Exec(g1, t2);
    ExecThree(g2, t3[0], t3[1], t3[2]);
    DeleteWithoutAcknowledgement(g2);
    var g3 := Exec(g2, t3);
    assert t4[..0] == [];
    FinalizeForgetsDeletion(g3);
    ExecAppend(g0, t1, t2);
    ExecAppend(g0, t1 + t2, t3);
    ExecAppend(g0, t1 + t2 + t3, t4);
    var g4 := Exec(g3, t4);
    InitiallyInv(0, 30, 180);
    InvAlways(g0, t1 + t2 + t3 + t4);
    LostForGoodIff(g4);
    assert t1 + t2 + t3 + t4 == [
        Event(0, 0, DoClaimRead), Event(0, 0, DoClaim), Event(0, 0, Crash),
        Event(1, 1, DoCancel), Event(2, 1, DoFinalizeRead(true)),
        Event(3, 2, DoDelete), Event(3, 2, DoFinalizeRead(false)), Event(3, 2, DoDeleteLook),
        Event(4, 1, DoFinalize)];
  }

  lemma ExecTwo(g: Run, e1: Event, e2: Event)
    ensures Exec(g, [e1, e2]) == Next(Next(g, e1.now, e1.agent, e1.step), e2.now, e2.agent, e2.step)
  {
    hide Next;
    assert [e1, e2][..1] == [e1];
    assert Exec(g, [e1]) == Next(g, e1.now, e1.agent, e1.step) by {
      assert [e1][..0] == [];
    }
  }

  lemma ExecThree(g: Run, e1: Event, e2: Event, e3: Event)
    ensures Exec(g, [e1, e2, e3]) ==
            Next(Next(Next(g, e1.now, e1.agent, e1.step), e2.now, e2.agent, e2.step), e3.now, e3.agent, e3.step)
  {
    hide Next;
    assert [e1, e2, e3][..2] == [e1, e2];
    ExecTwo(g, e1, e2);
  }
}
