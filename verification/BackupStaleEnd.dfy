/** What an End that arrives before its epoch is stored can do (httpx/write_barrier.go): between the two loads of its
    check the barrier can change epochs, and the End then releases the lock of a Begin that has not finished. */
module BackupStaleEnd {
  import opened Common
  import opened BackupBarrier

  /** The barrier is active and its lock is free: requests are refused, and no End can change that. */
  predicate Broken(w: World) {
    w.active && !w.writing && w.readers == {} && w.epoch == NoEpoch && NoEpoch !in w.db
  }

  // ---------------------------------------------------------------- runs in pieces

  lemma {:induction false} RunAppend(w: World, t: seq<Event>, u: seq<Event>)
    ensures Run(w, t + u) == Run(Run(w, t), u)
    ensures Orderly(w, t) && Orderly(Run(w, t), u) <==> Orderly(w, t + u)
    decreases |u|
  {
    hide Step, OrderlyEvent;
    if u == [] {
      assert t + u == t;
    } else {
      var m := |u| - 1;
      RunAppend(w, t, u[..m]);
      assert (t + u)[..|t| + m] == t + u[..m];
      assert (t + u)[|t| + m] == u[m];
    }
  }

  lemma RunOne(w: World, ev: Event)
    ensures Run(w, [ev]) == Step(w, ev) && (Orderly(w, [ev]) <==> OrderlyEvent(w, ev))
  {
    assert [ev][..0] == [];
  }

  function MoveEvents(id: nat, n: nat, dbOk: bool): seq<Event> {
    seq(n, k => Move(id, dbOk, 0))
  }

  lemma {:induction false} RunMoves(w: World, id: nat, n: nat, dbOk: bool)
    ensures Run(w, MoveEvents(id, n, dbOk)) == Moves(w, id, n, dbOk, 0) && Orderly(w, MoveEvents(id, n, dbOk))
    decreases n
  {
    hide Step;
    if n > 0 {
      var w1 := Step(w, Move(id, dbOk, 0));
      RunMoves(w1, id, n - 1, dbOk);
      RunOne(w, Move(id, dbOk, 0));
      RunAppend(w, [Move(id, dbOk, 0)], MoveEvents(id, n - 1, dbOk));
      assert MoveEvents(id, n, dbOk) == [Move(id, dbOk, 0)] + MoveEvents(id, n - 1, dbOk);
      MovesNext(w, id, n, dbOk, 0);
    }
  }

  /** The calls other than `id` are where they were, and there are no new ones. */
  ghost predicate OthersStay(w: World, w2: World, id: nat) {
    forall j :: j != id ==> (j in w2.agents <==> j in w.agents) && (j in w.agents ==> w2.agents[j] == w.agents[j])
  }

  lemma MoveLeavesOthers(w: World, id: nat, dbOk: bool)
    ensures OthersStay(w, Step(w, Move(id, dbOk, 0)), id)
  {
    hide MoveBegin, MoveEnd, MoveWrite;
    if id in w.agents {
      BeginLeavesOthers(w, id, dbOk);
      EndLeavesOthers(w, id, dbOk);
      WriteLeavesOthers(w, id);
    }
  }

  lemma BeginLeavesOthers(w: World, id: nat, dbOk: bool)
    requires id in w.agents
    ensures OthersStay(w, MoveBegin(w, id, w.agents[id], dbOk, 0), id)
  {
    hide MoveBegin;
    BeginMoveEndsNothing(w, id, dbOk, 0);
  }

  lemma EndLeavesOthers(w: World, id: nat, dbOk: bool)
    requires id in w.agents
    ensures OthersStay(w, MoveEnd(w, id, w.agents[id], dbOk), id)
  {
    hide MoveEnd;
    EndMoveEndsActive(w, id, dbOk);
  }

  lemma WriteLeavesOthers(w: World, id: nat)
    requires id in w.agents
    ensures OthersStay(w, MoveWrite(w, id, w.agents[id]), id)
  {
    hide MoveWrite;
    WriteMoveEndsNothing(w, id);
  }

  lemma {:induction false} MovesLeaveOthers(w: World, id: nat, n: nat, dbOk: bool)
    ensures OthersStay(w, Moves(w, id, n, dbOk, 0), id)
    decreases n
  {
    hide Step;
    if n > 0 {
      MoveLeavesOthers(w, id, dbOk);
      MovesLeaveOthers(Step(w, Move(id, dbOk, 0)), id, n - 1, dbOk);
      MovesNext(w, id, n, dbOk, 0);
    }
  }

  /** A new call and its first moves. */
  function CallEvents(id: nat, call: Agent, n: nat): seq<Event> {
    [Arrive(id, call)] + MoveEvents(id, n, true)
  }

  lemma RunCall(w: World, id: nat, call: Agent, n: nat)
    requires id !in w.agents && MayArrive(w, call)
    ensures var w2 := Moves(Step(w, Arrive(id, call)), id, n, true, 0);
            Run(w, CallEvents(id, call, n)) == w2 && Orderly(w, CallEvents(id, call, n)) && OthersStay(w, w2, id)
  {
    hide Moves, MayArrive;
    RunOne(w, Arrive(id, call));
    RunAppend(w, [Arrive(id, call)], MoveEvents(id, n, true));
    RunMoves(Step(w, Arrive(id, call)), id, n, true);
    MovesLeaveOthers(Step(w, Arrive(id, call)), id, n, true);
  }

  // ---------------------------------------------------------------- the stale End

  /** A Begin nobody interrupts, up to before it stores `active`. */
  lemma BeginUpToNamed(w: World, id: nat, e: Epoch)
    requires id !in w.agents && Nameable(e) && e !in w.db && !w.writing && w.readers == {} && !w.active
    ensures var w2 := Moves(Step(w, Arrive(id, BeginCalled(e))), id, 4, true, 0);
            && FieldsOf(w2) == Fields(w.db[e := Row(Active, 0)], {}, true, false, e)
            && id in w2.agents && w2.agents[id] == BeginNamed(e)
  {
    hide MoveEnd, MoveWrite, Moves;
    var w0 := Step(w, Arrive(id, BeginCalled(e)));
    assert w0 == Put(w, id, BeginCalled(e));
    var w1 := Step(w0, Move(id, true, 0));
    assert w1 == Put(w0.(writing := true), id, BeginLocked(e));
    MovesNext(w0, id, 4, true, 0);
    BeginStores(w1, id, e);
  }

  lemma BeginStores(w: World, id: nat, e: Epoch)
    requires id in w.agents && w.agents[id] == BeginLocked(e) && e !in w.db && !w.active
    ensures var w2 := Moves(w, id, 3, true, 0);
            && FieldsOf(w2) == FieldsOf(w).(db := w.db[e := Row(Active, 0)], epoch := e)
            && id in w2.agents && w2.agents[id] == BeginNamed(e)
  {
    hide MoveEnd, MoveWrite, Moves;
    var w1 := Step(w, Move(id, true, 0));
    assert w1 == Put(w, id, BeginChecked(e));
    MovesNext(w, id, 3, true, 0);
    BeginNames(w1, id, e);
  }

  lemma BeginNames(w: World, id: nat, e: Epoch)
    requires id in w.agents && w.agents[id] == BeginChecked(e) && e !in w.db
    ensures var w2 := Moves(w, id, 2, true, 0);
            && FieldsOf(w2) == FieldsOf(w).(db := w.db[e := Row(Active, 0)], epoch := e)
            && id in w2.agents && w2.agents[id] == BeginNamed(e)
  {
    hide MoveEnd, MoveWrite, Moves;
    var w1 := Step(w, Move(id, true, 0));
    assert w1 == Put(w.(db := w.db[e := Row(Active, 0)]), id, BeginInserted(e));
    MovesNext(w, id, 2, true, 0);
    MovesNext(w1, id, 1, true, 0);
    NoMoves(Step(w1, Move(id, true, 0)), id, true, 0);
  }

  /** An End that saw the barrier active meets its epoch named but not yet active: it ends the
      epoch and frees the lock. */
  lemma StaleEndRuns(w: World, id: nat, e: Epoch, ok: bool)
    requires id in w.agents && w.agents[id] == EndSawActive(e, ok) && w.epoch == e && e in w.db
             && w.db[e].status == Active
    ensures var w2 := Moves(w, id, 5, true, 0);
            FieldsOf(w2) == FieldsOf(w).(db := w.db[e := w.db[e].(status := Ended(ok))], active := false,
              epoch := NoEpoch, writing := false)
  {
    EndFromSawActive(w, id, true, 0);
  }

  /** The events that break an active barrier: End(e), arrived before e is stored, sees the barrier active; the current
      epoch is ended; Begin(e) runs up to its last step; the End finishes; the Begin stores `active`. */
  function BreakingEvents(id: nat, e: Epoch, current: Epoch, ender: nat, beginner: nat): seq<Event> {
    MoveEvents(id, 1, true) + (CallEvents(ender, EndCalled(current, Some(true)), 6) +
    (CallEvents(beginner, BeginCalled(e), 4) + (MoveEvents(id, 5, true) + MoveEvents(beginner, 1, true))))
  }

  /** The barrier is held open for the epoch it names, with no call under way that owns it. */
  ghost predicate Held(w: World) {
    w.active && w.writing && w.readers == {} && w.epoch in w.db && w.db[w.epoch].status == Active
  }

  lemma StaleEndBreaks(w: World, id: nat, e: Epoch, ok: bool, ender: nat, beginner: nat)
    requires Held(w) && Nameable(e) && e !in w.db && NoEpoch !in w.db
    requires id in w.agents && w.agents[id] == EndCalled(e, Some(ok))
    requires ender !in w.agents && beginner !in w.agents && ender != beginner
    ensures var more := BreakingEvents(id, e, w.epoch, ender, beginner); Orderly(w, more) && Broken(Run(w, more))
  {
    hide Moves, MoveBegin, MoveWrite, MoveEnd, Run, Orderly, MoveEvents, CallEvents, Held, Put;
    var a, b := MoveEvents(id, 1, true), CallEvents(ender, EndCalled(w.epoch, Some(true)), 6);
    var c := CallEvents(beginner, BeginCalled(e), 4) + (MoveEvents(id, 5, true) + MoveEvents(beginner, 1, true));
    CurrentEnds(w, id, e, ok, ender);
    var w2 := Run(Run(w, a), b);
    StaleEndMeetsBegin(w2, id, e, ok, beginner);
    RunAppend(Run(w, a), b, c);
    RunAppend(w, a, b + c);
  }

  /** The End loads `active`; then the current epoch is ended. */
  lemma CurrentEnds(w: World, id: nat, e: Epoch, ok: bool, ender: nat)
    requires Held(w) && e !in w.db && id in w.agents && w.agents[id] == EndCalled(e, Some(ok)) && ender !in w.agents
    ensures var a, b := MoveEvents(id, 1, true), CallEvents(ender, EndCalled(w.epoch, Some(true)), 6);
            var w2 := Run(Run(w, a), b);
            && Orderly(w, a) && Orderly(Run(w, a), b)
            && !w2.active && !w2.writing && w2.readers == {} && (forall f :: f in w2.db <==> f in w.db)
            && id in w2.agents && w2.agents[id] == EndSawActive(e, ok)
            && forall j :: j in w2.agents ==> j in w.agents || j == ender
  {
    hide Moves, MoveBegin, MoveEnd, MoveWrite, Run, Orderly, MoveEvents, CallEvents;
    RunMoves(w, id, 1, true);
    OneMove(w, id);
    FirstLoad(w, id, e, ok);
    var w1 := Step(w, Move(id, true, 0));
    RunCall(w1, ender, EndCalled(w.epoch, Some(true)), 6);
    EndStepsAreEnd(w1, ender, w.epoch, Some(true), true, 0);
  }

  /** Begin(e) runs up to its last step; the End finishes; the Begin stores `active`. */
  lemma StaleEndMeetsBegin(w: World, id: nat, e: Epoch, ok: bool, beginner: nat)
    requires !w.active && !w.writing && w.readers == {} && Nameable(e) && e !in w.db && NoEpoch !in w.db
    requires id in w.agents && w.agents[id] == EndSawActive(e, ok) && beginner !in w.agents
    ensures var more := CallEvents(beginner, BeginCalled(e), 4) +
            (MoveEvents(id, 5, true) + MoveEvents(beginner, 1, true));
            Orderly(w, more) && Broken(Run(w, more))
  {
    hide Moves, MoveBegin, MoveEnd, MoveWrite, Run, Orderly, MoveEvents, CallEvents, Put;
    var c, d, x := CallEvents(beginner, BeginCalled(e), 4), MoveEvents(id, 5, true), MoveEvents(beginner, 1, true);
    RunCall(w, beginner, BeginCalled(e), 4);
    BeginUpToNamed(w, beginner, e);
    var w3 := Run(w, c);
    RunMoves(w3, id, 5, true);
    StaleEndRuns(w3, id, e, ok);
    MovesLeaveOthers(w3, id, 5, true);
    var w4 := Run(w3, d);
    LastStep(w4, beginner, e);
    RunMoves(w4, beginner, 1, true);
    OneMove(w4, beginner);
    RunAppend(w3, d, x);
    RunAppend(w, c, d + x);
  }

  lemma OneMove(w: World, id: nat)
    ensures Moves(w, id, 1, true, 0) == Step(w, Move(id, true, 0))
  {
    hide Step;
    MovesNext(w, id, 1, true, 0);
  }

  lemma FirstLoad(w: World, id: nat, e: Epoch, ok: bool)
    requires id in w.agents && w.agents[id] == EndCalled(e, Some(ok)) && w.active
    ensures var w1 := Step(w, Move(id, true, 0));
            FieldsOf(w1) == FieldsOf(w) && w1.agents == w.agents[id := EndSawActive(e, ok)]
  {
  }

  lemma LastStep(w: World, id: nat, e: Epoch)
    requires id in w.agents && w.agents[id] == BeginNamed(e)
    ensures FieldsOf(Step(w, Move(id, true, 0))) == FieldsOf(w).(active := true)
  {
  }

  /** From the start: Begin(A) returns, End(B) arrives, and the events above make the barrier
      active with its lock free. */
  lemma StaleEndBreaksFromStart()
    ensures var a, b := Epoch(1, 8), Epoch(2, 8);
            Broken(After(CallEvents(0, BeginCalled(a), 5) +
              ([Arrive(1, EndCalled(b, Some(false)))] + BreakingEvents(1, b, a, 2, 3))))
  {
    hide Moves, MoveBegin, MoveEnd, MoveWrite, Run, Orderly, CallEvents, BreakingEvents;
    var a, b := Epoch(1, 8), Epoch(2, 8);
    var t, u, v := CallEvents(0, BeginCalled(a), 5), [Arrive(1, EndCalled(b, Some(false)))],
      BreakingEvents(1, b, a, 2, 3);
    var w1 := Moves(Step(START, Arrive(0, BeginCalled(a))), 0, 5, true, 0);
    RunCall(START, 0, BeginCalled(a), 5);
    BeginStepsAreBegin(START, 0, a, true, 0);
    var w2 := Step(w1, Arrive(1, EndCalled(b, Some(false))));
    RunOne(w1, u[0]);
    assert w2 == Put(w1, 1, EndCalled(b, Some(false)));
    StaleEndBreaks(w2, 1, b, false, 2, 3);
    RunAppend(w1, u, v);
    RunAppend(START, t, u + v);
  }

  /** A broken barrier answers 503 to the next guarded request and refuses the next Begin as active, and whatever epoch
      an End names it changes nothing. */
  lemma BrokenRefuses(w: World, id: nat, e: Epoch, status: Option<bool>)
    requires Broken(w) && id !in w.agents && Nameable(e)
    ensures var w2 := Moves(Step(w, Arrive(id, WriteCalled)), id, 3, true, 0);
            id in w2.agents && w2.agents[id] == WriteRefused
    ensures var w2 := Moves(Step(w, Arrive(id, BeginCalled(e))), id, 5, true, 0);
            id in w2.agents && w2.agents[id] == BeginFailed(true)
    ensures var w2 := Moves(Step(w, Arrive(id, EndCalled(e, status))), id, 6, true, 0); FieldsOf(w2) == FieldsOf(w)
  {
    hide Moves;
    WriteIsRefused(w, id);
    BeginIsRefused(w, id, e);
    EndStepsAreEnd(w, id, e, status, true, 0);
  }

  lemma WriteIsRefused(w: World, id: nat)
    requires Broken(w) && id !in w.agents
    ensures var w2 := Moves(Step(w, Arrive(id, WriteCalled)), id, 3, true, 0);
            id in w2.agents && w2.agents[id] == WriteRefused
  {
    hide Moves, MoveBegin, MoveEnd;
    var w0 := Step(w, Arrive(id, WriteCalled));
    var w1 := Step(w0, Move(id, true, 0));
    assert id in w1.agents && w1.agents[id] == WriteLocked && w1.active;
    var w2 := Step(w1, Move(id, true, 0));
    assert id in w2.agents && w2.agents[id] == Quiescing;
    MovesNext(w0, id, 3, true, 0);
    MovesNext(w1, id, 2, true, 0);
    MovesNext(w2, id, 1, true, 0);
    NoMoves(Step(w2, Move(id, true, 0)), id, true, 0);
  }

  lemma BeginIsRefused(w: World, id: nat, e: Epoch)
    requires Broken(w) && id !in w.agents && Nameable(e)
    ensures var w2 := Moves(Step(w, Arrive(id, BeginCalled(e))), id, 5, true, 0);
            id in w2.agents && w2.agents[id] == BeginFailed(true)
  {
    hide Moves, MoveWrite, MoveEnd;
    var w0 := Step(w, Arrive(id, BeginCalled(e)));
    var w1 := Step(w0, Move(id, true, 0));
    assert w1 == Put(w0.(writing := true), id, BeginLocked(e));
    var w2 := Step(w1, Move(id, true, 0));
    assert id in w2.agents && w2.agents[id] == BeginFailed(true);
    MovesNext(w0, id, 5, true, 0);
    MovesNext(w1, id, 4, true, 0);
    ReturnedStays(w2, id, 3, true, 0);
  }

  // ---------------------------------------------------------------- from any orderly world

  lemma SomeMember<T>(s: set<T>) returns (x: T)
    requires s != {}
    ensures x in s
  {
    x :| x in s;
  }

  lemma {:induction false} AboveAll(s: set<nat>) returns (bound: nat)
    ensures forall x :: x in s ==> x < bound
    decreases |s|
  {
    bound := 0;
    if s != {} {
      var x := SomeMember(s);
      var b := AboveAll(s - {x});
      bound := if b > x then b else x + 1;
      forall y | y in s ensures y < bound {
        assert y != x ==> y in s - {x};
      }
    }
  }

  lemma {:induction false} NewEpoch(s: set<Epoch>) returns (bound: nat)
    ensures forall e :: e in s && e.Epoch? ==> e.id < bound
    decreases |s|
  {
    bound := 0;
    if s != {} {
      var x := SomeMember(s);
      var b := NewEpoch(s - {x});
      bound := if x.NoEpoch? || b > x.id then b else x.id + 1;
      forall y | y in s && y.Epoch? ensures y.id < bound {
        assert y != x ==> y in s - {x};
      }
    }
  }

  /** What the way to a held barrier keeps: the invariant, the epoch not stored, the id not taken. */
  ghost predicate Keeps(w: World, id: nat, e: Epoch) {
    Inv(w) && e !in w.db && id !in w.agents
  }

  /** The events are moves and arrivals of other calls than `id`. */
  ghost predicate Foreign(more: seq<Event>, id: nat) {
    forall k :: 0 <= k < |more| ==> !more[k].Restart? && more[k].id != id
  }

  function Rank(a: Agent): nat {
    match a
    case BeginLocked(_) => 2
    case BeginChecked(_) => 1
    case BeginInserted(_) => 2
    case BeginNamed(_) => 1
    case EndUpdated(_) => 3
    case EndInactive(_) => 2
    case EndCleared(_) => 1
    case _ => 0
  }

  /** One move of the call that owns the lock, with the database refusing inserts: it comes closer to its end. */
  lemma OwnerMoves(w: World)
    requires Inv(w) && w.owner.Some?
    ensures var o := w.owner.value;
            var w2 := Step(w, Move(o, false, 0));
            && o in w.agents && o in w2.agents && Rank(w2.agents[o]) < Rank(w.agents[o])
            && (w2.owner == w.owner || w2.owner.None?) && (forall e :: e in w2.db <==> e in w.db)
  {
  }

  /** The owner of the lock can finish without a new epoch being stored. */
  lemma {:induction false} OwnerFinishes(w: World, id: nat, e: Epoch) returns (more: seq<Event>)
    requires Keeps(w, id, e)
    ensures Orderly(w, more) && Foreign(more, id) && Keeps(Run(w, more), id, e) && Run(w, more).owner.None?
    decreases if w.owner.Some? && w.owner.value in w.agents then Rank(w.agents[w.owner.value]) + 1 else 0
  {
    hide Step, Inv, Run, Orderly;
    more := [];
    RunNothing(w);
    if w.owner.Some? {
      var o := w.owner.value;
      var ev := Move(o, false, 0);
      OwnerMoves(w);
      MoveLeavesOthers(w, o, false);
      StepKeepsInv(w, ev);
      var rest := OwnerFinishes(Step(w, ev), id, e);
      RunOne(w, ev);
      RunAppend(w, [ev], rest);
      more := [ev] + rest;
    }
  }

  lemma RunNothing(w: World)
    ensures Run(w, []) == w && Orderly(w, [])
  {
  }

  /** A reader that moves twice is done. */
  lemma ReaderMoves(w: World, r: nat)
    requires Inv(w) && w.owner.None? && r in w.readers
    ensures var w1 := Step(w, Move(r, true, 0));
            && w1.owner.None? && w1.db == w.db
            && (w1.readers == w.readers - {r} || (w1.readers == w.readers && r in w1.agents && w1.agents[r].Handling?))
    ensures r in w.agents && (w.agents[r].Handling? ==> Step(w, Move(r, true, 0)).readers == w.readers - {r})
  {
  }

  function ReaderRank(w: World, r: nat): nat {
    if r in w.agents && w.agents[r].Handling? then 0 else 1
  }

  lemma {:induction false} ReadersFinish(w: World, r: nat, id: nat, e: Epoch) returns (more: seq<Event>)
    requires Keeps(w, id, e) && w.owner.None? && (w.readers != {} ==> r in w.readers)
    ensures Orderly(w, more) && Foreign(more, id) && Keeps(Run(w, more), id, e)
    ensures Run(w, more).owner.None? && Run(w, more).readers == {}
    decreases |w.readers|, ReaderRank(w, r)
  {
    hide Step, Inv, Run, Orderly;
    more := [];
    RunNothing(w);
    if w.readers != {} {
      var ev := Move(r, true, 0);
      ReaderMoves(w, r);
      MoveLeavesOthers(w, r, true);
      StepKeepsInv(w, ev);
      var w1 := Step(w, ev);
      var next := r;
      if w1.readers != {} && r !in w1.readers {
        next := SomeMember(w1.readers);
      }
      var rest := ReadersFinish(w1, next, id, e);
      RunOne(w, ev);
      RunAppend(w, [ev], rest);
      more := [ev] + rest;
    }
  }

  /** Some epoch other than `e` is active or can be made so. */
  lemma SomeEpochBegins(w: World, id: nat, e: Epoch) returns (more: seq<Event>)
    requires Keeps(w, id, e) && w.owner.None? && w.readers == {}
    ensures Orderly(w, more) && Foreign(more, id) && Keeps(Run(w, more), id, e) && Held(Run(w, more))
  {
    hide Inv, Run, Orderly, Moves, Step;
    more := [];
    RunNothing(w);
    LockWhenFree(w);
    if !w.active {
      var newcomer := AboveAll(w.agents.Keys + {id});
      var n := NewEpoch(w.db.Keys + {e});
      more := CallEvents(newcomer, BeginCalled(Epoch(n, 1)), 5);
      RunCall(w, newcomer, BeginCalled(Epoch(n, 1)), 5);
      BeginStepsAreBegin(w, newcomer, Epoch(n, 1), true, 0);
      RunKeepsInv(w, more);
      NotTaken(w, id, e, newcomer, Epoch(n, 1));
    }
  }

  lemma NotTaken(w: World, id: nat, e: Epoch, newcomer: nat, epoch: Epoch)
    requires id !in w.agents && e !in w.db && newcomer !in w.agents && newcomer != id && epoch != e
    requires FieldsOf(Moves(Step(w, Arrive(newcomer, BeginCalled(epoch))), newcomer, 5, true, 0)).db ==
             w.db[epoch := Row(Active, 0)]
    ensures var w2 := Moves(Step(w, Arrive(newcomer, BeginCalled(epoch))), newcomer, 5, true, 0);
            id !in w2.agents && e !in w2.db
  {
    hide Moves, MoveBegin;
    MovesLeaveOthers(Step(w, Arrive(newcomer, BeginCalled(epoch))), newcomer, 5, true);
  }

  lemma LockWhenFree(w: World)
    requires Inv(w) && w.owner.None?
    ensures w.active == w.writing && (w.active ==> w.readers == {} && w.epoch in w.db && w.db[w.epoch].status == Active)
  {
  }

  /** The same world with a waiting call added. */
  function Plus(w: World, id: nat, a: Agent): World {
    w.(agents := w.agents[id := a])
  }

  /** A waiting End makes no difference to the steps of others. */
  lemma StepWithWaiting(w: World, id: nat, a: Agent, ev: Event)
    requires id !in w.agents && a.EndCalled? && !ev.Restart? && ev.id != id
    ensures Step(Plus(w, id, a), ev) == Plus(Step(w, ev), id, a) && id !in Step(w, ev).agents
  {
    hide MoveBegin, MoveEnd, MoveWrite;
    if ev.Move? {
      MoveWithWaiting(w, id, a, ev);
    } else if ev.id !in w.agents {
      PutWithWaiting(w, id, a, ev.id, ev.call);
    }
  }

  lemma MoveWithWaiting(w: World, id: nat, a: Agent, ev: Event)
    requires id !in w.agents && a.EndCalled? && ev.Move? && ev.id != id
    ensures Step(Plus(w, id, a), ev) == Plus(Step(w, ev), id, a) && id !in Step(w, ev).agents
  {
    hide MoveBegin, MoveEnd, MoveWrite, Put;
    if ev.id in w.agents {
      BeginWithWaiting(w, id, a, ev.id, ev.dbOk, ev.now);
      EndWithWaiting(w, id, a, ev.id, ev.dbOk);
      WriteWithWaiting(w, id, a, ev.id);
      BeginMoveEndsNothing(w, ev.id, ev.dbOk, ev.now);
      EndMoveEndsActive(w, ev.id, ev.dbOk);
      WriteMoveEndsNothing(w, ev.id);
    }
  }

  lemma PutWithWaiting(w: World, id: nat, a: Agent, k: nat, b: Agent)
    requires k != id
    ensures Put(Plus(w, id, a), k, b) == Plus(Put(w, k, b), id, a)
  {
    assert w.agents[id := a][k := b] == w.agents[k := b][id := a];
  }

  lemma BeginWithWaiting(w: World, id: nat, a: Agent, k: nat, dbOk: bool, now: int)
    requires id !in w.agents && k in w.agents
    ensures MoveBegin(Plus(w, id, a), k, w.agents[k], dbOk, now) == Plus(MoveBegin(w, k, w.agents[k], dbOk, now), id, a)
  {
    hide Put;
    forall v: World, b: Agent ensures Put(Plus(v, id, a), k, b) == Plus(Put(v, k, b), id, a) {
      PutWithWaiting(v, id, a, k, b);
    }
  }

  lemma EndWithWaiting(w: World, id: nat, a: Agent, k: nat, dbOk: bool)
    requires id !in w.agents && k in w.agents
    ensures MoveEnd(Plus(w, id, a), k, w.agents[k], dbOk) == Plus(MoveEnd(w, k, w.agents[k], dbOk), id, a)
  {
    hide Put;
    forall v: World, b: Agent ensures Put(Plus(v, id, a), k, b) == Plus(Put(v, k, b), id, a) {
      PutWithWaiting(v, id, a, k, b);
    }
  }

  lemma WriteWithWaiting(w: World, id: nat, a: Agent, k: nat)
    requires id !in w.agents && k in w.agents
    ensures MoveWrite(Plus(w, id, a), k, w.agents[k]) == Plus(MoveWrite(w, k, w.agents[k]), id, a)
  {
    hide Put;
    forall v: World, b: Agent ensures Put(Plus(v, id, a), k, b) == Plus(Put(v, k, b), id, a) {
      PutWithWaiting(v, id, a, k, b);
    }
  }

  lemma {:induction false} RunWithWaiting(w: World, id: nat, a: Agent, more: seq<Event>)
    requires id !in w.agents && a.EndCalled? && Foreign(more, id) && Orderly(w, more)
    ensures Run(Plus(w, id, a), more) == Plus(Run(w, more), id, a) && Orderly(Plus(w, id, a), more)
    ensures id !in Run(w, more).agents
    decreases |more|
  {
    hide Step;
    if more != [] {
      var m := |more| - 1;
      RunWithWaiting(w, id, a, more[..m]);
      StepWithWaiting(Run(w, more[..m]), id, a, more[m]);
    }
  }

  lemma OwnerIsNot(w: World, id: nat)
    requires Inv(w) && id !in w.agents
    ensures w.owner != Some(id) && NoEpoch !in w.db
  {
  }

  /** From every world of the invariant an End that arrives before its epoch is stored has a continuation that breaks
      the barrier, in which every other End arrives for a stored epoch. */
  lemma EarlyEndCanBreak(w: World, id: nat, e: Epoch, ok: bool) returns (more: seq<Event>)
    requires Inv(w) && Nameable(e) && e !in w.db && id !in w.agents
    ensures var w0 := Step(w, Arrive(id, EndCalled(e, Some(ok)))); Orderly(w0, more) && Broken(Run(w0, more))
  {
    hide Inv, Run, Orderly, Broken, Held, BreakingEvents;
    var a := EndCalled(e, Some(ok));
    OwnerIsNot(w, id);
    var w0 := Step(w, Arrive(id, a));
    assert w0 == Plus(w, id, a);
    var m1 := OwnerFinishes(w, id, e);
    var w1 := Run(w, m1);
    RunWithWaiting(w, id, a, m1);
    var r := 0;
    if w1.readers != {} {
      r := SomeMember(w1.readers);
    }
    var m2 := ReadersFinish(w1, r, id, e);
    var w2 := Run(w1, m2);
    RunWithWaiting(w1, id, a, m2);
    var m3 := SomeEpochBegins(w2, id, e);
    var w3 := Run(w2, m3);
    RunWithWaiting(w2, id, a, m3);
    OwnerIsNot(w3, id);
    var ender := AboveAll(w3.agents.Keys + {id});
    var beginner := AboveAll(w3.agents.Keys + {id, ender});
    var m4 := BreakingEvents(id, e, w3.epoch, ender, beginner);
    assert Held(Plus(w3, id, a)) by { HeldWithWaiting(w3, id, a); }
    StaleEndBreaks(Plus(w3, id, a), id, e, ok, ender, beginner);
    RunAppend(Plus(w2, id, a), m3, m4);
    RunAppend(Plus(w1, id, a), m2, m3 + m4);
    RunAppend(w0, m1, m2 + (m3 + m4));
    more := m1 + (m2 + (m3 + m4));
  }

  lemma HeldWithWaiting(w: World, id: nat, a: Agent)
    requires Held(w)
    ensures Held(Plus(w, id, a))
  {
  }

  /** The lock is held whenever the barrier is active, over every continuation with Ends for stored epochs only. */
  ghost predicate StaysClosed(w: World) {
    forall more: seq<Event> :: Orderly(w, more) && Run(w, more).active ==> Run(w, more).writing
  }

  /** After an orderly run an End for an epoch Begin could store is safe exactly when that epoch is stored already. */
  lemma EndIsSafeIffStored(trace: seq<Event>, id: nat, e: Epoch, ok: bool)
    requires Orderly(START, trace) && Nameable(e) && id !in After(trace).agents
    ensures StaysClosed(Step(After(trace), Arrive(id, EndCalled(e, Some(ok))))) <==> e in After(trace).db
  {
    hide Inv, Run, Orderly, Step;
    var w := After(trace);
    var ev := Arrive(id, EndCalled(e, Some(ok)));
    InvAlways(trace);
    if e in w.db {
      StepKeepsInv(w, ev);
      forall more: seq<Event> | Orderly(Step(w, ev), more) && Run(Step(w, ev), more).active
        ensures Run(Step(w, ev), more).writing
      {
        RunKeepsInv(Step(w, ev), more);
        ActiveHoldsLock(Run(Step(w, ev), more));
      }
    } else {
      var more := EarlyEndCanBreak(w, id, e, ok);
    }
  }

  lemma ActiveHoldsLock(w: World)
    requires Inv(w)
    ensures w.active ==> w.writing
  {
  }
}
