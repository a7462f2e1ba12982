/** The backup write barrier (httpx/write_barrier.go): a write lock taken by Begin and released by End, possibly in
    another call, while guarded requests hold it for reading. Calls are state machines that interleave step by step. */
module BackupBarrier {
  import opened Common

  /** An epoch's name: its identity and its length in bytes; NoEpoch is the empty string. */
  datatype Epoch = NoEpoch | Epoch(id: nat, length: nat)

  const MAX_EPOCH := 128

  datatype Status = Active | Ended(ok: bool)
  datatype Row = Row(status: Status, started: int)

  /** A call between two of its steps. */
  datatype Agent =
    | BeginCalled(epoch: Epoch) | BeginLocked(epoch: Epoch) | BeginChecked(epoch: Epoch)
    | BeginInserted(epoch: Epoch) | BeginNamed(epoch: Epoch) | BeginDone(epoch: Epoch) | BeginFailed(sawActive: bool)
    | EndCalled(epoch: Epoch, status: Option<bool>) | EndSawActive(epoch: Epoch, ok: bool)
    | EndChecked(epoch: Epoch, ok: bool) | EndUpdated(epoch: Epoch)
    | EndInactive(epoch: Epoch) | EndCleared(epoch: Epoch) | EndDone(epoch: Epoch) | EndFailed
    | WriteCalled | WriteLocked | Handling | Quiescing | WriteDone | WriteRefused

  /** The table of epochs, the barrier's fields, the calls, and two history variables: the call that is to release
      the write lock, if one is under way, and the epochs ended so far. */
  datatype World = World(
    db: map<Epoch, Row>,
    readers: set<nat>, writing: bool, active: bool, epoch: Epoch,
    agents: map<nat, Agent>,
    owner: Option<nat>, ended: seq<Epoch>)

  datatype Event =
    | Arrive(id: nat, call: Agent)
    | Move(id: nat, dbOk: bool, now: int)
    | Restart(found: Option<Epoch>)

  const START := World(map[], {}, false, false, NoEpoch, map[], None, [])

  /** Begin refuses every other name. */
  predicate Nameable(e: Epoch) {
    e.Epoch? && e.length <= MAX_EPOCH
  }

  predicate IsCall(a: Agent) {
    a.BeginCalled? || a.EndCalled? || a.WriteCalled?
  }

  predicate Reading(a: Agent) {
    a.WriteLocked? || a.Handling? || a.Quiescing?
  }

  /** The call holds the write lock and is the one to hand it over or release it. */
  predicate Owning(a: Agent) {
    a.BeginLocked? || a.BeginChecked? || a.BeginInserted? || a.BeginNamed? || a.EndUpdated? || a.EndInactive?
      || a.EndCleared?
  }

  function Put(w: World, id: nat, a: Agent): World {
    w.(agents := w.agents[id := a],
      owner := if Owning(a) then Some(id) else if w.owner == Some(id) then None else w.owner)
  }

  // ---------------------------------------------------------------- one step of a call

  function MoveBegin(w: World, id: nat, a: Agent, dbOk: bool, now: int): World {
    match a
    case BeginCalled(e) =>
      if !Nameable(e) then Put(w, id, BeginFailed(false))
      else if w.writing || w.readers != {} then w
      else Put(w.(writing := true), id, BeginLocked(e))
    case BeginLocked(e) =>
      if w.active then Put(w.(writing := false), id, BeginFailed(true)) else Put(w, id, BeginChecked(e))
    case BeginChecked(e) =>
      if !dbOk || e in w.db then Put(w.(writing := false), id, BeginFailed(false))
      else Put(w.(db := w.db[e := Row(Active, now)]), id, BeginInserted(e))
    case BeginInserted(e) => Put(w.(epoch := e), id, BeginNamed(e))
    case BeginNamed(e) => Put(w.(active := true), id, BeginDone(e))
    case _ => w
  }

  /** The check of End is two loads, of `active` and then of `epoch`, and holds no lock. */
  function MoveEnd(w: World, id: nat, a: Agent, dbOk: bool): World {
    match a
    case EndCalled(e, status) =>
      if status.None? || !w.active then Put(w, id, EndFailed) else Put(w, id, EndSawActive(e, status.value))
    case EndSawActive(e, ok) => Put(w, id, if w.epoch != e then EndFailed else EndChecked(e, ok))
    case EndChecked(e, ok) =>
      if !dbOk || e !in w.db || w.db[e].status != Active then Put(w, id, EndFailed)
      else Put(w.(db := w.db[e := w.db[e].(status := Ended(ok))], ended := w.ended + [e]), id, EndUpdated(e))
    case EndUpdated(e) => Put(w.(active := false), id, EndInactive(e))
    case EndInactive(e) => Put(w.(epoch := NoEpoch), id, EndCleared(e))
    case EndCleared(e) => Put(w.(writing := false), id, EndDone(e))
    case _ => w
  }

  function MoveWrite(w: World, id: nat, a: Agent): World {
    match a
    case WriteCalled => if w.writing then w else Put(w.(readers := w.readers + {id}), id, WriteLocked)
    case WriteLocked => Put(w, id, if w.active then Quiescing else Handling)
    case Handling => Put(w.(readers := w.readers - {id}), id, WriteDone)
    case Quiescing => Put(w.(readers := w.readers - {id}), id, WriteRefused)
    case _ => w
  }

  /** A restart forgets calls and lock and takes the barrier up again for the active epoch started last. */
  predicate Recovers(db: map<Epoch, Row>, found: Option<Epoch>) {
    match found
    case None => forall e :: e in db ==> db[e].status != Active
    case Some(e) =>
      e in db && db[e].status == Active
      && forall f :: f in db && db[f].status == Active ==> db[f].started <= db[e].started
  }

  function Step(w: World, ev: Event): World {
    match ev
    case Arrive(id, call) => if id in w.agents || !IsCall(call) then w else Put(w, id, call)
    case Move(id, dbOk, now) =>
      if id !in w.agents then w
      else MoveAgent(w, id, w.agents[id], dbOk, now)
    case Restart(found) =>
      if !Recovers(w.db, found) then w
      else if found.None? then World(w.db, {}, false, false, NoEpoch, map[], None, w.ended)
      else World(w.db, {}, true, true, found.value, map[], None, w.ended)
  }

  function MoveAgent(w: World, id: nat, a: Agent, dbOk: bool, now: int): World {
    if a.WriteCalled? || Reading(a) then MoveWrite(w, id, a)
    else if a.EndCalled? || a.EndSawActive? || a.EndChecked? || a.EndUpdated? || a.EndInactive? || a.EndCleared?
    then MoveEnd(w, id, a, dbOk)
    else MoveBegin(w, id, a, dbOk, now)
  }

  /** The world after some events. */
  function Run(w: World, trace: seq<Event>): World {
    if trace == [] then w else Step(Run(w, trace[..|trace| - 1]), trace[|trace| - 1])
  }

  function After(trace: seq<Event>): World {
    Run(START, trace)
  }

  /** An End for an epoch that Begin could still store does not arrive before that epoch is stored. */
  predicate MayArrive(w: World, call: Agent) {
    call.EndCalled? && call.status.Some? && Nameable(call.epoch) ==> call.epoch in w.db
  }

  predicate OrderlyEvent(w: World, ev: Event) {
    ev.Arrive? ==> MayArrive(w, ev.call)
  }

  /** Callers end only epochs that are stored. */
  ghost predicate Orderly(w: World, trace: seq<Event>) {
    trace == [] || (Orderly(w, trace[..|trace| - 1]) && OrderlyEvent(Run(w, trace[..|trace| - 1]), trace[|trace| - 1]))
  }

  // ---------------------------------------------------------------- the invariant

  ghost predicate NoneActive(db: map<Epoch, Row>) {
    forall e :: e in db ==> db[e].status != Active
  }

  ghost predicate OnlyActive(db: map<Epoch, Row>, epoch: Epoch) {
    epoch in db && forall e :: e in db ==> (db[e].status == Active <==> e == epoch)
  }

  ghost predicate OwnersOk(w: World) {
    && (w.owner.Some? ==> w.owner.value in w.agents)
    && forall id :: id in w.agents ==> (Owning(w.agents[id]) <==> w.owner == Some(id))
  }

  /** With no call in between, the barrier is active exactly while it holds the lock for the one active epoch. */
  ghost predicate LockOk(w: World) {
    && (w.writing ==> w.readers == {})
    && match w.owner
       case None => w.active == w.writing && if w.active then OnlyActive(w.db, w.epoch) else NoneActive(w.db)
       case Some(id) => w.writing && id in w.agents && OwnerOk(w, w.agents[id])
  }

  ghost predicate OwnerOk(w: World, a: Agent) {
    match a
    case BeginLocked(_) => !w.active && NoneActive(w.db)
    case BeginChecked(_) => !w.active && NoneActive(w.db)
    case BeginInserted(e) => !w.active && OnlyActive(w.db, e)
    case BeginNamed(e) => !w.active && OnlyActive(w.db, e) && w.epoch == e
    case EndUpdated(_) => w.active && NoneActive(w.db) && w.epoch in w.db
    case EndInactive(_) => !w.active && NoneActive(w.db)
    case EndCleared(_) => !w.active && NoneActive(w.db)
    case _ => false
  }

  ghost predicate ReadersOk(w: World) {
    forall id :: id in w.readers <==> id in w.agents && Reading(w.agents[id])
  }

  /** An End names an epoch that was in the table before, so no Begin under way can be inserting it once the End has
      seen the barrier active; or an epoch that can never be in the table. */
  ghost predicate EndsOk(w: World) {
    && (forall id :: id in w.agents ==> EndOk(w, w.agents[id]))
    && (forall e :: e in w.db ==> Nameable(e))
    && (forall id :: id in w.agents && Beginning(w.agents[id]) ==> Nameable(w.agents[id].epoch))
  }

  ghost predicate EndOk(w: World, a: Agent) {
    && (a.EndCalled? && a.status.Some? && Nameable(a.epoch) ==> a.epoch in w.db)
    && ((a.EndSawActive? || a.EndChecked?) && Nameable(a.epoch) ==> a.epoch in w.db && !Opening(w, a.epoch))
  }

  /** The Begin has passed the test of its epoch's name. */
  predicate Beginning(a: Agent) {
    a.BeginLocked? || a.BeginChecked? || a.BeginInserted? || a.BeginNamed?
  }

  predicate Opening(w: World, e: Epoch) {
    w.owner.Some? && w.owner.value in w.agents
      && (w.agents[w.owner.value] == BeginInserted(e) || w.agents[w.owner.value] == BeginNamed(e))
  }

  ghost predicate HistoryOk(w: World) {
    && (forall e :: e in w.db ==> (w.db[e].status != Active <==> e in w.ended))
    && (forall e :: e in w.ended ==> e in w.db)
    && forall i, j :: 0 <= i < j < |w.ended| ==> w.ended[i] != w.ended[j]
  }

  /** A request never found the barrier active once it had the lock. */
  ghost predicate NobodyQuiesced(w: World) {
    forall id :: id in w.agents ==>
      !w.agents[id].Quiescing? && !w.agents[id].WriteRefused? && w.agents[id] != BeginFailed(true)
  }

  ghost predicate Inv(w: World) {
    OwnersOk(w) && LockOk(w) && ReadersOk(w) && EndsOk(w) && HistoryOk(w) && NobodyQuiesced(w)
  }

  lemma StartOk()
    ensures Inv(START)
  {
  }

  lemma RestartKeepsInv(w: World, found: Option<Epoch>)
    requires Inv(w)
    ensures Inv(Step(w, Restart(found)))
  {
  }

  lemma ArriveKeepsInv(w: World, id: nat, call: Agent)
    requires Inv(w) && MayArrive(w, call)
    ensures Inv(Step(w, Arrive(id, call)))
  {
    hide OwnersOk, HistoryOk, LockOk, ReadersOk, NobodyQuiesced, EndsOk;
    if id !in w.agents && IsCall(call) {
      var w2 := Put(w, id, call);
      OwnerIsThere(w);
      OwnersAfterChange(w, w2, id);
      HistoryIgnoresAgents(w, w2);
      ArrivalIsInert(w, id, call);
    }
  }

  lemma ArrivalIsInert(w: World, id: nat, call: Agent)
    requires OwnersOk(w) && LockOk(w) && ReadersOk(w) && EndsOk(w) && NobodyQuiesced(w)
    requires id !in w.agents && IsCall(call) && MayArrive(w, call)
    ensures var w2 := Put(w, id, call); LockOk(w2) && ReadersOk(w2) && EndsOk(w2) && NobodyQuiesced(w2)
  {
  }

  lemma HistoryIgnoresAgents(w: World, w2: World)
    requires HistoryOk(w) && w2.db == w.db && w2.ended == w.ended
    ensures HistoryOk(w2)
  {
  }

  lemma HistoryAfterInsert(w: World, w2: World, e: Epoch)
    requires HistoryOk(w) && e !in w.db && e in w2.db && w2.db[e].status == Active
    requires w2.db == w.db[e := w2.db[e]] && w2.ended == w.ended
    ensures HistoryOk(w2)
  {
  }

  lemma HistoryAfterEnd(w: World, w2: World, e: Epoch)
    requires HistoryOk(w) && e in w.db && w.db[e].status == Active && e in w2.db && w2.db[e].status != Active
    requires w2.db == w.db[e := w2.db[e]] && w2.ended == w.ended + [e]
    ensures HistoryOk(w2)
  {
  }

  lemma OwnerIsThere(w: World)
    requires OwnersOk(w)
    ensures forall id :: id in w.agents ==> (Owning(w.agents[id]) <==> w.owner == Some(id))
    ensures w.owner.Some? ==> w.owner.value in w.agents && Owning(w.agents[w.owner.value])
  {
  }

  /** Only the call that moved can have become, or ceased to be, the owner. */
  lemma OwnersAfterChange(w: World, w2: World, id: nat)
    requires OwnersOk(w) && id in w2.agents && w2.agents == w.agents[id := w2.agents[id]]
    requires w2.owner == Put(w, id, w2.agents[id]).owner
    requires Owning(w2.agents[id]) ==> w.owner.None? || w.owner == Some(id)
    ensures OwnersOk(w2)
  {
  }

  lemma WriteKeepsInv(w: World, id: nat)
    requires Inv(w) && id in w.agents
    ensures Inv(MoveWrite(w, id, w.agents[id]))
  {
    hide OwnersOk, LockOk, ReadersOk, EndsOk, HistoryOk, NobodyQuiesced, MoveWrite;
    WriteKeepsOwners(w, id);
    WriteKeepsLock(w, id);
    WriteKeepsReaders(w, id);
    WriteKeepsHistory(w, id);
    WriteKeepsQuiet(w, id);
    WriteKeepsEnds(w, id);
  }

  lemma WriteKeepsOwners(w: World, id: nat)
    requires OwnersOk(w) && LockOk(w) && EndsOk(w) && id in w.agents
    ensures OwnersOk(MoveWrite(w, id, w.agents[id]))
  {
    hide OwnersOk;
    var w2 := MoveWrite(w, id, w.agents[id]);
    if w2 != w {
      OwnerIsThere(w);
      OwnersAfterChange(w, w2, id);
    }
  }

  lemma WriteKeepsLock(w: World, id: nat)
    requires OwnersOk(w) && LockOk(w) && ReadersOk(w) && EndsOk(w) && id in w.agents
    ensures LockOk(MoveWrite(w, id, w.agents[id]))
  {
  }

  lemma WriteKeepsReaders(w: World, id: nat)
    requires ReadersOk(w) && id in w.agents
    ensures ReadersOk(MoveWrite(w, id, w.agents[id]))
  {
  }

  lemma WriteKeepsHistory(w: World, id: nat)
    requires HistoryOk(w) && id in w.agents
    ensures HistoryOk(MoveWrite(w, id, w.agents[id]))
  {
    HistoryIgnoresAgents(w, MoveWrite(w, id, w.agents[id]));
  }

  lemma WriteKeepsQuiet(w: World, id: nat)
    requires OwnersOk(w) && LockOk(w) && ReadersOk(w) && NobodyQuiesced(w) && id in w.agents
    ensures NobodyQuiesced(MoveWrite(w, id, w.agents[id]))
  {
  }

  lemma WriteKeepsEnds(w: World, id: nat)
    requires OwnersOk(w) && LockOk(w) && EndsOk(w) && id in w.agents
    ensures EndsOk(MoveWrite(w, id, w.agents[id]))
  {
    hide EndsOk, LockOk;
    var w2 := MoveWrite(w, id, w.agents[id]);
    if w2 != w {
      EndsAfterQuietMove(w, w2, id);
    }
  }

  /** A call that neither begins nor is ending changes nothing for those that do. */
  lemma EndsAfterQuietMove(w: World, w2: World, id: nat)
    requires EndsOk(w) && id in w2.agents && w2.db == w.db && w2.agents == w.agents[id := w2.agents[id]]
    requires w.owner != Some(id) && w2.owner == w.owner
    requires EndOk(w, w2.agents[id]) && !Beginning(w2.agents[id])
    ensures EndsOk(w2)
  {
  }

  lemma BeginKeepsInv(w: World, id: nat, dbOk: bool, now: int)
    requires Inv(w) && id in w.agents
    ensures Inv(MoveBegin(w, id, w.agents[id], dbOk, now))
  {
    hide OwnersOk, LockOk, ReadersOk, EndsOk, HistoryOk, NobodyQuiesced, MoveBegin;
    BeginKeepsOwners(w, id, dbOk, now);
    BeginKeepsLock(w, id, dbOk, now);
    BeginKeepsReaders(w, id, dbOk, now);
    BeginKeepsHistory(w, id, dbOk, now);
    BeginKeepsQuiet(w, id, dbOk, now);
    BeginKeepsEnds(w, id, dbOk, now);
  }

  lemma BeginKeepsOwners(w: World, id: nat, dbOk: bool, now: int)
    requires OwnersOk(w) && LockOk(w) && EndsOk(w) && id in w.agents
    ensures OwnersOk(MoveBegin(w, id, w.agents[id], dbOk, now))
  {
    hide OwnersOk;
    var w2 := MoveBegin(w, id, w.agents[id], dbOk, now);
    if w2 != w {
      OwnerIsThere(w);
      OwnersAfterChange(w, w2, id);
    }
  }

  lemma BeginKeepsLock(w: World, id: nat, dbOk: bool, now: int)
    requires OwnersOk(w) && LockOk(w) && EndsOk(w) && id in w.agents
    ensures LockOk(MoveBegin(w, id, w.agents[id], dbOk, now))
  {
  }

  lemma BeginKeepsReaders(w: World, id: nat, dbOk: bool, now: int)
    requires ReadersOk(w) && id in w.agents
    ensures ReadersOk(MoveBegin(w, id, w.agents[id], dbOk, now))
  {
  }

  lemma BeginKeepsHistory(w: World, id: nat, dbOk: bool, now: int)
    requires HistoryOk(w) && id in w.agents
    ensures HistoryOk(MoveBegin(w, id, w.agents[id], dbOk, now))
  {
    hide HistoryOk;
    var w2 := MoveBegin(w, id, w.agents[id], dbOk, now);
    if w2.db == w.db {
      HistoryIgnoresAgents(w, w2);
    } else {
      HistoryAfterInsert(w, w2, w.agents[id].epoch);
    }
  }

  lemma BeginKeepsQuiet(w: World, id: nat, dbOk: bool, now: int)
    requires OwnersOk(w) && LockOk(w) && ReadersOk(w) && NobodyQuiesced(w) && id in w.agents
    ensures NobodyQuiesced(MoveBegin(w, id, w.agents[id], dbOk, now))
  {
  }

  lemma BeginKeepsEnds(w: World, id: nat, dbOk: bool, now: int)
    requires OwnersOk(w) && LockOk(w) && EndsOk(w) && id in w.agents
    ensures EndsOk(MoveBegin(w, id, w.agents[id], dbOk, now))
  {
  }

  lemma EndKeepsInv(w: World, id: nat, dbOk: bool)
    requires Inv(w) && id in w.agents
    ensures Inv(MoveEnd(w, id, w.agents[id], dbOk))
  {
    hide OwnersOk, LockOk, ReadersOk, EndsOk, HistoryOk, NobodyQuiesced, MoveEnd;
    EndKeepsOwners(w, id, dbOk);
    EndKeepsLock(w, id, dbOk);
    EndKeepsReaders(w, id, dbOk);
    EndKeepsHistory(w, id, dbOk);
    EndKeepsQuiet(w, id, dbOk);
    EndKeepsEnds(w, id, dbOk);
  }

  lemma EndKeepsOwners(w: World, id: nat, dbOk: bool)
    requires OwnersOk(w) && LockOk(w) && EndsOk(w) && id in w.agents
    ensures OwnersOk(MoveEnd(w, id, w.agents[id], dbOk))
  {
    hide OwnersOk;
    var w2 := MoveEnd(w, id, w.agents[id], dbOk);
    if w2 != w {
      OwnerIsThere(w);
      OwnersAfterChange(w, w2, id);
    }
  }

  lemma EndKeepsLock(w: World, id: nat, dbOk: bool)
    requires OwnersOk(w) && LockOk(w) && EndsOk(w) && id in w.agents
    ensures LockOk(MoveEnd(w, id, w.agents[id], dbOk))
  {
    hide LockOk, OwnersOk, EndsOk, MoveEnd;
    match w.agents[id]
    case EndCalled(_, _) => CheckKeepsLock(w, id, dbOk);
    case EndSawActive(_, _) => CheckKeepsLock(w, id, dbOk);
    case EndChecked(_, _) => UpdateKeepsLock(w, id, dbOk);
    case _ => ReleaseKeepsLock(w, id, dbOk);
  }

  lemma CheckKeepsLock(w: World, id: nat, dbOk: bool)
    requires OwnersOk(w) && LockOk(w) && id in w.agents && (w.agents[id].EndCalled? || w.agents[id].EndSawActive?)
    ensures LockOk(MoveEnd(w, id, w.agents[id], dbOk))
  {
  }

  /** The row it ends is the barrier's own epoch, and no other call owns the lock. */
  lemma UpdateKeepsLock(w: World, id: nat, dbOk: bool)
    requires OwnersOk(w) && LockOk(w) && EndsOk(w) && id in w.agents && w.agents[id].EndChecked?
    ensures LockOk(MoveEnd(w, id, w.agents[id], dbOk))
  {
  }

  lemma ReleaseKeepsLock(w: World, id: nat, dbOk: bool)
    requires OwnersOk(w) && LockOk(w) && id in w.agents
    requires !w.agents[id].EndCalled? && !w.agents[id].EndSawActive? && !w.agents[id].EndChecked?
    ensures LockOk(MoveEnd(w, id, w.agents[id], dbOk))
  {
  }

  lemma EndKeepsReaders(w: World, id: nat, dbOk: bool)
    requires ReadersOk(w) && id in w.agents
    ensures ReadersOk(MoveEnd(w, id, w.agents[id], dbOk))
  {
  }

  lemma EndKeepsHistory(w: World, id: nat, dbOk: bool)
    requires HistoryOk(w) && id in w.agents
    ensures HistoryOk(MoveEnd(w, id, w.agents[id], dbOk))
  {
    hide HistoryOk;
    var w2 := MoveEnd(w, id, w.agents[id], dbOk);
    if w2.db == w.db && w2.ended == w.ended {
      HistoryIgnoresAgents(w, w2);
    } else {
      HistoryAfterEnd(w, w2, w.agents[id].epoch);
    }
  }

  lemma EndKeepsQuiet(w: World, id: nat, dbOk: bool)
    requires OwnersOk(w) && LockOk(w) && ReadersOk(w) && NobodyQuiesced(w) && id in w.agents
    ensures NobodyQuiesced(MoveEnd(w, id, w.agents[id], dbOk))
  {
  }

  lemma EndKeepsEnds(w: World, id: nat, dbOk: bool)
    requires OwnersOk(w) && LockOk(w) && EndsOk(w) && id in w.agents
    ensures EndsOk(MoveEnd(w, id, w.agents[id], dbOk))
  {
    hide OwnersOk, LockOk, EndsOk, MoveEnd;
    match w.agents[id]
    case EndCalled(_, _) => CheckKeepsEnds(w, id, dbOk);
    case EndSawActive(_, _) => CheckKeepsEnds(w, id, dbOk);
    case _ => ChangeKeepsEnds(w, id, dbOk);
  }

  /** An End that sees the barrier active sees no Begin between its insert and its end. */
  lemma CheckKeepsEnds(w: World, id: nat, dbOk: bool)
    requires OwnersOk(w) && LockOk(w) && EndsOk(w) && id in w.agents
             && (w.agents[id].EndCalled? || w.agents[id].EndSawActive?)
    ensures EndsOk(MoveEnd(w, id, w.agents[id], dbOk))
  {
    hide EndsOk;
    OwnerIsThere(w);
    var w2 := MoveEnd(w, id, w.agents[id], dbOk);
    assert EndOk(w, w2.agents[id]) by { CheckedIsOk(w, id, dbOk); }
    EndsAfterQuietMove(w, w2, id);
  }

  lemma CheckedIsOk(w: World, id: nat, dbOk: bool)
    requires LockOk(w) && EndsOk(w) && id in w.agents && (w.agents[id].EndCalled? || w.agents[id].EndSawActive?)
    ensures var w2 := MoveEnd(w, id, w.agents[id], dbOk); id in w2.agents && EndOk(w, w2.agents[id])
  {
    assert EndOk(w, w.agents[id]);
  }

  lemma ChangeKeepsEnds(w: World, id: nat, dbOk: bool)
    requires OwnersOk(w) && EndsOk(w) && id in w.agents && !w.agents[id].EndCalled? && !w.agents[id].EndSawActive?
    ensures EndsOk(MoveEnd(w, id, w.agents[id], dbOk))
  {
    hide EndsOk;
    var w2 := MoveEnd(w, id, w.agents[id], dbOk);
    if w2 != w {
      EndsAfterClose(w, w2, id);
    }
  }

  /** A call that has passed its checks stores no epoch and opens none. */
  lemma EndsAfterClose(w: World, w2: World, id: nat)
    requires OwnersOk(w) && EndsOk(w) && id in w.agents && id in w2.agents && w2.agents == w.agents[id := w2.agents[id]]
    requires forall e :: e in w2.db <==> e in w.db
    requires w2.owner == Put(w, id, w2.agents[id]).owner
    requires var a := w2.agents[id]; !a.EndCalled? && !a.EndSawActive? && !a.EndChecked? && !Beginning(a)
    ensures EndsOk(w2)
  {
    forall i | i in w2.agents ensures EndOk(w2, w2.agents[i]) {
      assert i != id ==> EndOk(w, w.agents[i]);
    }
  }

  /** Every step keeps the invariant if Ends arrive for stored epochs only. */
  lemma StepKeepsInv(w: World, ev: Event)
    requires Inv(w) && OrderlyEvent(w, ev)
    ensures Inv(Step(w, ev))
  {
    hide Inv, Recovers, MoveBegin, MoveEnd, MoveWrite, Put;
    match ev
    case Arrive(id, call) => ArriveKeepsInv(w, id, call);
    case Restart(found) => RestartKeepsInv(w, found);
    case Move(id, dbOk, now) =>
      if id in w.agents {
        BeginKeepsInv(w, id, dbOk, now);
        EndKeepsInv(w, id, dbOk);
        WriteKeepsInv(w, id);
      }
  }

  lemma {:induction false} RunKeepsInv(w: World, trace: seq<Event>)
    requires Inv(w) && Orderly(w, trace)
    ensures Inv(Run(w, trace))
    decreases |trace|
  {
    hide Inv, Step;
    if trace != [] {
      RunKeepsInv(w, trace[..|trace| - 1]);
      StepKeepsInv(Run(w, trace[..|trace| - 1]), trace[|trace| - 1]);
    }
  }

  /** The invariant holds after every interleaving in which Ends arrive for stored epochs only. */
  lemma InvAlways(trace: seq<Event>)
    requires Orderly(START, trace)
    ensures Inv(After(trace))
  {
    StartOk();
    RunKeepsInv(START, trace);
  }

  /** The history of ended epochs is right after every interleaving, orderly or not. */
  lemma {:induction false} HistoryAlways(trace: seq<Event>)
    ensures HistoryOk(After(trace)) && DonesOk(After(trace))
    decreases |trace|
  {
    hide HistoryOk, DonesOk, Step;
    if trace == [] {
      NothingEnded();
    } else {
      HistoryAlways(trace[..|trace| - 1]);
      StepKeepsHistory(After(trace[..|trace| - 1]), trace[|trace| - 1]);
      StepKeepsDones(After(trace[..|trace| - 1]), trace[|trace| - 1]);
    }
  }

  lemma NothingEnded()
    ensures HistoryOk(START) && DonesOk(START)
  {
  }

  lemma StepKeepsHistory(w: World, ev: Event)
    requires HistoryOk(w)
    ensures HistoryOk(Step(w, ev))
  {
    hide HistoryOk, MoveBegin, MoveEnd, MoveWrite, Recovers;
    var w2 := Step(w, ev);
    if ev.Move? && ev.id in w.agents {
      BeginKeepsHistory(w, ev.id, ev.dbOk, ev.now);
      EndKeepsHistory(w, ev.id, ev.dbOk);
      WriteKeepsHistory(w, ev.id);
    } else {
      HistoryIgnoresAgents(w, w2);
    }
  }

  /** The End has ended its epoch. */
  predicate PastUpdate(a: Agent) {
    a.EndUpdated? || a.EndInactive? || a.EndCleared? || a.EndDone?
  }

  predicate EndSame(a: Agent, b: Agent) {
    PastUpdate(a) && PastUpdate(b) && a.epoch == b.epoch
  }

  /** No two calls have ended the same epoch. */
  ghost predicate DonesOk(w: World) {
    && (forall id :: id in w.agents && PastUpdate(w.agents[id]) ==> w.agents[id].epoch in w.ended)
    && (forall i, j :: i in w.agents && j in w.agents && EndSame(w.agents[i], w.agents[j]) ==> i == j)
  }

  lemma StepKeepsDones(w: World, ev: Event)
    requires HistoryOk(w) && DonesOk(w)
    ensures DonesOk(Step(w, ev))
  {
    hide Recovers, MoveEnd, MoveBegin, MoveWrite, DonesOk, HistoryOk;
    var w2 := Step(w, ev);
    match ev
    case Arrive(id, call) =>
      if w2 != w {
        DonesAfterOther(w, w2, id, call);
      }
    case Restart(_) => DonesAfterRestart(w, ev);
    case Move(id, dbOk, now) =>
      if w2 != w {
        EndMoveEndsActive(w, id, dbOk);
        BeginMoveEndsNothing(w, id, dbOk, now);
        WriteMoveEndsNothing(w, id);
        DonesAfterMove(w, w2, id);
      }
  }

  lemma DonesAfterRestart(w: World, ev: Event)
    requires DonesOk(w) && ev.Restart?
    ensures DonesOk(Step(w, ev))
  {
    hide Recovers;
  }

  lemma DonesAfterOther(w: World, w2: World, id: nat, a: Agent)
    requires DonesOk(w) && !PastUpdate(a) && w2.agents == w.agents[id := a] && w2.ended == w.ended
    ensures DonesOk(w2)
  {
  }

  /** The move of `id` from `w` to `w2` ends an epoch only if that was active. */
  ghost predicate EndsOnlyActive(w: World, w2: World, id: nat)
    requires id in w.agents
  {
    && id in w2.agents && w2.agents == w.agents[id := w2.agents[id]]
    && var a, a2 := w.agents[id], w2.agents[id];
       if PastUpdate(a) then PastUpdate(a2) && a2.epoch == a.epoch && w2.ended == w.ended
       else if PastUpdate(a2) then
         w2.ended == w.ended + [a2.epoch] && a2.epoch in w.db && w.db[a2.epoch].status == Active
       else w2.ended == w.ended
  }

  lemma DonesAfterMove(w: World, w2: World, id: nat)
    requires HistoryOk(w) && DonesOk(w) && id in w.agents && EndsOnlyActive(w, w2, id)
    ensures DonesOk(w2)
  {
  }

  lemma EndMoveEndsActive(w: World, id: nat, dbOk: bool)
    requires id in w.agents
    ensures var w2 := MoveEnd(w, id, w.agents[id], dbOk); w2 == w || EndsOnlyActive(w, w2, id)
  {
  }

  lemma BeginMoveEndsNothing(w: World, id: nat, dbOk: bool, now: int)
    requires id in w.agents
    ensures var w2 := MoveBegin(w, id, w.agents[id], dbOk, now); w2 == w || EndsOnlyActive(w, w2, id)
  {
  }

  lemma WriteMoveEndsNothing(w: World, id: nat)
    requires id in w.agents
    ensures var w2 := MoveWrite(w, id, w.agents[id]); w2 == w || EndsOnlyActive(w, w2, id)
  {
  }

  // ---------------------------------------------------------------- what follows for every run

  /** If Ends arrive for stored epochs only: while the barrier is active it holds the write lock, and no guarded request
      is being handled. */
  lemma ActiveMeansQuiet(trace: seq<Event>)
    requires Orderly(START, trace)
    ensures var w := After(trace);
            w.active ==> w.writing && forall id :: id in w.agents ==> !w.agents[id].Handling?
  {
    InvAlways(trace);
  }

  /** If Ends arrive for stored epochs only, the answer 503 of the middleware and the "active" refusal of Begin are
      never given: such calls wait for the lock instead, and whoever gets it finds the barrier inactive. */
  lemma NeverRefusedAsActive(trace: seq<Event>, id: nat)
    requires Orderly(START, trace)
    requires id in After(trace).agents
    ensures var a := After(trace).agents[id]; !a.Quiescing? && !a.WriteRefused? && a != BeginFailed(true)
  {
    InvAlways(trace);
  }

  /** Every release of the lock finds it held, for writing or by this reader. */
  lemma ReleasesOnlyWhatIsHeld(trace: seq<Event>, id: nat, dbOk: bool, now: int)
    requires Orderly(START, trace)
    requires id in After(trace).agents
    ensures var w := After(trace);
            var a := w.agents[id];
            && (Owning(a) ==> w.writing && w.owner == Some(id))
            && (Reading(a) ==> id in w.readers && !w.writing)
            && (w.writing && !Step(w, Move(id, dbOk, now)).writing ==> Owning(a))
  {
    hide HistoryOk, EndsOk, NobodyQuiesced;
    InvAlways(trace);
  }

  /** Each epoch is ended at most once over a whole run, restarts included, and then is no longer active. */
  lemma EachEpochEndsOnce(trace: seq<Event>, i: nat, j: nat)
    requires i < j < |After(trace).ended|
    ensures var w := After(trace); w.ended[i] != w.ended[j] && w.ended[i] in w.db && w.db[w.ended[i]].status != Active
  {
    HistoryAlways(trace);
    assert After(trace).ended[i] in After(trace).ended;
  }

  /** Since the last restart no two calls, however they interleave with anything else, have ended the same epoch. */
  lemma OneEndPerEpoch(trace: seq<Event>, i: nat, j: nat)
    requires i in After(trace).agents && j in After(trace).agents
    requires var w := After(trace);
             PastUpdate(w.agents[i]) && PastUpdate(w.agents[j]) && w.agents[i].epoch == w.agents[j].epoch
    ensures i == j
  {
    HistoryAlways(trace);
  }

  /** A restart while no call is changing the barrier brings it back as it was: same lock, same epoch. */
  lemma RestartRestores(trace: seq<Event>, found: Option<Epoch>)
    requires Orderly(START, trace)
    requires var w := After(trace); w.owner.None? && Recovers(w.db, found)
    ensures var w, w2 := After(trace), Step(After(trace), Restart(found));
            && w2.active == w.active && w2.writing == w.writing && (w.active ==> w2.epoch == w.epoch) && w2.db == w.db
  {
    hide EndsOk, HistoryOk, ReadersOk, NobodyQuiesced, OwnersOk;
    InvAlways(trace);
  }

  /** Move the call `n` times. */
  function Moves(w: World, id: nat, n: nat, dbOk: bool, now: int): World
    decreases n
  {
    if n == 0 then w else Moves(Step(w, Move(id, dbOk, now)), id, n - 1, dbOk, now)
  }

  lemma MovesNext(w: World, id: nat, n: nat, dbOk: bool, now: int)
    requires n > 0
    ensures Moves(w, id, n, dbOk, now) == Moves(Step(w, Move(id, dbOk, now)), id, n - 1, dbOk, now)
  {
  }

  lemma {:induction false} StillAfterMoves(w: World, id: nat, n: nat, dbOk: bool, now: int)
    requires Step(w, Move(id, dbOk, now)) == w
    ensures Moves(w, id, n, dbOk, now) == w
  {
    hide Step;
    if n != 0 {
      StillAfterMoves(w, id, n - 1, dbOk, now);
    }
  }

  /** A call that has returned moves no more. */
  lemma ReturnedStays(w: World, id: nat, n: nat, dbOk: bool, now: int)
    requires id in w.agents
    requires w.agents[id].BeginDone? || w.agents[id].BeginFailed? || w.agents[id].EndDone? || w.agents[id].EndFailed?
    ensures Moves(w, id, n, dbOk, now) == w
  {
    hide Moves, Put;
    StillAfterMoves(w, id, n, dbOk, now);
  }

  /** After its table update an End needs three more moves to release the lock, and nothing can stop it. */
  lemma EndFinishes(w: World, id: nat, dbOk: bool, now: int)
    requires id in w.agents && w.agents[id].EndUpdated?
    ensures var w2 := Moves(w, id, 3, dbOk, now);
            && id in w2.agents && w2.agents[id].EndDone?
            && FieldsOf(w2) == FieldsOf(w).(active := false, epoch := NoEpoch, writing := false)
            && w2.ended == w.ended
  {
    hide MoveBegin, MoveWrite, Moves;
    var w1 := Step(w, Move(id, dbOk, now));
    assert w1 == Put(w.(active := false), id, EndInactive(w.agents[id].epoch));
    var w2 := Step(w1, Move(id, dbOk, now));
    assert w2 == Put(w1.(epoch := NoEpoch), id, EndCleared(w.agents[id].epoch));
    MovesNext(w, id, 3, dbOk, now);
    MovesNext(w1, id, 2, dbOk, now);
    MovesNext(w2, id, 1, dbOk, now);
    assert Moves(Step(w2, Move(id, dbOk, now)), id, 0, dbOk, now) == Step(w2, Move(id, dbOk, now)) by {
      NoMoves(Step(w2, Move(id, dbOk, now)), id, dbOk, now);
    }
  }

  lemma NoMoves(w: World, id: nat, dbOk: bool, now: int)
    ensures Moves(w, id, 0, dbOk, now) == w
  {
  }

  /** Of two Ends that both passed the check, the first to reach the table wins and the other fails; the winner's
      remaining steps leave the barrier inactive and the lock free. */
  lemma ExactlyOneEndWins(trace: seq<Event>, i: nat, j: nat, now: int)
    requires Orderly(START, trace)
    requires var w := After(trace);
             && i != j && w.active && w.owner.None? && i in w.agents && j in w.agents
             && w.agents[i].EndChecked? && w.agents[i].epoch == w.epoch && w.agents[j].EndChecked?
             && w.agents[j].epoch == w.epoch
    ensures var w1 := Step(After(trace), Move(i, true, now));
            var w2 := Step(w1, Move(j, true, now));
            var w5 := Moves(w2, i, 3, true, now);
            && w1.ended == After(trace).ended + [After(trace).epoch] && j in w2.agents && w2.agents[j] == EndFailed
            && w5.ended == w1.ended && i in w5.agents && w5.agents[i].EndDone? && !w5.active && !w5.writing
            && w5.epoch == NoEpoch
  {
    hide OwnersOk, EndsOk, HistoryOk, ReadersOk, NobodyQuiesced, MoveBegin, MoveWrite, Moves;
    InvAlways(trace);
    var w := After(trace);
    var w1 := Step(w, Move(i, true, now));
    assert w1 == Put(w.(db := w1.db, ended := w.ended + [w.epoch]), i, EndUpdated(w.epoch)) && w.epoch in w1.db
           && w1.db[w.epoch].status != Active;
    var w2 := Step(w1, Move(j, true, now));
    assert w2 == Put(w1, j, EndFailed);
    EndFinishes(w2, i, true, now);
  }

  // ---------------------------------------------------------------- the barrier as an object

  datatype Fields = Fields(db: map<Epoch, Row>, readers: set<nat>, writing: bool, active: bool, epoch: Epoch)
  datatype Outcome = Done | Waiting | Refused

  function FieldsOf(w: World): Fields {
    Fields(w.db, w.readers, w.writing, w.active, w.epoch)
  }

  /** Begin when nothing else moves; Waiting is a call blocked on the lock. */
  function BeginAlone(f: Fields, e: Epoch, dbOk: bool, now: int): (Fields, Outcome) {
    if !Nameable(e) then (f, Refused)
    else if f.writing || f.readers != {} then (f, Waiting)
    else if f.active || !dbOk || e in f.db then (f, Refused)
    else (Fields(f.db[e := Row(Active, now)], {}, true, true, e), Done)
  }

  function EndAlone(f: Fields, e: Epoch, status: Option<bool>, dbOk: bool): (Fields, Outcome) {
    if status.None? || !f.active || f.epoch != e || !dbOk || e !in f.db || f.db[e].status != Active then (f, Refused)
    else (f.(db := f.db[e := f.db[e].(status := Ended(status.value))], active := false, epoch := NoEpoch,
      writing := false), Done)
  }

  class Barrier {
    var db: map<Epoch, Row>
    var readers: set<nat>
    var writing: bool
    var active: bool
    var epoch: Epoch

    /** New: takes up the active epoch the table holds, if any. */
    constructor (db: map<Epoch, Row>, found: Option<Epoch>)
      requires Recovers(db, found)
      ensures Fields(this.db, readers, writing, active, epoch) ==
              if found.None? then Fields(db, {}, false, false, NoEpoch) else Fields(db, {}, true, true, found.value)
    {
      this.db := db;
      readers := {};
      writing := found.Some?;
      active := found.Some?;
      epoch := if found.Some? then found.value else NoEpoch;
    }

    method Begin(e: Epoch, dbOk: bool, now: int) returns (out: Outcome)
      modifies this
      ensures (Fields(db, readers, writing, active, epoch), out) ==
              BeginAlone(old(Fields(db, readers, writing, active, epoch)), e, dbOk, now)
    {
      if e.NoEpoch? || e.length > MAX_EPOCH {
        return Refused;
      }
      if writing || readers != {} {
        return Waiting;
      }
      writing := true;
      if active {
        writing := false;
        return Refused;
      }
      if !dbOk || e in db {
        writing := false;
        return Refused;
      }
      db := db[e := Row(Active, now)];
      epoch := e;
      active := true;
      out := Done;
    }

    method End(e: Epoch, status: Option<bool>, dbOk: bool) returns (out: Outcome)
      modifies this
      ensures (Fields(db, readers, writing, active, epoch), out) ==
              EndAlone(old(Fields(db, readers, writing, active, epoch)), e, status, dbOk)
    {
      if status.None? {
        return Refused;
      }
      if !active || epoch != e {
        return Refused;
      }
      if !dbOk || e !in db || db[e].status != Active {
        return Refused;
      }
      db := db[e := db[e].(status := Ended(status.value))];
      active := false;
      epoch := NoEpoch;
      writing := false;
      out := Done;
    }
  }

  lemma BeginFromInserted(w: World, id: nat, dbOk: bool, now: int)
    requires id in w.agents && w.agents[id].BeginInserted?
    ensures var w2 := Moves(w, id, 2, dbOk, now);
            id in w2.agents && w2.agents[id].BeginDone?
              && FieldsOf(w2) == FieldsOf(w).(epoch := w.agents[id].epoch, active := true)
  {
    hide MoveEnd, MoveWrite, Moves;
    var w1 := Step(w, Move(id, dbOk, now));
    assert w1 == Put(w.(epoch := w.agents[id].epoch), id, BeginNamed(w.agents[id].epoch));
    MovesNext(w, id, 2, dbOk, now);
    MovesNext(w1, id, 1, dbOk, now);
    NoMoves(Step(w1, Move(id, dbOk, now)), id, dbOk, now);
  }

  lemma BeginFromChecked(w: World, id: nat, dbOk: bool, now: int)
    requires id in w.agents && w.agents[id].BeginChecked?
    ensures var w2 := Moves(w, id, 3, dbOk, now);
            var e := w.agents[id].epoch;
            && id in w2.agents
            && if !dbOk || e in w.db then
                 w2.agents[id].BeginFailed? && FieldsOf(w2) == FieldsOf(w).(writing := false)
               else
                 && w2.agents[id].BeginDone?
                 && FieldsOf(w2) == FieldsOf(w).(db := w.db[e := Row(Active, now)], epoch := e, active := true)
  {
    hide MoveEnd, MoveWrite, Moves;
    var e := w.agents[id].epoch;
    var w1 := Step(w, Move(id, dbOk, now));
    MovesNext(w, id, 3, dbOk, now);
    if !dbOk || e in w.db {
      assert w1 == Put(w.(writing := false), id, BeginFailed(false));
      ReturnedStays(w1, id, 2, dbOk, now);
    } else {
      assert w1 == Put(w.(db := w.db[e := Row(Active, now)]), id, BeginInserted(e));
      BeginFromInserted(w1, id, dbOk, now);
    }
  }

  lemma BeginFromLocked(w: World, id: nat, dbOk: bool, now: int)
    requires id in w.agents && w.agents[id].BeginLocked?
    ensures var w2 := Moves(w, id, 4, dbOk, now);
            var e := w.agents[id].epoch;
            && id in w2.agents
            && if w.active || !dbOk || e in w.db then
                 w2.agents[id].BeginFailed? && FieldsOf(w2) == FieldsOf(w).(writing := false)
               else
                 && w2.agents[id].BeginDone?
                 && FieldsOf(w2) == FieldsOf(w).(db := w.db[e := Row(Active, now)], epoch := e, active := true)
  {
    hide MoveEnd, MoveWrite, Moves;
    var w1 := Step(w, Move(id, dbOk, now));
    MovesNext(w, id, 4, dbOk, now);
    if w.active {
      assert w1 == Put(w.(writing := false), id, BeginFailed(true));
      ReturnedStays(w1, id, 3, dbOk, now);
    } else {
      assert w1 == Put(w, id, BeginChecked(w.agents[id].epoch));
      BeginFromChecked(w1, id, dbOk, now);
    }
  }

  /** A Begin nobody interrupts does what the method does. */
  lemma BeginStepsAreBegin(w: World, id: nat, e: Epoch, dbOk: bool, now: int)
    requires id !in w.agents
    ensures var w2 := Moves(Step(w, Arrive(id, BeginCalled(e))), id, 5, dbOk, now);
            var (f, out) := BeginAlone(FieldsOf(w), e, dbOk, now);
            && FieldsOf(w2) == f && id in w2.agents
            && (out == Done <==> w2.agents[id].BeginDone?) && (out == Waiting <==> w2.agents[id].BeginCalled?)
  {
    hide MoveEnd, MoveWrite, Moves;
    var w0 := Step(w, Arrive(id, BeginCalled(e)));
    assert w0 == Put(w, id, BeginCalled(e));
    var w1 := Step(w0, Move(id, dbOk, now));
    MovesNext(w0, id, 5, dbOk, now);
    if !Nameable(e) {
      assert w1 == Put(w0, id, BeginFailed(false));
      ReturnedStays(w1, id, 4, dbOk, now);
    } else if w.writing || w.readers != {} {
      assert w1 == w0;
      StillAfterMoves(w1, id, 4, dbOk, now);
    } else {
      assert w1 == Put(w0.(writing := true), id, BeginLocked(e));
      BeginFromLocked(w1, id, dbOk, now);
    }
  }

  lemma EndFromChecked(w: World, id: nat, dbOk: bool, now: int)
    requires id in w.agents && w.agents[id].EndChecked?
    ensures var w2 := Moves(w, id, 4, dbOk, now);
            var a := w.agents[id];
            && id in w2.agents
            && if !dbOk || a.epoch !in w.db || w.db[a.epoch].status != Active then
                 w2.agents[id].EndFailed? && FieldsOf(w2) == FieldsOf(w)
               else
                 && w2.agents[id].EndDone?
                 && FieldsOf(w2) == FieldsOf(w).(db := w.db[a.epoch := w.db[a.epoch].(status := Ended(a.ok))],
                                                 active := false, epoch := NoEpoch, writing := false)
  {
    hide MoveBegin, MoveWrite, Moves;
    var w1 := Step(w, Move(id, dbOk, now));
    var a := w.agents[id];
    MovesNext(w, id, 4, dbOk, now);
    if !dbOk || a.epoch !in w.db || w.db[a.epoch].status != Active {
      assert w1 == Put(w, id, EndFailed);
      ReturnedStays(w1, id, 3, dbOk, now);
    } else {
      assert id in w1.agents && w1.agents[id] == EndUpdated(a.epoch);
      EndFinishes(w1, id, dbOk, now);
    }
  }

  lemma EndStepsAreEnd(w: World, id: nat, e: Epoch, status: Option<bool>, dbOk: bool, now: int)
    requires id !in w.agents
    ensures var w2 := Moves(Step(w, Arrive(id, EndCalled(e, status))), id, 6, dbOk, now);
            var (f, out) := EndAlone(FieldsOf(w), e, status, dbOk);
            && FieldsOf(w2) == f && id in w2.agents
            && (out == Done <==> w2.agents[id].EndDone?) && (out == Refused <==> w2.agents[id].EndFailed?)
  {
    hide MoveBegin, MoveWrite, Moves;
    var w0 := Step(w, Arrive(id, EndCalled(e, status)));
    assert w0 == Put(w, id, EndCalled(e, status));
    var w1 := Step(w0, Move(id, dbOk, now));
    MovesNext(w0, id, 6, dbOk, now);
    if status.None? || !w.active {
      assert w1 == Put(w0, id, EndFailed);
      ReturnedStays(w1, id, 5, dbOk, now);
    } else {
      assert w1 == Put(w0, id, EndSawActive(e, status.value));
      EndFromSawActive(w1, id, dbOk, now);
    }
  }

  lemma EndFromSawActive(w: World, id: nat, dbOk: bool, now: int)
    requires id in w.agents && w.agents[id].EndSawActive?
    ensures var w2 := Moves(w, id, 5, dbOk, now);
            var a := w.agents[id];
            && id in w2.agents
            && (if w.epoch != a.epoch || !dbOk || a.epoch !in w.db || w.db[a.epoch].status != Active
                then w2.agents[id].EndFailed? && FieldsOf(w2) == FieldsOf(w)
                else w2.agents[id].EndDone? && FieldsOf(w2) ==
                     FieldsOf(w).(db := w.db[a.epoch := w.db[a.epoch].(status := Ended(a.ok))], active := false,
                       epoch := NoEpoch, writing := false))
  {
    hide MoveBegin, MoveWrite, Moves;
    var a := w.agents[id];
    var w1 := Step(w, Move(id, dbOk, now));
    MovesNext(w, id, 5, dbOk, now);
    if w.epoch != a.epoch {
      assert w1 == Put(w, id, EndFailed);
      ReturnedStays(w1, id, 4, dbOk, now);
    } else {
      assert w1 == Put(w, id, EndChecked(a.epoch, a.ok));
      EndFromChecked(w1, id, dbOk, now);
    }
  }
}
