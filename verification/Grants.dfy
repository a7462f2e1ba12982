/** One-time grants (futures/grants.go): the two stores, issuing, and a grant's use. Text fields are numbers
    standing for the strings compared; EMPTY stands for the empty string. */
module Grants {
  import opened Common

  const EMPTY := 0
  const LIFETIME := 60

  datatype Domain = Futures | OtherDomain(name: nat)
  datatype Mode = Live | OtherMode(name: nat)
  datatype Tool = NoTool | GetObservations | GetEvidence | Calculate | OtherTool(name: nat)

  datatype GrantSpec = GrantSpec(
    domain: Domain, owner: nat, mode: Mode, run: nat, task: nat, generation: int, manifest: nat, stage: nat, tool: Tool,
      args: nat)
  datatype TaskLease = TaskLease(domain: Domain, owner: nat, mode: Mode, run: nat, task: nat, generation: int,
          manifest: nat)
  datatype GrantRecord = GrantRecord(token: nat, spec: GrantSpec, nonce: nat, expiresAt: int, consumed: bool)

  datatype GrantError = Denied | AlreadyConsumed | Expired | LeaseRefused | StoreConflict
  datatype Result<+T> = Ok(value: T) | Err(error: GrantError)

  function LeaseOf(spec: GrantSpec): TaskLease {
    TaskLease(spec.domain, spec.owner, spec.mode, spec.run, spec.task, spec.generation, spec.manifest)
  }

  /** The caller's spec with an empty stage and an empty tool name taken from the record. */
  function Filled(spec: GrantSpec, recorded: GrantSpec): GrantSpec {
    var staged := if spec.stage == EMPTY then spec.(stage := recorded.stage) else spec;
    if staged.tool == NoTool then staged.(tool := recorded.tool) else staged
  }

  // ---------------------------------------------------------------- what a store does

  function Peeked(records: map<nat, GrantRecord>, token: nat): Result<GrantRecord> {
    if token in records then Ok(records[token]) else Err(Denied)
  }

  function Consumed(records: map<nat, GrantRecord>, token: nat): (map<nat, GrantRecord>, Result<GrantRecord>) {
    if token !in records then (records, Err(Denied))
    else if records[token].consumed then (records, Err(AlreadyConsumed))
    else (records[token := records[token].(consumed := true)], Ok(records[token]))
  }

  class MemoryGrantStore {
    var records: map<nat, GrantRecord>

    constructor ()
      ensures records == map[]
    {
      records := map[];
    }

    method Create(record: GrantRecord) returns (error: Option<GrantError>)
      modifies this
      ensures records == if record.token in old(records) then old(records) else old(records)[record.token := record]
      ensures error == if record.token in old(records) then Some(AlreadyConsumed) else None
    {
      if record.token in records {
        return Some(AlreadyConsumed);
      }
      records := records[record.token := record];
      error := None;
    }

    method Peek(token: nat) returns (r: Result<GrantRecord>)
      ensures r == Peeked(records, token)
    {
      if token !in records {
        return Err(Denied);
      }
      r := Ok(records[token]);
    }

    method Consume(token: nat) returns (r: Result<GrantRecord>)
      modifies this
      ensures (records, r) == Consumed(old(records), token)
    {
      if token !in records {
        return Err(Denied);
      }
      var record := records[token];
      if record.consumed {
        return Err(AlreadyConsumed);
      }
      var consumed := record.(consumed := true);
      records := records[token := consumed];
      r := Ok(record);
    }
  }

  /** A row of the grants table: neither the domain nor the mode is stored. */
  datatype Row = Row(owner: nat, run: nat, task: nat, generation: int, manifest: nat, stage: nat, tool: Tool, args: nat,
          expiresAt: int, consumedAt: Option<int>)

  function RowOf(record: GrantRecord): Row {
    var s := record.spec;
    Row(s.owner, s.run, s.task, s.generation, s.manifest, s.stage, s.tool, s.args, record.expiresAt, None)
  }

  function RecordOf(token: nat, row: Row): GrantRecord {
    GrantRecord(token, GrantSpec(Futures, row.owner, Live, row.run, row.task, row.generation, row.manifest, row.stage,
      row.tool, row.args),
                token, row.expiresAt, row.consumedAt.Some?)
  }

  class DBGrantStore {
    var rows: map<nat, Row>

    /** The grants the table stands for. */
    ghost function Records(): map<nat, GrantRecord>
      reads this
    {
      map token | token in rows :: RecordOf(token, rows[token])
    }

    method Create(record: GrantRecord) returns (error: Option<GrantError>)
      modifies this
      ensures error == if record.token in old(rows) then Some(StoreConflict) else None
      ensures rows == if record.token in old(rows) then old(rows) else old(rows)[record.token := RowOf(record)]
    {
      if record.token in rows {
        return Some(StoreConflict);
      }
      rows := rows[record.token := RowOf(record)];
      error := None;
    }

    method Peek(token: nat) returns (r: Result<GrantRecord>)
      ensures r == Peeked(Records(), token)
    {
      if token !in rows {
        return Err(Denied);
      }
      r := Ok(RecordOf(token, rows[token]));
    }

    method Consume(token: nat, now: int) returns (r: Result<GrantRecord>)
      modifies this
      ensures (Records(), r) == Consumed(old(Records()), token)
    {
      if token !in rows {
        return Err(Denied);
      }
      var row := rows[token];
      if row.consumedAt.Some? {
        return Err(AlreadyConsumed);
      }
      rows := rows[token := row.(consumedAt := Some(now))];
      r := Ok(RecordOf(token, row).(consumed := false));
      assert Records() == old(Records())[token := RecordOf(token, row).(consumed := true)];
    }
  }

  /** A grant survives the table exactly when it is an unconsumed live futures grant whose nonce is its token. */
  lemma RowKeepsRecordIff(record: GrantRecord)
    ensures RecordOf(record.token, RowOf(record)) == record <==>
            record.spec.domain == Futures && record.spec.mode == Live && record.nonce == record.token
              && !record.consumed
  {
  }

  // ---------------------------------------------------------------- issuing

  predicate Issuable(spec: GrantSpec) {
    && spec.domain == Futures && spec.mode == Live && spec.owner != 0 && spec.run != EMPTY && spec.task != EMPTY
    && spec.generation >= 1 && spec.manifest != EMPTY && spec.args != EMPTY
    && !spec.tool.OtherTool?
  }

  /** Issue: the drawn token names a new record, good for sixty seconds. */
  function Issued(records: map<nat, GrantRecord>, spec: GrantSpec, leaseOk: bool, token: nat, now: int)
    : (map<nat, GrantRecord>, Result<nat>)
  {
    if !Issuable(spec) then (records, Err(Denied))
    else if !leaseOk then (records, Err(LeaseRefused))
    else if token in records then (records, Err(AlreadyConsumed))
    else (records[token := GrantRecord(token, spec, token, now + LIFETIME, false)], Ok(token))
  }

  /** What GrantManager.Use gives when nothing else touches the store. */
  function Used(records: map<nat, GrantRecord>, token: nat, spec: GrantSpec, lease1: bool, now: int,
          lease2: bool): (map<nat, GrantRecord>, Result<GrantRecord>) {
    if token !in records then (records, Err(Denied))
    else if !lease1 then (records, Err(LeaseRefused))
    else
      var (after, consumed) := Consumed(records, token);
      if consumed.Err? then (after, consumed) else (after, Judged(consumed.value, spec, now, lease2))
  }

  /** The tests after consumption. */
  function Judged(record: GrantRecord, spec: GrantSpec, now: int, lease2: bool): Result<GrantRecord> {
    if record.spec != Filled(spec, record.spec) then Err(Denied)
    else if record.consumed then Err(AlreadyConsumed)
    else if !(now < record.expiresAt) then Err(Expired)
    else if !lease2 then Err(LeaseRefused)
    else Ok(record)
  }

  /** The manager over the memory store; the clock and the answers of the lease authorizer are arguments. */
  class GrantManager {
    const store: MemoryGrantStore

    constructor (store: MemoryGrantStore)
      ensures this.store == store
    {
      this.store := store;
    }

    method Issue(spec: GrantSpec, leaseOk: bool, token: nat, now: int) returns (r: Result<nat>)
      modifies store
      ensures (store.records, r) == Issued(old(store.records), spec, leaseOk, token, now)
    {
      if spec.domain != Futures || spec.mode != Live || spec.owner == 0 || spec.run == EMPTY || spec.task == EMPTY
        || spec.generation < 1 || spec.manifest == EMPTY || spec.args == EMPTY {
        return Err(Denied);
      }
      if spec.tool != NoTool && !AllowedGrantTool(spec.tool) {
        return Err(Denied);
      }
      if !leaseOk {
        return Err(LeaseRefused);
      }
      var error := store.Create(GrantRecord(token, spec, token, now + LIFETIME, false));
      if error.Some? {
        return Err(error.value);
      }
      r := Ok(token);
    }

    method Use(token: nat, spec: GrantSpec, lease1: bool, now: int, lease2: bool) returns (r: Result<GrantRecord>)
      modifies store
      ensures (store.records, r) == Used(old(store.records), token, spec, lease1, now, lease2)
    {
      var peek := store.Peek(token);
      if peek.Err? {
        return peek;
      }
      if !lease1 {
        return Err(LeaseRefused);
      }
      r := store.Consume(token);
      if r.Err? {
        return;
      }
      var record := r.value;
      var wanted := spec;
      if wanted.stage == EMPTY {
        wanted := wanted.(stage := record.spec.stage);
      }
      if wanted.tool == NoTool {
        wanted := wanted.(tool := record.spec.tool);
      }
      if record.spec != wanted {
        return Err(Denied);
      }
      if record.consumed {
        return Err(AlreadyConsumed);
      }
      if !(now < record.expiresAt) {
        return Err(Expired);
      }
      if !lease2 {
        return Err(LeaseRefused);
      }
    }
  }

  predicate AllowedGrantTool(tool: Tool) {
    tool == GetObservations || tool == GetEvidence || tool == Calculate
  }

  /** The sequential form of a use: it succeeds exactly when the grant is unconsumed, matches, is in time and both
      lease checks pass; it spends the grant exactly when the first lease check passes, whatever comes after. */
  lemma UseSucceedsIff(records: map<nat, GrantRecord>, token: nat, spec: GrantSpec, lease1: bool, now: int,
          lease2: bool)
    requires token in records
    ensures var (after, r) := Used(records, token, spec, lease1, now, lease2);
            var g := records[token];
            && (r.Ok? <==> lease1 && lease2 && !g.consumed && Matches(spec, g.spec) && now < g.expiresAt)
            && (r.Ok? ==> r.value == g)
            && after.Keys == records.Keys && (forall t :: t in records && t != token ==> after[t] == records[t])
            && (after[token].consumed <==> g.consumed || lease1)
  {
  }

  /** Every field agrees, an empty stage or tool name of the caller with anything. */
  predicate Matches(spec: GrantSpec, recorded: GrantSpec) {
    && LeaseOf(spec) == LeaseOf(recorded) && spec.args == recorded.args
    && (spec.stage == EMPTY || spec.stage == recorded.stage)
    && (spec.tool == NoTool || spec.tool == recorded.tool)
  }

  // ---------------------------------------------------------------- concurrent uses

  /** Where one call of Use stands between two of its steps. */
  datatype Call =
    | Entered(token: nat, spec: GrantSpec)
    | AfterPeek(token: nat, spec: GrantSpec, lease: TaskLease)
    | AfterFirstCheck(token: nat, spec: GrantSpec, lease: TaskLease)
    | AfterConsume(token: nat, spec: GrantSpec, lease: TaskLease, record: GrantRecord)
    | AfterMatch(token: nat, spec: GrantSpec, lease: TaskLease, record: GrantRecord)
    | AfterClock(token: nat, spec: GrantSpec, lease: TaskLease, record: GrantRecord)
    | Succeeded(token: nat, spec: GrantSpec, record: GrantRecord)
    | FailedBefore(token: nat, error: GrantError)
    | FailedAfter(token: nat, spec: GrantSpec, record: GrantRecord, error: GrantError)

  /** A step of some call, or an Issue. The lease authorizer's answers and the clock belong to the environment. */
  datatype Event =
    | IssueToken(spec: GrantSpec, leaseOk: bool, token: nat, at: int)
    | Enter(id: nat, token: nat, spec: GrantSpec)
    | DoPeek(id: nat)
    | FirstCheck(id: nat, passed: bool)
    | DoConsume(id: nat)
    | DoMatch(id: nat)
    | ReadClock(id: nat, now: int)
    | SecondCheck(id: nat, passed: bool)

  datatype World = World(records: map<nat, GrantRecord>, calls: map<nat, Call>)

  const NOTHING_ISSUED := World(map[], map[])

  /** The step of one call; an event that does not fit where the call stands does nothing. */
  function Advance(records: map<nat, GrantRecord>, c: Call, e: Event): Call {
    match (e, c)
    case (DoPeek(_), Entered(token, spec)) =>
      (match Peeked(records, token)
       case Ok(record) => AfterPeek(token, spec, LeaseOf(record.spec))
       case Err(error) => FailedBefore(token, error))
    case (FirstCheck(_, passed), AfterPeek(token, spec, lease)) =>
      if passed then AfterFirstCheck(token, spec, lease) else FailedBefore(token, LeaseRefused)
    case (DoConsume(_), AfterFirstCheck(token, spec, lease)) =>
      (match Consumed(records, token).1
       case Ok(record) => AfterConsume(token, spec, lease, record)
       case Err(error) => FailedBefore(token, error))
    case (DoMatch(_), AfterConsume(token, spec, lease, record)) =>
      if record.spec != Filled(spec, record.spec) then FailedAfter(token, spec, record, Denied)
      else if record.consumed then FailedAfter(token, spec, record, AlreadyConsumed)
      else AfterMatch(token, spec, lease, record)
    case (ReadClock(_, now), AfterMatch(token, spec, lease, record)) =>
      if now < record.expiresAt then AfterClock(token, spec, lease, record)
        else FailedAfter(token, spec, record, Expired)
    case (SecondCheck(_, passed), AfterClock(token, spec, lease, record)) =>
      if passed then Succeeded(token, spec, record) else FailedAfter(token, spec, record, LeaseRefused)
    case _ => c
  }

  function Step(w: World, e: Event): World {
    match e
    case IssueToken(spec, leaseOk, token, at) => w.(records := Issued(w.records, spec, leaseOk, token, at).0)
    case Enter(id, token, spec) => if id in w.calls then w else w.(calls := w.calls[id := Entered(token, spec)])
    case _ =>
      if e.id !in w.calls then w
      else
        var c := w.calls[e.id];
        World(if e.DoConsume? && c.AfterFirstCheck? then Consumed(w.records, c.token).0 else w.records,
              w.calls[e.id := Advance(w.records, c, e)])
  }

  function After(trace: seq<Event>): World {
    if trace == [] then NOTHING_ISSUED else Step(After(trace[..|trace| - 1]), trace[|trace| - 1])
  }

  // ---------------------------------------------------------------- what every step keeps

  /** The call took the grant out of the store. */
  predicate Holds(c: Call) {
    c.AfterConsume? || c.AfterMatch? || c.AfterClock? || c.Succeeded? || c.FailedAfter?
  }

  ghost predicate CallOk(records: map<nat, GrantRecord>, c: Call) {
    && (Holds(c) ==>
          && c.token in records && records[c.token] == c.record.(consumed := true)
          && !c.record.consumed && c.record.token == c.token)
    && (c.AfterPeek? || c.AfterFirstCheck? || c.AfterConsume? || c.AfterMatch? || c.AfterClock? ==>
          c.token in records && c.lease == LeaseOf(records[c.token].spec))
    && (c.AfterMatch? || c.AfterClock? || c.Succeeded? ==> Matches(c.spec, c.record.spec))
  }

  ghost predicate Inv(w: World) {
    && (forall t :: t in w.records ==> w.records[t].token == t)
    && (forall id :: id in w.calls ==> CallOk(w.records, w.calls[id]))
    && (forall i, j :: i in w.calls && j in w.calls && i != j && Holds(w.calls[i]) && Holds(w.calls[j]) ==>
      w.calls[i].token != w.calls[j].token)
  }

  /** A record stays, and only its consumed mark ever changes, to true. */
  ghost predicate Grown(before: map<nat, GrantRecord>, after: map<nat, GrantRecord>) {
    forall t :: t in before ==> t in after && (after[t] == before[t] || after[t] == before[t].(consumed := true))
  }

  lemma StepGrows(w: World, e: Event)
    ensures Grown(w.records, Step(w, e).records)
  {
  }

  lemma OthersStayOk(records: map<nat, GrantRecord>, after: map<nat, GrantRecord>, c: Call)
    requires CallOk(records, c) && Grown(records, after)
    ensures CallOk(after, c)
  {
  }

  lemma AdvanceOk(w: World, e: Event, c: Call)
    requires Inv(w) && CallOk(w.records, c)
    ensures var after := if e.DoConsume? && c.AfterFirstCheck? then Consumed(w.records, c.token).0 else w.records;
            CallOk(after, Advance(w.records, c, e))
  {
  }

  lemma StepKeepsInv(w: World, e: Event)
    requires Inv(w)
    ensures Inv(Step(w, e))
  {
    var w2 := Step(w, e);
    StepGrows(w, e);
    forall id | id in w2.calls ensures CallOk(w2.records, w2.calls[id]) {
      if id in w.calls {
        if !e.IssueToken? && !e.Enter? && e.id == id {
          AdvanceOk(w, e, w.calls[id]);
        } else {
          OthersStayOk(w.records, w2.records, w.calls[id]);
        }
      }
    }
    NewHolderIsAlone(w, e);
  }

  /** Whoever holds a token after a step held it before, or took it when nobody did. */
  lemma NewHolderIsAlone(w: World, e: Event)
    requires Inv(w)
    ensures var w2 := Step(w, e);
            forall i, j :: i in w2.calls && j in w2.calls && i != j && Holds(w2.calls[i]) && Holds(w2.calls[j]) ==>
              w2.calls[i].token != w2.calls[j].token
  {
    var w2 := Step(w, e);
    forall i | i in w2.calls && Holds(w2.calls[i])
      ensures i in w.calls && w.calls[i].token == w2.calls[i].token
      ensures Holds(w.calls[i])
              || (w2.calls[i].token in w.records && !w.records[w2.calls[i].token].consumed && e == DoConsume(i))
    {
    }
    forall j | j in w.calls && Holds(w.calls[j])
      ensures w.calls[j].token in w.records && w.records[w.calls[j].token].consumed
    {
      assert CallOk(w.records, w.calls[j]);
    }
  }

  lemma {:induction false} InvAlways(trace: seq<Event>)
    ensures Inv(After(trace))
  {
    if trace != [] {
      InvAlways(trace[..|trace| - 1]);
      StepKeepsInv(After(trace[..|trace| - 1]), trace[|trace| - 1]);
    }
  }

  /** However uses interleave, a token succeeds at most once. */
  lemma AtMostOneSuccess(trace: seq<Event>, i: nat, j: nat)
    requires var calls := After(trace).calls; i in calls && j in calls && calls[i].Succeeded? && calls[j].Succeeded?
    requires After(trace).calls[i].token == After(trace).calls[j].token
    ensures i == j
  {
    InvAlways(trace);
  }

  /** The event is a step of this call. */
  predicate Moves(e: Event, id: nat) {
    !e.IssueToken? && !e.Enter? && e.id == id
  }

  lemma CallAfterStep(w: World, e: Event, id: nat)
    ensures var calls := Step(w, e).calls;
            if id in w.calls then id in calls
              && calls[id] == if Moves(e, id) then Advance(w.records, w.calls[id], e) else w.calls[id]
            else id in calls ==> calls[id].Entered?
  {
  }

  /** How a call comes to hold a grant, to have read the clock in time, and to succeed; and that
      it keeps what it holds. */
  lemma AdvanceShape(records: map<nat, GrantRecord>, c: Call, e: Event)
    ensures var a := Advance(records, c, e);
            && (Holds(c) ==>
                  && Holds(a) && a.token == c.token && a.spec == c.spec && a.record == c.record
                  && (c.FailedAfter? ==> a == c))
            && (Holds(a) && !Holds(c) ==> e.DoConsume? && a.token in records && a.record == records[a.token])
            && (InTime(a) && !InTime(c) ==> c.AfterMatch? && e.ReadClock? && e.now < c.record.expiresAt)
            && (a.Succeeded? && !c.Succeeded? ==> c.AfterClock? && e.SecondCheck? && e.passed)
  {
  }

  predicate InTime(c: Call) {
    c.AfterClock? || c.Succeeded?
  }

  /** A call that took its grant and has not failed since was the one that consumed it, when it was still unspent. */
  lemma {:induction false} WhenConsumed(trace: seq<Event>, id: nat) returns (i: nat)
    requires var calls := After(trace).calls; id in calls && Holds(calls[id])
    ensures var c := After(trace).calls[id];
            i < |trace| && trace[i] == DoConsume(id) && c.token in After(trace[..i]).records
              && After(trace[..i]).records[c.token] == c.record
    decreases |trace|
  {
    hide Step, Advance;
    var before := trace[..|trace| - 1];
    var w := After(before);
    CallAfterStep(w, trace[|before|], id);
    if id in w.calls {
      AdvanceShape(w.records, w.calls[id], trace[|before|]);
    }
    if id in w.calls && Holds(w.calls[id]) {
      i := WhenConsumed(before, id);
      assert before[..i] == trace[..i];
    } else {
      i := |before|;
    }
  }

  lemma {:induction false} WhenInTime(trace: seq<Event>, id: nat) returns (i: nat, j: nat)
    requires var calls := After(trace).calls; id in calls && InTime(calls[id])
    ensures var c := After(trace).calls[id];
            && i < j < |trace| && trace[i] == DoConsume(id) && trace[j].ReadClock? && trace[j].id == id
            && trace[j].now < c.record.expiresAt
            && c.token in After(trace[..i]).records && After(trace[..i]).records[c.token] == c.record
    decreases |trace|
  {
    hide Step, Advance;
    var before := trace[..|trace| - 1];
    var w := After(before);
    CallAfterStep(w, trace[|before|], id);
    if id in w.calls {
      AdvanceShape(w.records, w.calls[id], trace[|before|]);
    }
    if id in w.calls && InTime(w.calls[id]) {
      i, j := WhenInTime(before, id);
    } else {
      i := WhenConsumed(before, id);
      j := |before|;
    }
    assert before[..i] == trace[..i];
  }

  /** A success consumed an unspent, matching grant, then read the clock before expiry, then passed a lease check. */
  lemma {:induction false} SuccessWasEarned(trace: seq<Event>, id: nat) returns (i: nat, j: nat, k: nat)
    requires var calls := After(trace).calls; id in calls && calls[id].Succeeded?
    ensures var c := After(trace).calls[id];
            && i < j < k < |trace| && trace[i] == DoConsume(id) && trace[k] == SecondCheck(id, true)
            && trace[j].ReadClock? && trace[j].id == id && trace[j].now < c.record.expiresAt
            && c.token in After(trace[..i]).records && After(trace[..i]).records[c.token] == c.record
            && !c.record.consumed && Matches(c.spec, c.record.spec)
    decreases |trace|
  {
    hide Step, Advance;
    InvAlways(trace);
    assert CallOk(After(trace).records, After(trace).calls[id]);
    var before := trace[..|trace| - 1];
    var w := After(before);
    CallAfterStep(w, trace[|before|], id);
    if id in w.calls {
      AdvanceShape(w.records, w.calls[id], trace[|before|]);
    }
    if id in w.calls && w.calls[id].Succeeded? {
      i, j, k := SuccessWasEarned(before, id);
    } else {
      i, j := WhenInTime(before, id);
      k := |before|;
    }
    assert before[..i] == trace[..i];
  }

  /** A call that holds a grant holds it forever, and stays failed once it failed. */
  lemma {:induction false} HolderStays(trace: seq<Event>, more: seq<Event>, id: nat)
    requires id in After(trace).calls && Holds(After(trace).calls[id])
    ensures id in After(trace + more).calls
    ensures var c, c2 := After(trace).calls[id], After(trace + more).calls[id];
            Holds(c2) && c2.token == c.token && c2.spec == c.spec && c2.record == c.record
              && (c.FailedAfter? ==> c2 == c)
    decreases |more|
  {
    hide Step, Advance;
    if more == [] {
      assert trace + more == trace;
    } else {
      var most := more[..|more| - 1];
      HolderStays(trace, most, id);
      assert (trace + more)[..|trace + more| - 1] == trace + most;
      var w, e := After(trace + most), more[|most|];
      CallAfterStep(w, e, id);
      AdvanceShape(w.records, w.calls[id], e);
    }
  }

  /** A use that took the grant and failed, or whose spec does not match it, makes the token unusable for good:
      no call succeeds with it, then or later, whatever the others do. */
  lemma FailedUseBurnsToken(trace: seq<Event>, more: seq<Event>, id: nat, other: nat)
    requires id in After(trace).calls && Holds(After(trace).calls[id])
    requires var c := After(trace).calls[id]; c.FailedAfter? || !Matches(c.spec, c.record.spec)
    requires other in After(trace + more).calls
             && After(trace + more).calls[other].token == After(trace).calls[id].token
    ensures !After(trace + more).calls[other].Succeeded?
  {
    HolderStays(trace, more, id);
    InvAlways(trace + more);
    var w := After(trace + more);
    assert CallOk(w.records, w.calls[id]);
  }

  /** The first four steps of a call nobody interrupts. */
  lemma StepsUpToConsume(w: World, id: nat, token: nat, spec: GrantSpec, lease1: bool)
    requires id !in w.calls
    ensures var w4 := UpToConsume(w, id, token, spec, lease1);
            && id in w4.calls
            && w4.records == (if token in w.records && lease1 then Consumed(w.records, token).0 else w.records)
            && (if token !in w.records then w4.calls[id] == FailedBefore(token, Denied)
                else if !lease1 then w4.calls[id] == FailedBefore(token, LeaseRefused)
                else if w.records[token].consumed then w4.calls[id] == FailedBefore(token, AlreadyConsumed)
                else w4.calls[id] == AfterConsume(token, spec, LeaseOf(w.records[token].spec), w.records[token]))
  {
    hide Issued, Filled, Judged;
    var w1 := Step(w, Enter(id, token, spec));
    assert w1 == World(w.records, w.calls[id := Entered(token, spec)]);
    var w2 := Step(w1, DoPeek(id));
    assert w2.records == w.records && id in w2.calls &&
           w2.calls[id] == if token in w.records then AfterPeek(token, spec, LeaseOf(w.records[token].spec))
             else FailedBefore(token, Denied);
  }

  function UpToConsume(w: World, id: nat, token: nat, spec: GrantSpec, lease1: bool): World {
    Step(Step(Step(Step(w, Enter(id, token, spec)), DoPeek(id)), FirstCheck(id, lease1)), DoConsume(id))
  }

  /** Run without interruption, the steps of a call are the sequential use. */
  lemma StepsAreUse(w: World, id: nat, token: nat, spec: GrantSpec, lease1: bool, now: int, lease2: bool)
    requires id !in w.calls
    ensures var w2 := Step(Step(Step(UpToConsume(w, id, token, spec, lease1), DoMatch(id)), ReadClock(id, now)),
            SecondCheck(id, lease2));
            var (records, r) := Used(w.records, token, spec, lease1, now, lease2);
            && w2.records == records && id in w2.calls
            && (r.Ok? ==> w2.calls[id] == Succeeded(token, spec, r.value))
            && (r.Err? ==> (w2.calls[id].FailedBefore? || w2.calls[id].FailedAfter?) && w2.calls[id].error == r.error)
  {
    hide UpToConsume, Filled;
    StepsUpToConsume(w, id, token, spec, lease1);
    var w4 := UpToConsume(w, id, token, spec, lease1);
    var w5 := Step(w4, DoMatch(id));
    assert id in w5.calls && w5.records == w4.records && w5.calls[id] == Advance(w4.records, w4.calls[id], DoMatch(id));
    var w6 := Step(w5, ReadClock(id, now));
    assert id in w6.calls && w6.records == w4.records
           && w6.calls[id] == Advance(w4.records, w5.calls[id], ReadClock(id, now));
  }
}
