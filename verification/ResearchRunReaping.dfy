/** The reaper of expired leases: it reads the lease in one step and ends the run in a later one
    that looks at the version
    only, which a renewal does not change. */
module ResearchRunReaping {
  import opened Common
  import opened ResearchRun
  import opened ResearchRunSafety

  // ---------------------------------------------------------------- while the version stays

  /** The lease after some events that all leave the version: that of the last renewal among them, if any. */
  function LeaseAfter(lease: Option<int>, events: seq<Event>): Option<int> {
    if events == [] then lease
    else
      var e := events[|events| - 1];
      if e.step == DoRenew then Some(e.now + 15) else LeaseAfter(lease, events[..|events| - 1])
  }

  ghost predicate OpenIsLeased(row: Row) {
    Open(row.status) ==> row.leased
  }

  lemma StepKeepsLeased(g: Run, now: int, a: nat, step: Step)
    requires Inv(g) && OpenIsLeased(g.row)
    ensures OpenIsLeased(Next(g, now, a, step).row)
  {
    assert AgentOk(g.row, g.freezes, Pc(g, a));
  }

  /** With an open run and the same version afterwards, a step changes at most the lease, by
      renewing it, and the mark of
      deletion. */
  lemma StepAtSameVersion(g: Run, now: int, a: nat, step: Step)
    requires Inv(g) && Open(g.row.status) && g.row.leased
    ensures var row' := Next(g, now, a, step).row;
            row'.version == g.row.version ==>
              && row'.status == g.row.status && row'.leased
              && row'.leaseUntil == if step == DoRenew then Some(now + 15) else g.row.leaseUntil
  {
    assert AgentOk(g.row, g.freezes, Pc(g, a));
  }

  lemma {:induction false} SameVersionRenewsOnly(g: Run, events: seq<Event>)
    requires Inv(g) && Open(g.row.status) && g.row.leased && Exec(g, events).row.version == g.row.version
    ensures var row' := Exec(g, events).row;
            row'.status == g.row.status && row'.leased && row'.leaseUntil == LeaseAfter(g.row.leaseUntil, events)
    decreases |events|
  {
    hide Next, Inv;
    if events != [] {
      var m := |events| - 1;
      var mid := Exec(g, events[..m]);
      RunMovesForward(g, events[..m]);
      StepMovesRow(mid, events[m].now, events[m].agent, events[m].step);
      SameVersionRenewsOnly(g, events[..m]);
      InvAlways(g, events[..m]);
      StepAtSameVersion(mid, events[m].now, events[m].agent, events[m].step);
    }
  }

  // ---------------------------------------------------------------- what the reaper read

  /** Event m is the reaper's read: the run was open, with a lease run out by the clock of the read. */
  ghost predicate SawExpired(init: Run, trace: seq<Event>, m: nat, a: nat, seen: int) {
    && m < |trace| && trace[m].agent == a && trace[m].step == DoReapRead
    && var row := Exec(init, trace[..m]).row;
       && Open(row.status) && row.version == seen && row.leaseUntil.Some? && row.leaseUntil.value < trace[m].now
  }

  ghost predicate ReapersOk(init: Run, trace: seq<Event>) {
    forall a: nat :: Pc(Exec(init, trace), a).ReapSeen? ==>
      exists m: nat :: SawExpired(init, trace, m, a, Pc(Exec(init, trace), a).seen)
  }

  lemma StepReads(g: Run, now: int, a: nat, step: Step)
    ensures var pc' := Pc(Next(g, now, a, step), a);
            pc'.ReapSeen? && pc' != Pc(g, a) ==>
              && step == DoReapRead && Open(g.row.status) && pc'.seen == g.row.version
              && g.row.leaseUntil.Some? && g.row.leaseUntil.value < now
  {
  }

  lemma SawStays(init: Run, trace: seq<Event>, e: Event, m: nat, a: nat, seen: int)
    requires SawExpired(init, trace, m, a, seen)
    ensures SawExpired(init, trace + [e], m, a, seen)
  {
    hide Exec;
    assert (trace + [e])[..m] == trace[..m];
  }

  lemma StepKeepsReapers(init: Run, trace: seq<Event>, e: Event)
    requires ReapersOk(init, trace)
    ensures ReapersOk(init, trace + [e])
  {
    hide Next, Pc, SawExpired;
    var g := Exec(init, trace);
    assert (trace + [e])[..|trace|] == trace;
    var g' := Exec(init, trace + [e]);
    forall a: nat | Pc(g', a).ReapSeen? ensures exists m: nat :: SawExpired(init, trace + [e], m, a, Pc(g', a).seen) {
      StepReads(g, e.now, e.agent, e.step);
      if a != e.agent {
        StepLeavesOthers(g, e.now, e.agent, e.step, a);
      }
      if Pc(g', a) == Pc(g, a) {
        var m: nat :| SawExpired(init, trace, m, a, Pc(g, a).seen);
        SawStays(init, trace, e, m, a, Pc(g, a).seen);
      } else {
        assert SawExpired(init, trace + [e], |trace|, a, g.row.version) by {
          JustSaw(init, trace, e);
        }
      }
    }
  }

  lemma JustSaw(init: Run, trace: seq<Event>, e: Event)
    requires e.step == DoReapRead
    requires var row := Exec(init, trace).row;
             Open(row.status) && row.leaseUntil.Some? && row.leaseUntil.value < e.now
    ensures SawExpired(init, trace + [e], |trace|, e.agent, Exec(init, trace).row.version)
  {
    hide Exec;
    assert (trace + [e])[..|trace|] == trace;
  }

  lemma {:induction false} ReapersAlways(init: Run, trace: seq<Event>)
    requires init.agents == map[]
    ensures ReapersOk(init, trace)
    decreases |trace|
  {
    hide SawExpired;
    if trace != [] {
      var m := |trace| - 1;
      ReapersAlways(init, trace[..m]);
      assert trace == trace[..m] + [trace[m]];
      StepKeepsReapers(init, trace[..m], trace[m]);
    }
  }

  lemma {:induction false} LeasedAlways(init: Run, trace: seq<Event>)
    requires Inv(init) && OpenIsLeased(init.row)
    ensures OpenIsLeased(Exec(init, trace).row)
    decreases |trace|
  {
    hide Next, Inv, OpenIsLeased;
    if trace != [] {
      var m := |trace| - 1;
      LeasedAlways(init, trace[..m]);
      InvAlways(init, trace[..m]);
      StepKeepsLeased(Exec(init, trace[..m]), trace[m].now, trace[m].agent, trace[m].step);
    }
  }

  lemma OnlyReapers(g: Run, now: int, a: nat)
    requires Next(g, now, a, DoReap).row.status != g.row.status
    ensures Pc(g, a).ReapSeen? && Pc(g, a).seen == g.row.version
  {
  }

  /** A run is reaped only after a read that found its lease run out; and the lease it is reaped
      with is the one that was
      read exactly unless it was renewed since, and then that of the last renewal. */
  lemma ReapedAfterExpiry(now: int, queueTimeout: int, runTimeout: int, trace: seq<Event>, k: nat)
    requires k < |trace| && trace[k].step == DoReap
    requires var init := Init(now, queueTimeout, runTimeout);
             Exec(init, trace[..k + 1]).row.status != Exec(init, trace[..k]).row.status
    ensures exists m: nat :: m < k && ReapedFrom(Init(now, queueTimeout, runTimeout), trace, m, k)
  {
    hide Next, Inv, Pc, Exec, SawExpired, ReapedFrom;
    var init := Init(now, queueTimeout, runTimeout);
    var g, e := Exec(init, trace[..k]), trace[k];
    assert trace[..k + 1] == trace[..k] + [e];
    ExecOne(init, trace[..k], e);
    OnlyReapers(g, e.now, e.agent);
    InitiallyInv(now, queueTimeout, runTimeout);
    ReapersAlways(init, trace[..k]);
    var m: nat :| SawExpired(init, trace[..k], m, e.agent, g.row.version);
    SeenLease(init, trace, m, k);
  }

  lemma ExecOne(init: Run, trace: seq<Event>, e: Event)
    ensures Exec(init, trace + [e]) == Next(Exec(init, trace), e.now, e.agent, e.step)
  {
    hide Next;
    assert (trace + [e])[..|trace|] == trace;
  }

  /** Events m and k are the read and the update of one reaper. */
  ghost predicate ReapedFrom(init: Run, trace: seq<Event>, m: nat, k: nat)
    requires m < k < |trace|
  {
    var read, row := Exec(init, trace[..m]).row, Exec(init, trace[..k]).row;
    && trace[m].step == DoReapRead && trace[m].agent == trace[k].agent
    && Open(read.status) && row.status == read.status
    && read.leaseUntil.Some? && read.leaseUntil.value < trace[m].now
    && row.leaseUntil == LeaseAfter(read.leaseUntil, trace[m..k])
  }

  lemma SeenLease(init: Run, trace: seq<Event>, m: nat, k: nat)
    requires k < |trace| && init.row.status == Queued && Inv(init)
    requires SawExpired(init, trace[..k], m, trace[k].agent, Exec(init, trace[..k]).row.version)
    ensures m < k && ReapedFrom(init, trace, m, k)
  {
    hide Next, Inv, Exec;
    assert trace[..k][..m] == trace[..m] && trace[..m] + trace[m..k] == trace[..k];
    ExecAppend(init, trace[..m], trace[m..k]);
    InvAlways(init, trace[..m]);
    LeasedAlways(init, trace[..m]);
    SameVersionRenewsOnly(Exec(init, trace[..m]), trace[m..k]);
  }

  // ---------------------------------------------------------------- a renewed run that is reaped

  /** Claimed at 0 and frozen, so leased until 15; the reaper reads at 16; the lease is renewed
      at 16; the reaper ends the
      run, whose lease runs until 31. */
  function RenewedTooLate(): seq<Event> {
    [Event(0, 0, DoClaimRead), Event(0, 0, DoClaim), Event(0, 0, DoFreezeRead), Event(0, 0, DoFreeze),
     Event(16, 1, DoReapRead), Event(16, 0, DoRenew)]
  }

  lemma RenewedRunCanBeReaped(queueTimeout: int, runTimeout: int)
    ensures var g := Exec(Init(0, queueTimeout, runTimeout), RenewedTooLate());
            && g.row.status == Researching && g.row.leaseUntil == Some(31)
            && Next(g, 16, 1, DoReap).row.status == Incomplete
  {
    var g0 := Init(0, queueTimeout, runTimeout);
    hide Next;
    var e0, e1 := Event(0, 0, DoClaimRead), Event(0, 0, DoClaim);
    var e2, e3 := Event(0, 0, DoFreezeRead), Event(0, 0, DoFreeze);
    var e4, e5 := Event(16, 1, DoReapRead), Event(16, 0, DoRenew);
    assert RenewedTooLate() == [] + [e0] + [e1] + [e2] + [e3] + [e4] + [e5];
    ExecOne(g0, [], e0);
    ExecOne(g0, [] + [e0], e1);
    ExecOne(g0, [] + [e0] + [e1], e2);
    ExecOne(g0, [] + [e0] + [e1] + [e2], e3);
    ExecOne(g0, [] + [e0] + [e1] + [e2] + [e3], e4);
    ExecOne(g0, [] + [e0] + [e1] + [e2] + [e3] + [e4], e5);
    FreezesAtZero(g0);
    ReadsThenRenews(Exec(g0, [] + [e0] + [e1] + [e2] + [e3]));
  }

  lemma FreezesAtZero(g: Run)
    requires g == Init(0, g.row.queueTimeout, g.row.runTimeout)
    ensures var g4 := Next(Next(Next(Next(g, 0, 0, DoClaimRead), 0, 0, DoClaim), 0, 0, DoFreezeRead), 0, 0, DoFreeze);
            && g4.row.status == Researching && g4.row.leased && g4.row.leaseUntil == Some(15) && !g4.row.deleted
            && Pc(g4, 1) == Idle
  {
  }

  lemma ReadsThenRenews(g: Run)
    requires g.row.status == Researching && g.row.leased && g.row.leaseUntil == Some(15) && !g.row.deleted
    requires Pc(g, 1) == Idle
    ensures var g6 := Next(Next(g, 16, 1, DoReapRead), 16, 0, DoRenew);
            && g6.row.status == Researching && g6.row.leaseUntil == Some(31)
            && Next(g6, 16, 1, DoReap).row.status == Incomplete
  {
  }
}
