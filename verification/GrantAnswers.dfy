/** Issuing grants: what is issued, on what answer, and that no use of a grant succeeds a minute after it was issued. */
module GrantAnswers {
  import opened Grants

  /** A live futures grant with every name given, for one of the three tools or none in particular. */
  predicate WellNamed(s: GrantSpec) {
    && s.domain == Futures && s.mode == Live && s.owner > 0 && s.generation > 0
    && s.run != 0 && s.task != 0 && s.manifest != 0 && s.args != 0
    && (s.tool == NoTool || s.tool == GetObservations || s.tool == GetEvidence || s.tool == Calculate)
  }

  /** Each answer to an issue, exactly; only a granted one stores a record, unspent and good for sixty seconds. */
  lemma IssueIsAnswered(records: map<nat, GrantRecord>, spec: GrantSpec, leaseOk: bool, token: nat, now: int)
    ensures var (after, r) := Issued(records, spec, leaseOk, token, now);
            if !WellNamed(spec) then r == Err(Denied) && after == records
            else if !leaseOk then r == Err(LeaseRefused) && after == records
            else if token in records then r == Err(AlreadyConsumed) && after == records
            else
              && r == Ok(token) && after.Keys == records.Keys + {token}
              && (forall t :: t in records ==> after[t] == records[t])
              && after[token].spec == spec && after[token].token == token && after[token].nonce == token
              && after[token].expiresAt == now + 60 && !after[token].consumed
  {
  }

  /** Event k issued the record. */
  ghost predicate IssuedAt(trace: seq<Event>, k: nat, r: GrantRecord) {
    && k < |trace| && trace[k].IssueToken? && trace[k].leaseOk
    && trace[k].token == r.token && trace[k].spec == r.spec && r.expiresAt == trace[k].at + 60
    && WellNamed(r.spec)
  }

  lemma StepIssues(w: World, e: Event, t: nat)
    requires t in Step(w, e).records
    ensures var r := Step(w, e).records[t];
            if t in w.records then
              r.token == w.records[t].token && r.spec == w.records[t].spec && r.expiresAt == w.records[t].expiresAt
            else
              && e.IssueToken? && e.leaseOk && e.token == t == r.token && e.spec == r.spec && WellNamed(r.spec)
              && r.expiresAt == e.at + 60
  {
  }

  /** Every record of every history was issued, by an event that passed the lease check. */
  lemma {:induction false} RecordsWereIssued(trace: seq<Event>, t: nat) returns (k: nat)
    requires t in After(trace).records
    ensures IssuedAt(trace, k, After(trace).records[t])
    decreases |trace|
  {
    hide Step;
    var front, e := trace[..|trace| - 1], trace[|trace| - 1];
    StepIssues(After(front), e, t);
    if t in After(front).records {
      k := RecordsWereIssued(front, t);
    } else {
      k := |front|;
    }
  }

  /** Over every interleaving a use succeeds only with a token that was issued before, under a
      passing lease check and for
      the same thing, less than sixty seconds before the use read the clock. */
  lemma UsedWithinAMinute(trace: seq<Event>, id: nat) returns (k: nat, j: nat)
    requires id in After(trace).calls && After(trace).calls[id].Succeeded?
    ensures var c := After(trace).calls[id];
            && k < j < |trace| && trace[k].IssueToken? && trace[k].leaseOk && trace[k].token == c.token
            && WellNamed(trace[k].spec) && Matches(c.spec, trace[k].spec)
            && trace[j].ReadClock? && trace[j].id == id && trace[j].now < trace[k].at + 60
  {
    hide After, Matches, WellNamed;
    var i, j1, l := SuccessWasEarned(trace, id);
    var c := After(trace).calls[id];
    k := RecordsWereIssued(trace[..i], c.token);
    j := j1;
    TokenIsKey(trace[..i], c.token);
  }

  lemma TokenIsKey(trace: seq<Event>, t: nat)
    requires t in After(trace).records
    ensures After(trace).records[t].token == t
  {
    InvAlways(trace);
  }
}
