/** The revision and supersedes chain of ingested observations (futures/ingest.go). Ids, hashes, series and periods
    are numbers; `source` stands for the source, natural key and source version together. */
module ObservationIngest {
  import opened Common

  /** A stored observation; `owner` is None for a public one. */
  datatype Row = Row(id: nat, owner: Option<nat>, source: nat, hash: nat, series: nat, period: int, revision: int,
          supersedes: Option<nat>)

  /** An input whose other fields passed validation; `series` is None when no series matches. */
  datatype Input = Input(id: nat, owner: Option<nat>, source: nat, hash: nat, series: Option<nat>, period: int,
          revision: int, supersedes: Option<nat>)

  datatype IngestError = InvalidInput | NotFound | RevisionConflict | Forbidden | ConstraintViolated
  datatype Outcome = Inserted | NotInserted | Failed(error: IngestError)

  predicate InPeriod(r: Row, series: nat, period: int) {
    r.series == series && r.period == period
  }

  /** A row of the period with the greatest revision below `revision`. */
  function Prior(rows: seq<Row>, series: nat, period: int, revision: int): (k: Option<nat>)
    ensures k.Some? ==> k.value < |rows| && InPeriod(rows[k.value], series, period) && rows[k.value].revision < revision
  {
    if rows == [] then None
    else
      var n := |rows| - 1;
      var before := Prior(rows[..n], series, period, revision);
      if InPeriod(rows[n], series, period) && rows[n].revision < revision
        && (before.None? || rows[before.value].revision < rows[n].revision) then Some(n)
      else before
  }

  /** The revision of the row with this id in the period, and 0 when there is none. */
  function RevisionOf(rows: seq<Row>, id: nat, series: nat, period: int): (r: int)
    ensures r == 0 || exists k ::
            0 <= k < |rows| && rows[k].id == id && InPeriod(rows[k], series, period) && rows[k].revision == r
  {
    if rows == [] then 0
    else if rows[0].id == id && InPeriod(rows[0], series, period) then rows[0].revision
    else
      var r := RevisionOf(rows[1..], id, series, period);
      assert forall k :: 0 <= k < |rows[1..]| ==> rows[1..][k] == rows[k + 1];
      r
  }

  function FindId(rows: seq<Row>, id: nat): (k: nat)
    ensures k <= |rows| && (k < |rows| ==> rows[k].id == id) && forall j :: 0 <= j < k ==> rows[j].id != id
  {
    if rows == [] || rows[0].id == id then 0 else 1 + FindId(rows[1..], id)
  }

  /** Either unique key of the table already holds such a row. */
  predicate Clashes(rows: seq<Row>, r: Row) {
    exists k :: 0 <= k < |rows| && rows[k].hash == r.hash &&
      (rows[k].source == r.source || (InPeriod(rows[k], r.series, r.period) && rows[k].revision == r.revision))
  }

  function RowOf(input: Input, series: nat, supersedes: Option<nat>): Row {
    Row(input.id, input.owner, input.source, input.hash, series, input.period, input.revision, supersedes)
  }

  /** The row the new one supersedes, if the input names none itself. */
  function Superseded(rows: seq<Row>, input: Input, series: nat): Option<nat> {
    if input.supersedes.Some? || input.revision <= 1 then input.supersedes
    else
      var k := Prior(rows, series, input.period, input.revision);
      if k.None? then None else Some(rows[k.value].id)
  }

  function Ingest(rows: seq<Row>, input: Input): (seq<Row>, Outcome) {
    if input.revision < 1 then (rows, Failed(InvalidInput))
    else if input.series.None? then (rows, Failed(NotFound))
    else
      var series := input.series.value;
      var supersedes := Superseded(rows, input, series);
      if supersedes.None? && input.revision > 1 then (rows, Failed(RevisionConflict))
      else if supersedes.Some? && RevisionOf(rows, supersedes.value, series, input.period) != input.revision - 1
      then (rows, Failed(RevisionConflict))
      else
        var k := FindId(rows, input.id);
        if k < |rows| then
          if rows[k].owner == input.owner && rows[k].hash == input.hash then (rows, NotInserted)
          else (rows, Failed(Forbidden))
        else if Clashes(rows, RowOf(input, series, supersedes)) then (rows, NotInserted)
        else if supersedes.Some? && supersedes.value != input.id && FindId(rows, supersedes.value) == |rows|
        then (rows, Failed(ConstraintViolated))
        else (rows + [RowOf(input, series, supersedes)], Inserted)
  }

  /** The transaction over a batch: the first failure undoes all of it. */
  function IngestAll(rows: seq<Row>, inputs: seq<Input>): (seq<Row>, Option<IngestError>) {
    if inputs == [] then (rows, None)
    else
      var (before, error) := IngestAll(rows, inputs[..|inputs| - 1]);
      if error.Some? then (rows, error)
      else
        var (after, out) := Ingest(before, inputs[|inputs| - 1]);
        if out.Failed? then (rows, Some(out.error)) else (after, None)
  }

  class ObservationTable {
    var rows: seq<Row>

    method IngestOne(input: Input) returns (out: Outcome)
      modifies this
      ensures (rows, out) == Ingest(old(rows), input)
    {
      if input.revision < 1 {
        return Failed(InvalidInput);
      }
      if input.series.None? {
        return Failed(NotFound);
      }
      var series := input.series.value;
      var supersedes := input.supersedes;
      if supersedes.None? && input.revision > 1 {
        var prior := Prior(rows, series, input.period, input.revision);
        if prior.None? {
          return Failed(RevisionConflict);
        }
        supersedes := Some(rows[prior.value].id);
      }
      if supersedes.Some? {
        var priorRevision := RevisionOf(rows, supersedes.value, series, input.period);
        if priorRevision != input.revision - 1 {
          return Failed(RevisionConflict);
        }
      }
      var k := FindId(rows, input.id);
      if k < |rows| {
        if rows[k].owner != input.owner || rows[k].hash != input.hash {
          return Failed(Forbidden);
        }
        return NotInserted;
      }
      var row := RowOf(input, series, supersedes);
      if Clashes(rows, row) {
        return NotInserted;
      }
      if supersedes.Some? && supersedes.value != input.id && FindId(rows, supersedes.value) == |rows| {
        return Failed(ConstraintViolated);
      }
      rows := rows + [row];
      out := Inserted;
    }

    method IngestObservations(inputs: seq<Input>) returns (inserted: seq<nat>, error: Option<IngestError>)
      modifies this
      ensures (rows, error) == IngestAll(old(rows), inputs)
      ensures error.Some? ==> inserted == []
      ensures error.None? ==> |rows| == |old(rows)| + |inserted| && rows[..|old(rows)|] == old(rows)
      ensures error.None? ==> forall k :: 0 <= k < |inserted| ==> rows[|old(rows)| + k].id == inserted[k]
    {
      var before := rows;
      inserted := [];
      for i := 0 to |inputs|
        invariant IngestAll(before, inputs[..i]) == (rows, None)
        invariant |rows| == |before| + |inserted| && rows[..|before|] == before
        invariant forall k :: 0 <= k < |inserted| ==> rows[|before| + k].id == inserted[k]
      {
        assert inputs[..i + 1][..i] == inputs[..i];
        var out := IngestOne(inputs[i]);
        if out.Failed? {
          rows := before;
          FailureStays(before, inputs, i + 1);
          return [], Some(out.error);
        }
        if out == Inserted {
          inserted := inserted + [inputs[i].id];
        }
      }
      assert inputs[..|inputs|] == inputs;
      error := None;
    }
  }

  lemma {:induction false} FailureStays(rows: seq<Row>, inputs: seq<Input>, i: nat)
    requires i <= |inputs| && IngestAll(rows, inputs[..i]).1.Some?
    ensures IngestAll(rows, inputs) == IngestAll(rows, inputs[..i]) && IngestAll(rows, inputs).0 == rows
    decreases |inputs|
  {
    if i == |inputs| {
      assert inputs[..i] == inputs;
    } else {
      assert inputs[..|inputs| - 1][..i] == inputs[..i];
      FailureStays(rows, inputs[..|inputs| - 1], i);
    }
  }

  // ---------------------------------------------------------------- no gaps

  predicate Precedes(p: Row, r: Row)
    requires r.supersedes.Some?
  {
    p.id == r.supersedes.value && InPeriod(p, r.series, r.period) && p.revision == r.revision - 1
  }

  /** The row a revision above 1 supersedes is the revision just below, of the same series and period. */
  ghost predicate Linked(rows: seq<Row>, r: Row) {
    && r.revision >= 1
    && (r.revision > 1 ==> r.supersedes.Some? && (exists k :: 0 <= k < |rows| && Precedes(rows[k], r)))
  }

  ghost predicate Chained(rows: seq<Row>) {
    (forall k :: 0 <= k < |rows| ==> Linked(rows, rows[k]))
      && forall j, k :: 0 <= j < k < |rows| ==> rows[j].id != rows[k].id
  }

  lemma IngestKeepsChained(rows: seq<Row>, input: Input)
    requires Chained(rows)
    ensures Chained(Ingest(rows, input).0) && rows <= Ingest(rows, input).0
  {
    hide Linked;
    hide Superseded, Prior, RevisionOf, Clashes;
    var (after, out) := Ingest(rows, input);
    if out == Inserted {
      NewRowIsLinked(rows, input);
      forall k | 0 <= k < |after| ensures Linked(after, after[k]) {
        LinkStays(rows, after, after[k]);
      }
    }
  }

  lemma NewRowIsLinked(rows: seq<Row>, input: Input)
    requires Ingest(rows, input).1 == Inserted
    ensures var after := Ingest(rows, input).0;
            |after| == |rows| + 1 && after[..|rows|] == rows && Linked(rows, after[|rows|])
  {
    hide Prior, Clashes, FindId;
  }

  lemma LinkStays(rows: seq<Row>, after: seq<Row>, r: Row)
    requires Linked(rows, r) && rows <= after
    ensures Linked(after, r)
  {
    if r.revision > 1 {
      var k :| 0 <= k < |rows| && Precedes(rows[k], r);
      assert after[k] == rows[k];
    }
  }

  lemma {:induction false} BatchKeepsChained(rows: seq<Row>, inputs: seq<Input>)
    requires Chained(rows)
    ensures Chained(IngestAll(rows, inputs).0)
    decreases |inputs|
  {
    hide Chained, Ingest;
    if inputs != [] {
      BatchKeepsChained(rows, inputs[..|inputs| - 1]);
      IngestKeepsChained(IngestAll(rows, inputs[..|inputs| - 1]).0, inputs[|inputs| - 1]);
    }
  }

  /** The table after any history of batches. */
  function AfterBatches(batches: seq<seq<Input>>): seq<Row> {
    if batches == [] then [] else IngestAll(AfterBatches(batches[..|batches| - 1]), batches[|batches| - 1]).0
  }

  lemma {:induction false} AlwaysChained(batches: seq<seq<Input>>)
    ensures Chained(AfterBatches(batches))
  {
    if batches != [] {
      AlwaysChained(batches[..|batches| - 1]);
      BatchKeepsChained(AfterBatches(batches[..|batches| - 1]), batches[|batches| - 1]);
    }
  }

  /** The revisions of a period have no gap: below any row stands one of every revision from 1 on. */
  lemma {:induction false} RevisionsHaveNoGaps(batches: seq<seq<Input>>, k: nat, revision: int) returns (j: nat)
    requires var rows := AfterBatches(batches); k < |rows| && 1 <= revision <= rows[k].revision
    ensures var rows := AfterBatches(batches);
            j < |rows| && InPeriod(rows[j], rows[k].series, rows[k].period) && rows[j].revision == revision
    decreases AfterBatches(batches)[k].revision
  {
    AlwaysChained(batches);
    var rows := AfterBatches(batches);
    var r := rows[k];
    assert Linked(rows, r);
    if r.revision == revision {
      j := k;
    } else {
      var l :| 0 <= l < |rows| && Precedes(rows[l], r);
      j := RevisionsHaveNoGaps(batches, l, revision);
    }
  }

  // ---------------------------------------------------------------- where revisions are not unique

  ghost predicate RevisionsUnique(rows: seq<Row>) {
    forall j, k :: 0 <= j < k < |rows| && InPeriod(rows[k], rows[j].series, rows[j].period) ==>
      rows[j].revision != rows[k].revision
  }

  predicate RevisionTaken(rows: seq<Row>, input: Input) {
    input.series.Some? && exists k ::
      0 <= k < |rows| && InPeriod(rows[k], input.series.value, input.period) && rows[k].revision == input.revision
  }

  /** An insert keeps the revisions of every period distinct exactly when the revision was not there yet. */
  lemma InsertKeepsUniqueIff(rows: seq<Row>, input: Input)
    requires RevisionsUnique(rows) && Ingest(rows, input).1 == Inserted
    ensures RevisionsUnique(Ingest(rows, input).0) <==> !RevisionTaken(rows, input)
  {
    var after := Ingest(rows, input).0;
    var n := |rows|;
    assert after[n].series == input.series.value && after[n].period == input.period
           && after[n].revision == input.revision;
    if RevisionTaken(rows, input) {
      var k :| 0 <= k < |rows| && InPeriod(rows[k], input.series.value, input.period)
        && rows[k].revision == input.revision;
      assert after[k] == rows[k] && InPeriod(after[n], after[k].series, after[k].period);
    }
  }

  /** Two records of one revision that differ in content are both accepted. */
  lemma OneRevisionTwice()
    ensures var rows := AfterBatches([[Input(1, None, 1, 1, Some(1), 0, 1, None)],
            [Input(2, None, 1, 2, Some(1), 0, 1, None)]]);
            |rows| == 2 && !RevisionsUnique(rows)
  {
    var a, b := Input(1, None, 1, 1, Some(1), 0, 1, None), Input(2, None, 1, 2, Some(1), 0, 1, None);
    var rows := OneRow(a);
    assert [[a], [b]][..1] == [[a]];
    OneInput(rows, b);
    assert rows[1..] == [];
    assert FindId(rows, 2) == 1;
    assert !Clashes(rows, RowOf(b, 1, None));
    var after := AfterBatches([[a], [b]]);
    assert after == rows + [RowOf(b, 1, None)];
    assert InPeriod(after[1], after[0].series, after[0].period);
  }

  lemma OneInput(rows: seq<Row>, input: Input)
    ensures var (after, out) := Ingest(rows, input);
            IngestAll(rows, [input]) == if out.Failed? then (rows, Some(out.error)) else (after, None)
  {
    assert [input][..0] == [];
  }

  // ---------------------------------------------------------------- where a link is wrong

  /** What the row supersedes, if anything, is the revision just below it, of the same series and period. */
  ghost predicate RightLink(rows: seq<Row>, r: Row) {
    r.supersedes.Some? ==> exists k :: 0 <= k < |rows| && Precedes(rows[k], r)
  }

  /** An inserted row's link is right exactly unless it is a first revision that names a superseded row: the lookup that
      finds no such row in the period reads revision 0, which is just below 1. */
  lemma LinkIsRightIff(rows: seq<Row>, input: Input)
    requires Chained(rows) && Ingest(rows, input).1 == Inserted
    ensures var after := Ingest(rows, input).0;
            |after| == |rows| + 1
              && (RightLink(after, after[|rows|]) <==> !(input.revision == 1 && input.supersedes.Some?))
  {
    hide Ingest, Chained;
    IngestKeepsChained(rows, input);
    NewRowIsLinked(rows, input);
    InsertedRow(rows, input);
    var after := Ingest(rows, input).0;
    var r := after[|rows|];
    if input.revision == 1 && input.supersedes.Some? {
      forall k | 0 <= k < |after| ensures !Precedes(after[k], r) {
        RevisionsStartAtOne(after, k);
      }
    } else if r.supersedes.Some? {
      LinkStays(rows, after, r);
    }
  }

  lemma InsertedRow(rows: seq<Row>, input: Input)
    requires Ingest(rows, input).1 == Inserted
    ensures var after := Ingest(rows, input).0;
            && |after| == |rows| + 1 && after[|rows|].revision == input.revision >= 1
            && (input.revision == 1 ==> after[|rows|].supersedes == input.supersedes)
  {
    hide Prior, RevisionOf, Clashes, FindId;
  }

  lemma RevisionsStartAtOne(rows: seq<Row>, k: nat)
    requires Chained(rows) && k < |rows|
    ensures rows[k].revision >= 1
  {
    assert Linked(rows, rows[k]);
  }

  /** A history that reaches a wrong link: the first revision of series 2 supersedes the row of series 1. */
  lemma FirstRevisionSupersedesElsewhere()
    ensures var rows := AfterBatches([[Input(1, None, 1, 1, Some(1), 0, 1, None)],
            [Input(2, None, 2, 2, Some(2), 0, 1, Some(1))]]);
            |rows| == 2 && rows[1].supersedes == Some(rows[0].id) && rows[1].series != rows[0].series
              && !RightLink(rows, rows[1])
  {
    var a, b := Input(1, None, 1, 1, Some(1), 0, 1, None), Input(2, None, 2, 2, Some(2), 0, 1, Some(1));
    var rows := OneRow(a);
    assert [[a], [b]][..1] == [[a]];
    OneInput(rows, b);
    assert rows[1..] == [];
    assert FindId(rows, 2) == 1 && FindId(rows, 1) == 0;
    assert !Clashes(rows, RowOf(b, 2, Some(1)));
    var after := AfterBatches([[a], [b]]);
    assert after == rows + [RowOf(b, 2, Some(1))];
  }

  lemma OneRow(a: Input) returns (rows: seq<Row>)
    requires a == Input(1, None, 1, 1, Some(1), 0, 1, None)
    ensures rows == [RowOf(a, 1, None)] && AfterBatches([[a]]) == rows
  {
    assert [[a]][..0] == [];
    OneInput([], a);
    rows := AfterBatches([[a]]);
    assert rows == IngestAll(AfterBatches([]), [a]).0 && AfterBatches([]) == [];
  }
}
