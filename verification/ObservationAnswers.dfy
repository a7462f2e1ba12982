/** What ingesting an observation and asking for a snapshot answer, over the stored rows and records alone. */
module ObservationAnswers {
  import opened Common
  import opened ObservationIngest
  import Observations

  // ---------------------------------------------------------------- lookups

  /** Some row of the period has this revision. */
  ghost predicate HasRevision(rows: seq<Row>, series: nat, period: int, revision: int) {
    exists k :: 0 <= k < |rows| && rows[k].series == series && rows[k].period == period && rows[k].revision == revision
  }

  ghost predicate HasId(rows: seq<Row>, id: nat) {
    exists k :: 0 <= k < |rows| && rows[k].id == id
  }

  /** The row with this id is of the period and has this revision. */
  ghost predicate Names(rows: seq<Row>, id: nat, series: nat, period: int, revision: int) {
    exists k :: 0 <= k < |rows| && rows[k].id == id && rows[k].series == series && rows[k].period == period
                && rows[k].revision == revision
  }

  ghost predicate NamesAny(rows: seq<Row>, id: nat, series: nat, period: int) {
    exists k :: 0 <= k < |rows| && rows[k].id == id && rows[k].series == series && rows[k].period == period
  }

  predicate IsBelow(r: Row, series: nat, period: int, revision: int) {
    r.series == series && r.period == period && r.revision < revision
  }

  lemma {:induction false} PriorIsGreatest(rows: seq<Row>, series: nat, period: int, revision: int)
    ensures var k := Prior(rows, series, period, revision);
            forall j :: 0 <= j < |rows| && IsBelow(rows[j], series, period, revision) ==>
              k.Some? && rows[j].revision <= rows[k.value].revision
    decreases |rows|
  {
    if rows != [] {
      var n := |rows| - 1;
      PriorIsGreatest(rows[..n], series, period, revision);
      assert forall j :: 0 <= j < n ==> rows[..n][j] == rows[j];
    }
  }

  lemma {:induction false} RevisionOfSome(rows: seq<Row>, id: nat, series: nat, period: int)
    ensures NamesAny(rows, id, series, period) ==>
              Names(rows, id, series, period, RevisionOf(rows, id, series, period))
    ensures !NamesAny(rows, id, series, period) ==> RevisionOf(rows, id, series, period) == 0
    decreases |rows|
  {
    if rows != [] && !(rows[0].id == id && InPeriod(rows[0], series, period)) {
      RevisionOfSome(rows[1..], id, series, period);
      assert forall k :: 0 <= k < |rows[1..]| ==> rows[1..][k] == rows[k + 1];
      if NamesAny(rows, id, series, period) {
        var k :| 0 <= k < |rows| && rows[k].id == id && rows[k].series == series && rows[k].period == period;
        assert rows[1..][k - 1].id == id;
      }
    }
  }

  /** With one row an id and no revision below 1, the lookup by id answers a revision exactly if
      that row has it, and zero
      exactly without such a row. */
  lemma RevisionOfIff(rows: seq<Row>, id: nat, series: nat, period: int, revision: int)
    requires Chained(rows)
    ensures revision >= 1 ==>
              (RevisionOf(rows, id, series, period) == revision <==> Names(rows, id, series, period, revision))
    ensures RevisionOf(rows, id, series, period) == 0 <==> !NamesAny(rows, id, series, period)
  {
    RevisionOfSome(rows, id, series, period);
    forall k | 0 <= k < |rows| ensures rows[k].revision >= 1 {
      assert Linked(rows, rows[k]);
    }
    if NamesAny(rows, id, series, period) {
      var j :| 0 <= j < |rows| && rows[j].id == id && rows[j].series == series && rows[j].period == period
        && rows[j].revision == RevisionOf(rows, id, series, period);
      assert forall k :: 0 <= k < |rows| && rows[k].id == id ==> k == j;
    }
  }

  // ---------------------------------------------------------------- the answers to an input

  /** The input fits the chain of its period: it follows the revision just below, the one it
      names if it names one; a first
      revision names nothing of its own period. */
  ghost predicate Follows(rows: seq<Row>, input: Input, series: nat) {
    match input.supersedes
    case Some(id) =>
      if input.revision == 1 then !NamesAny(rows, id, series, input.period)
      else Names(rows, id, series, input.period, input.revision - 1)
    case None => input.revision == 1 || HasRevision(rows, series, input.period, input.revision - 1)
  }

  /** The tables already hold this content from this source, or as this revision. */
  ghost predicate Stored(rows: seq<Row>, input: Input, series: nat) {
    exists k :: 0 <= k < |rows| && rows[k].hash == input.hash && SameOrigin(rows[k], input, series)
  }

  predicate SameOrigin(r: Row, input: Input, series: nat) {
    r.source == input.source || (r.series == series && r.period == input.period && r.revision == input.revision)
  }

  ghost predicate SameContent(rows: seq<Row>, input: Input) {
    exists k :: 0 <= k < |rows| && rows[k].id == input.id && rows[k].owner == input.owner && rows[k].hash == input.hash
  }

  /** The row an inserted input becomes. */
  ghost predicate BecomesRow(rows: seq<Row>, input: Input, series: nat, r: Row) {
    && r.id == input.id && r.owner == input.owner && r.source == input.source && r.hash == input.hash
    && r.series == series && r.period == input.period && r.revision == input.revision
    && (input.supersedes.Some? || input.revision == 1 ==> r.supersedes == input.supersedes)
    && (input.supersedes.None? && input.revision > 1 ==>
          r.supersedes.Some? && Names(rows, r.supersedes.value, series, input.period, input.revision - 1))
  }

  /** Without a named row: the lookup of the row below succeeds and is the revision just below,
      exactly if there is one. */
  lemma UnnamedFollows(rows: seq<Row>, input: Input, series: nat)
    requires Chained(rows) && input.supersedes.None? && input.revision > 1
    ensures var s := Superseded(rows, input, series);
            (s.Some? && RevisionOf(rows, s.value, series, input.period) == input.revision - 1) <==>
            HasRevision(rows, series, input.period, input.revision - 1)
    ensures var s := Superseded(rows, input, series);
            s.Some? && RevisionOf(rows, s.value, series, input.period) == input.revision - 1 ==>
              Names(rows, s.value, series, input.period, input.revision - 1)
  {
    hide Prior, RevisionOf, Chained;
    PriorIsGreatest(rows, series, input.period, input.revision);
    var k := Prior(rows, series, input.period, input.revision);
    if k.Some? {
      var id := rows[k.value].id;
      RevisionOfIff(rows, id, series, input.period, input.revision - 1);
      if rows[k.value].revision == input.revision - 1 {
        assert Names(rows, id, series, input.period, input.revision - 1);
      }
    }
  }

  /** The checks of the chain pass exactly if the input follows. */
  lemma ChainChecksIff(rows: seq<Row>, input: Input, series: nat)
    requires Chained(rows) && input.revision >= 1
    ensures var s := Superseded(rows, input, series);
            (!(s.None? && input.revision > 1)
             && !(s.Some? && RevisionOf(rows, s.value, series, input.period) != input.revision - 1)) <==>
            Follows(rows, input, series)
  {
    hide RevisionOf, Prior, Chained, Names, NamesAny, HasRevision;
    if input.supersedes.Some? {
      RevisionOfIff(rows, input.supersedes.value, series, input.period, input.revision - 1);
    } else if input.revision > 1 {
      UnnamedFollows(rows, input, series);
    }
  }

  lemma FoundIff(rows: seq<Row>, id: nat)
    ensures FindId(rows, id) < |rows| <==> HasId(rows, id)
  {
  }

  lemma SameContentIff(rows: seq<Row>, input: Input)
    requires Chained(rows)
    ensures var k := FindId(rows, input.id);
            SameContent(rows, input) <==>
            k < |rows| && rows[k].owner == input.owner && rows[k].hash == input.hash
  {
    var k := FindId(rows, input.id);
    if SameContent(rows, input) {
      var j :| 0 <= j < |rows| && rows[j].id == input.id && rows[j].owner == input.owner && rows[j].hash == input.hash;
      assert !(j < k) && !(k < j);
    }
  }

  lemma StoredIff(rows: seq<Row>, input: Input, series: nat, supersedes: Option<nat>)
    ensures Clashes(rows, RowOf(input, series, supersedes)) <==> Stored(rows, input, series)
  {
    if Stored(rows, input, series) {
      var k :| 0 <= k < |rows| && rows[k].hash == input.hash && SameOrigin(rows[k], input, series);
      assert rows[k].hash == RowOf(input, series, supersedes).hash;
    }
  }

  /** Each answer to an input, exactly. */
  lemma InputIsAnswered(rows: seq<Row>, input: Input)
    requires Chained(rows)
    ensures var (after, out) := Ingest(rows, input);
            if input.revision < 1 then out == Failed(InvalidInput) && after == rows
            else if input.series.None? then out == Failed(NotFound) && after == rows
            else
              var series := input.series.value;
              if !Follows(rows, input, series) then out == Failed(RevisionConflict) && after == rows
              else if SameContent(rows, input) then out == NotInserted && after == rows
              else if HasId(rows, input.id) then out == Failed(Forbidden) && after == rows
              else if Stored(rows, input, series) then out == NotInserted && after == rows
              else if NamesNothing(rows, input) then out == Failed(ConstraintViolated) && after == rows
              else
                && out == Inserted && |after| == |rows| + 1 && after[..|rows|] == rows
                && BecomesRow(rows, input, series, after[|rows|])
  {
    hide Superseded, RevisionOf, Clashes, Follows, Stored, SameContent, HasId, Chained, FindId, Names, NamesNothing;
    if input.revision >= 1 && input.series.Some? {
      var series := input.series.value;
      ChainChecksIff(rows, input, series);
      SameContentIff(rows, input);
      FoundIff(rows, input.id);
      StoredIff(rows, input, series, Superseded(rows, input, series));
      if Follows(rows, input, series) {
        SupersededIs(rows, input, series);
      }
    }
  }

  /** The input names a row that is neither stored nor itself. */
  ghost predicate NamesNothing(rows: seq<Row>, input: Input) {
    input.supersedes.Some? && input.supersedes.value != input.id && !HasId(rows, input.supersedes.value)
  }

  lemma SupersededIs(rows: seq<Row>, input: Input, series: nat)
    requires Chained(rows) && input.revision >= 1 && Follows(rows, input, series)
    ensures var s := Superseded(rows, input, series);
            && (input.supersedes.Some? || input.revision == 1 ==> s == input.supersedes)
            && (input.supersedes.None? && input.revision > 1 ==>
                  s.Some? && Names(rows, s.value, series, input.period, input.revision - 1))
            && (s.Some? && s.value != input.id && FindId(rows, s.value) == |rows| <==> NamesNothing(rows, input))
  {
    hide RevisionOf, Prior, Chained;
    if input.supersedes.Some? {
      FoundIff(rows, input.supersedes.value);
    } else if input.revision > 1 {
      UnnamedFollows(rows, input, series);
      FoundIff(rows, Superseded(rows, input, series).value);
    }
  }

  // ---------------------------------------------------------------- snapshots

  /** The record is of the series and period and usable at that time. */
  predicate Counts(r: Observations.Record, asOf: int, series: nat, period: int) {
    r.series == series && r.period == period && r.usableAt <= asOf
  }

  /** A snapshot shows a period exactly if a record of it was usable by then, and shows the
      first of those with the greatest
      revision. */
  lemma SnapshotShows(records: seq<Observations.Record>, asOf: int, series: nat, p: int)
    ensures var s := Observations.Select(records, asOf, series);
            && (p in s <==> exists j :: 0 <= j < |records| && Counts(records[j], asOf, series, p))
            && (p in s ==>
                  exists i :: 0 <= i < |records| && s[p] == records[i] && Counts(records[i], asOf, series, p)
                    && forall j :: 0 <= j < |records| && Counts(records[j], asOf, series, p) ==>
                         if j < i then records[j].revision < records[i].revision
                         else records[j].revision <= records[i].revision)
  {
    hide Observations.Select;
    var s := Observations.Select(records, asOf, series);
    var i := Observations.SelectsFirstGreatest(records, asOf, series, p);
    if p in s {
      assert Counts(records[i], asOf, series, p);
    }
  }
}
