/** Point-in-time snapshots of observation records (futures/observations.go). Periods are ISO dates, compared as
    numbers; times are numbers. */
module Observations {
  datatype Record = Record(id: nat, series: nat, period: int, revision: int, value: real, usableAt: int)

  /** The part of a record set a snapshot looks at. */
  predicate Usable(r: Record, asOf: int, series: nat) {
    r.series == series && r.usableAt <= asOf
  }

  type Selection = map<int, Record>

  /** The loop's map: for each period the first of the records with the greatest revision. */
  function Select(records: seq<Record>, asOf: int, series: nat): Selection {
    if records == [] then map[]
    else Offer(Select(records[..|records| - 1], asOf, series), records[|records| - 1], asOf, series)
  }

  function Offer(selected: Selection, r: Record, asOf: int, series: nat): Selection {
    if !Usable(r, asOf, series) || (r.period in selected && r.revision <= selected[r.period].revision) then selected
    else selected[r.period := r]
  }

  /** The records of a selection, one a period, by period. */
  ghost predicate Lists(out: seq<Record>, selected: Selection) {
    && (forall k :: 0 <= k < |out| ==> out[k].period in selected && selected[out[k].period] == out[k])
    && (forall p :: p in selected ==> exists k :: 0 <= k < |out| && out[k].period == p)
    && forall j, k :: 0 <= j < k < |out| ==> out[j].period < out[k].period
  }

  // ---------------------------------------------------------------- sorting

  ghost predicate SortedBy(xs: seq<Record>, key: Record -> int) {
    forall j, k :: 0 <= j < k < |xs| ==> key(xs[j]) <= key(xs[k])
  }

  ghost predicate DistinctBy(xs: seq<Record>, key: Record -> int) {
    forall j, k :: 0 <= j < k < |xs| ==> key(xs[j]) != key(xs[k])
  }

  /** Puts `x` in its place among sorted records. */
  method Insert(xs: seq<Record>, x: Record, key: Record -> int) returns (out: seq<Record>)
    requires SortedBy(xs, key)
    ensures SortedBy(out, key) && multiset(out) == multiset(xs) + multiset{x}
    ensures DistinctBy(xs, key) && (forall k :: 0 <= k < |xs| ==> key(xs[k]) != key(x)) ==> DistinctBy(out, key)
  {
    var j := 0;
    while j < |xs| && key(xs[j]) <= key(x)
      invariant j <= |xs| && forall k :: 0 <= k < j ==> key(xs[k]) <= key(x)
    {
      j := j + 1;
    }
    assert xs == xs[..j] + xs[j..];
    out := xs[..j] + [x] + xs[j..];
    InsertedInOrder(xs, x, j, key);
  }

  lemma InsertedInOrder(xs: seq<Record>, x: Record, j: nat, key: Record -> int)
    requires j <= |xs| && SortedBy(xs, key)
    requires (forall k :: 0 <= k < j ==> key(xs[k]) <= key(x)) && (j < |xs| ==> key(x) < key(xs[j]))
    ensures SortedBy(xs[..j] + [x] + xs[j..], key)
    ensures DistinctBy(xs, key) && (forall k :: 0 <= k < |xs| ==> key(xs[k]) != key(x)) ==>
            DistinctBy(xs[..j] + [x] + xs[j..], key)
  {
    var out := xs[..j] + [x] + xs[j..];
    forall k | 0 <= k < |out| ensures out[k] == if k < j then xs[k] else if k == j then x else xs[k - 1] {
    }
    forall a, b | 0 <= a < b < |out| ensures key(out[a]) <= key(out[b]) {
      if a == j {
        assert key(xs[j]) <= key(xs[b - 1]);
      }
    }
  }

  /** Stands for sort.Slice, which promises no more than a sorted rearrangement. */
  method Sort(xs: seq<Record>, key: Record -> int) returns (out: seq<Record>)
    ensures SortedBy(out, key) && multiset(out) == multiset(xs)
    ensures DistinctBy(xs, key) ==> DistinctBy(out, key)
  {
    out := [];
    for i := 0 to |xs|
      invariant SortedBy(out, key) && multiset(out) == multiset(xs[..i])
      invariant DistinctBy(xs, key) ==> DistinctBy(out, key)
    {
      assert xs[..i + 1] == xs[..i] + [xs[i]];
      forall k | 0 <= k < |out| ensures exists j :: 0 <= j < i && xs[j] == out[k] {
        assert out[k] in multiset(out);
        assert out[k] in xs[..i];
      }
      out := Insert(out, xs[i], key);
    }
    assert xs[..|xs|] == xs;
  }

  // ---------------------------------------------------------------- the two queries

  lemma SomeMember<T>(s: set<T>) returns (x: T)
    requires s != {}
    ensures x in s
  {
    x :| x in s;
  }

  /** The values of the map, in whatever order it is walked. */
  method ValuesOf(selected: Selection) returns (values: seq<Record>)
    requires forall p :: p in selected ==> selected[p].period == p
    ensures forall k :: 0 <= k < |values| ==> values[k].period in selected && selected[values[k].period] == values[k]
    ensures forall p :: p in selected ==> selected[p] in values
    ensures DistinctBy(values, (r: Record) => r.period)
  {
    var todo := selected.Keys;
    values := [];
    while todo != {}
      invariant todo <= selected.Keys
      invariant forall k :: 0 <= k < |values| ==>
                values[k].period in selected && values[k].period !in todo && selected[values[k].period] == values[k]
      invariant forall p :: p in selected && p !in todo ==> selected[p] in values
      invariant DistinctBy(values, (r: Record) => r.period)
      decreases |todo|
    {
      ghost var some := SomeMember(todo);
      var p :| p in todo;
      todo := todo - {p};
      values := values + [selected[p]];
    }
  }

  method Snapshot(records: seq<Record>, asOf: int, series: nat) returns (out: seq<Record>)
    ensures Lists(out, Select(records, asOf, series))
  {
    var selected: Selection := map[];
    for i := 0 to |records|
      invariant selected == Select(records[..i], asOf, series)
    {
      assert records[..i + 1][..i] == records[..i];
      var record := records[i];
      if record.series != series || record.usableAt > asOf {
        continue;
      }
      if record.period !in selected || record.revision > selected[record.period].revision {
        selected := selected[record.period := record];
      }
    }
    assert records[..|records|] == records;
    PeriodsAreKeys(records, asOf, series);
    var values := ValuesOf(selected);
    out := Sort(values, (r: Record) => r.period);
    SortedValuesList(values, out, selected);
  }

  lemma SortedValuesList(values: seq<Record>, out: seq<Record>, selected: Selection)
    requires multiset(out) == multiset(values)
    requires SortedBy(out, (r: Record) => r.period) && DistinctBy(out, (r: Record) => r.period)
    requires forall k :: 0 <= k < |values| ==> values[k].period in selected && selected[values[k].period] == values[k]
    requires forall p :: p in selected ==> selected[p] in values && selected[p].period == p
    ensures Lists(out, selected)
  {
    forall k | 0 <= k < |out| ensures out[k] in values {
      assert out[k] in multiset(out);
    }
    forall p | p in selected ensures exists k :: 0 <= k < |out| && out[k].period == p {
      assert selected[p] in multiset(values);
      assert selected[p] in out;
    }
    var key := (r: Record) => r.period;
    forall j, k | 0 <= j < k < |out| ensures out[j].period < out[k].period {
      assert key(out[j]) <= key(out[k]) && key(out[j]) != key(out[k]);
    }
  }

  method RevisionHistory(records: seq<Record>, series: nat, period: int) returns (out: seq<Record>)
    ensures SortedBy(out, (r: Record) => r.revision)
    ensures forall r :: multiset(out)[r] == if r.series == series && r.period == period then multiset(records)[r] else 0
  {
    out := [];
    for i := 0 to |records|
      invariant forall r ::
                multiset(out)[r] == if r.series == series && r.period == period then multiset(records[..i])[r] else 0
    {
      assert records[..i + 1] == records[..i] + [records[i]];
      var record := records[i];
      if record.series == series && record.period == period {
        out := out + [record];
      }
    }
    assert records[..|records|] == records;
    out := Sort(out, (r: Record) => r.revision);
  }

  ghost predicate KeyedByPeriod(selected: Selection, asOf: int, series: nat) {
    forall p :: p in selected ==> selected[p].period == p && Usable(selected[p], asOf, series)
  }

  lemma {:induction false} PeriodsAreKeys(records: seq<Record>, asOf: int, series: nat)
    ensures KeyedByPeriod(Select(records, asOf, series), asOf, series)
  {
    if records != [] {
      PeriodsAreKeys(records[..|records| - 1], asOf, series);
    }
  }

  // ---------------------------------------------------------------- what a snapshot is

  /** The greatest revision of the usable records of `period`, with no other usable record above it. */
  ghost predicate Greatest(records: seq<Record>, asOf: int, series: nat, i: nat) {
    && i < |records| && Usable(records[i], asOf, series)
    && forall j :: 0 <= j < |records| && Usable(records[j], asOf, series) && records[j].period == records[i].period ==>
         records[j].revision <= records[i].revision
  }

  /** Of the usable records with the greatest revision of their period, the first is selected, and nothing else. */
  lemma {:induction false} SelectsFirstGreatest(records: seq<Record>, asOf: int, series: nat, p: int) returns (i: nat)
    ensures p !in Select(records, asOf, series) ==>
            forall j :: 0 <= j < |records| && Usable(records[j], asOf, series) ==> records[j].period != p
    ensures p in Select(records, asOf, series) ==>
              && Greatest(records, asOf, series, i) && records[i].period == p
              && Select(records, asOf, series)[p] == records[i]
              && forall j :: 0 <= j < i && Usable(records[j], asOf, series) && records[j].period == p ==>
                records[j].revision < records[i].revision
    decreases |records|
  {
    i := 0;
    if records != [] {
      var n := |records| - 1;
      i := SelectsFirstGreatest(records[..n], asOf, series, p);
      var before := Select(records[..n], asOf, series);
      var r := records[n];
      assert Select(records, asOf, series) == Offer(before, r, asOf, series);
      assert forall j :: 0 <= j < n ==> records[..n][j] == records[j];
      if r.period == p && Offer(before, r, asOf, series) != before {
        i := n;
      }
    }
  }

  /** Records usable only later change nothing: only the usable ones count, in their order. */
  lemma {:induction false} LaterRecordsAreIgnored(records: seq<Record>, asOf: int, series: nat)
    ensures Select(records, asOf, series) == Select(OnlyUsable(records, asOf, series), asOf, series)
    decreases |records|
  {
    if records != [] {
      var n := |records| - 1;
      LaterRecordsAreIgnored(records[..n], asOf, series);
      var rest := OnlyUsable(records[..n], asOf, series);
      assert (rest + [records[n]])[..|rest|] == rest && rest + [] == rest;
    }
  }

  function OnlyUsable(records: seq<Record>, asOf: int, series: nat): seq<Record> {
    if records == [] then []
    else OnlyUsable(records[..|records| - 1], asOf, series) +
         if Usable(records[|records| - 1], asOf, series) then [records[|records| - 1]] else []
  }

  /** A later as-of day forgets no period and never goes back to a smaller revision. */
  lemma MonotoneInAsOf(records: seq<Record>, early: int, late: int, series: nat, p: int)
    requires early <= late && p in Select(records, early, series)
    ensures p in Select(records, late, series)
    ensures Select(records, early, series)[p].revision <= Select(records, late, series)[p].revision
  {
    var i := SelectsFirstGreatest(records, early, series, p);
    var j := SelectsFirstGreatest(records, late, series, p);
    assert Usable(records[i], late, series);
  }

  // ---------------------------------------------------------------- the order of the records

  /** No two different usable records share the greatest revision of a period. */
  ghost predicate TopsAreUnique(records: seq<Record>, asOf: int, series: nat) {
    forall i: nat, j: nat ::
      Greatest(records, asOf, series, i) && Greatest(records, asOf, series, j)
      && records[i].period == records[j].period ==>
        records[i] == records[j]
  }

  ghost predicate OrderIndependent(records: seq<Record>, asOf: int, series: nat) {
    forall other: seq<Record> :: multiset(other) == multiset(records) ==>
      Select(other, asOf, series) == Select(records, asOf, series)
  }

  lemma SameRecordsSameGreatest(records: seq<Record>, other: seq<Record>, asOf: int, series: nat, i: nat, k: nat)
    requires multiset(other) == multiset(records) && i < |records| && k < |other| && other[k] == records[i]
    requires Greatest(records, asOf, series, i)
    ensures Greatest(other, asOf, series, k)
  {
    forall j | 0 <= j < |other| && Usable(other[j], asOf, series) && other[j].period == other[k].period
      ensures other[j].revision <= other[k].revision
    {
      var l := SameElement(records, other, j);
    }
  }

  lemma SameElement(records: seq<Record>, other: seq<Record>, k: nat) returns (j: nat)
    requires multiset(other) == multiset(records) && k < |other|
    ensures j < |records| && records[j] == other[k]
  {
    assert other[k] in multiset(other);
    assert other[k] in records;
    j :| 0 <= j < |records| && records[j] == other[k];
  }

  /** With unique tops any order of the records gives the same selection. */
  lemma UniqueTopsIgnoreOrder(records: seq<Record>, other: seq<Record>, asOf: int, series: nat, p: int)
    requires multiset(other) == multiset(records) && TopsAreUnique(records, asOf, series)
    ensures var a, b := Select(records, asOf, series), Select(other, asOf, series);
            (p in a <==> p in b) && (p in a ==> a[p] == b[p])
  {
    hide Select, Greatest;
    var i := SelectsFirstGreatest(records, asOf, series, p);
    var k := SelectsFirstGreatest(other, asOf, series, p);
    if p in Select(records, asOf, series) {
      StillSelected(records, other, asOf, series, i);
    }
    if p in Select(other, asOf, series) {
      StillSelected(other, records, asOf, series, k);
      var j := SameElement(records, other, k);
      SameRecordsSameGreatest(other, records, asOf, series, k, j);
    }
  }

  /** A period with a usable record is selected from any rearrangement. */
  lemma StillSelected(records: seq<Record>, other: seq<Record>, asOf: int, series: nat, i: nat)
    requires multiset(other) == multiset(records) && Greatest(records, asOf, series, i)
    ensures records[i].period in Select(other, asOf, series)
  {
    var k := SelectsFirstGreatest(other, asOf, series, records[i].period);
    var j := SameElement(other, records, i);
  }

  function ToFront(records: seq<Record>, i: nat): seq<Record>
    requires i < |records|
  {
    [records[i]] + records[..i] + records[i + 1..]
  }

  /** A greatest record put first is the one selected. */
  lemma FrontWins(records: seq<Record>, asOf: int, series: nat, i: nat)
    requires Greatest(records, asOf, series, i)
    ensures multiset(ToFront(records, i)) == multiset(records)
    ensures var s := Select(ToFront(records, i), asOf, series);
            records[i].period in s && s[records[i].period] == records[i]
  {
    hide Select;
    var other := ToFront(records, i);
    assert records == records[..i] + [records[i]] + records[i + 1..];
    assert other[0] == records[i];
    SameRecordsSameGreatest(records, other, asOf, series, i, 0);
    var k := SelectsFirstGreatest(other, asOf, series, records[i].period);
    assert k == 0;
  }

  /** A snapshot is independent of the order of its records exactly when no period's greatest revision is shared by
      two different usable records. */
  lemma OrderIndependentIff(records: seq<Record>, asOf: int, series: nat)
    ensures OrderIndependent(records, asOf, series) <==> TopsAreUnique(records, asOf, series)
  {
    hide Select, Greatest;
    if TopsAreUnique(records, asOf, series) {
      forall other: seq<Record> | multiset(other) == multiset(records)
        ensures Select(other, asOf, series) == Select(records, asOf, series)
      {
        forall p: int ensures var a, b := Select(records, asOf, series), Select(other, asOf, series);
                              (p in a <==> p in b) && (p in a ==> a[p] == b[p])
        {
          UniqueTopsIgnoreOrder(records, other, asOf, series, p);
        }
      }
    }
    if OrderIndependent(records, asOf, series) {
      forall i: nat, j: nat | Greatest(records, asOf, series, i) && Greatest(records, asOf, series, j)
        && InBoth(records, i, j)
        ensures records[i] == records[j]
      {
        FrontWins(records, asOf, series, i);
        FrontWins(records, asOf, series, j);
      }
      TopsFromPairs(records, asOf, series);
    }
  }

  predicate InBoth(records: seq<Record>, i: nat, j: nat) {
    i < |records| && j < |records| && records[i].period == records[j].period
  }

  lemma TopsFromPairs(records: seq<Record>, asOf: int, series: nat)
    requires forall i: nat, j: nat ::
               Greatest(records, asOf, series, i) && Greatest(records, asOf, series, j) && InBoth(records, i, j) ==>
                 records[i] == records[j]
    ensures TopsAreUnique(records, asOf, series)
  {
  }

  /** Two listings of one selection are the same sequence. */
  lemma {:induction false} ListingIsUnique(a: seq<Record>, b: seq<Record>, selected: Selection)
    requires Lists(a, selected) && Lists(b, selected)
    ensures a == b
    decreases |a|
  {
    EmptyListing(a, selected);
    EmptyListing(b, selected);
    if a != [] {
      var x, y := a[|a| - 1], b[|b| - 1];
      LastsAgree(a, b, selected);
      var rest := selected - {x.period};
      ListsWithoutLast(a, selected);
      ListsWithoutLast(b, selected);
      ListingIsUnique(a[..|a| - 1], b[..|b| - 1], rest);
      assert a == a[..|a| - 1] + [x] && b == b[..|b| - 1] + [y];
    }
  }

  lemma EmptyListing(a: seq<Record>, selected: Selection)
    requires Lists(a, selected)
    ensures a == [] <==> selected == map[]
  {
    assert a != [] ==> a[0].period in selected;
    if a == [] {
      assert forall p :: p !in selected;
      assert selected.Keys == {};
    }
  }

  lemma LastsAgree(a: seq<Record>, b: seq<Record>, selected: Selection)
    requires Lists(a, selected) && Lists(b, selected) && a != [] && b != []
    ensures a[|a| - 1] == b[|b| - 1]
  {
    var x, y := a[|a| - 1], b[|b| - 1];
    var i :| 0 <= i < |a| && a[i].period == y.period;
    var j :| 0 <= j < |b| && b[j].period == x.period;
  }

  lemma ListsWithoutLast(a: seq<Record>, selected: Selection)
    requires Lists(a, selected) && a != []
    ensures Lists(a[..|a| - 1], selected - {a[|a| - 1].period})
  {
    var n := |a| - 1;
    forall p | p in selected && p != a[n].period ensures exists k :: 0 <= k < n && a[..n][k].period == p {
      var k :| 0 <= k < |a| && a[k].period == p;
      assert a[..n][k].period == p;
    }
  }
}
