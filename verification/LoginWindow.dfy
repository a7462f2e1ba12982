/** Passes of one key in any fifteen minutes, also those in which one bucket ends and the next begins. */
module LoginWindow {
  import opened Common
  import opened LoginLimiter

  /** The most answers of zero a key gets in any fifteen minutes. */
  const MOST_IN_ANY_WINDOW := 31

  // ---------------------------------------------------------------- buckets of a run

  /** Every bucket's attempts are spaced as the backoff demands. */
  ghost predicate AllSpaced(t: Table, now: int) {
    forall k :: k in t ==> Spaced(t[k], now)
  }

  lemma SpacedLater(b: Bucket, now: int, later: int)
    requires Spaced(b, now) && now <= later
    ensures Spaced(b, later)
  {
  }

  lemma CallKeepsSpaced(t: Table, c: Call, now: int)
    requires AllSpaced(t, now) && now <= c.now
    ensures AllSpaced(Answered(t, c).0, c.now)
  {
    hide Answered, Spaced;
    var t2 := Answered(t, c).0;
    forall k | k in t2 ensures Spaced(t2[k], c.now) {
      if k == c.key && k in t && !Expired(t[k], c.now) {
        AttemptKeepsSpacing(t, c, t[k], now);
      } else if k in t && !Expired(t[k], c.now) {
        OtherKeyStays(t, c, k);
        SpacedLater(t[k], now, c.now);
      } else {
        FirstCallOpensBucket(t, c, k);
        assert Spaced(Bucket(1, c.now, None), c.now) by { OpenedIsSpaced(c.now); }
        if k in t {
          SpacedLater(t[k], now, c.now);
        }
      }
    }
  }

  lemma OpenedIsSpaced(now: int)
    ensures Spaced(Bucket(1, now, None), now)
  {
  }

  lemma {:induction false} RunIsSpaced(calls: seq<Call>)
    requires NonDecreasing(calls)
    ensures calls == [] ==> TableAfter(calls) == map[]
    ensures calls != [] ==> AllSpaced(TableAfter(calls), calls[|calls| - 1].now)
    decreases |calls|
  {
    hide Answered;
    if calls != [] {
      var before, c := calls[..|calls| - 1], calls[|calls| - 1];
      RunIsSpaced(before);
      CallKeepsSpaced(TableAfter(before), c, if before == [] then c.now else before[|before| - 1].now);
    }
  }

  // ---------------------------------------------------------------- counting from a later moment

  /** Attempt n of the bucket comes no earlier than `origin` + Earliest(n), for every n still to come. */
  ghost predicate Paced(b: Bucket, origin: int, now: int) {
    && b.attempts >= 1 && origin + Earliest(b.attempts) <= now
    && (if b.attempts < 6 then b.next.None?
        else
          && b.next.Some?
          && (origin + Earliest(b.attempts + 1) <= b.next.value || origin + Earliest(b.attempts + 1) <= now))
  }

  lemma AttemptKeepsPace(t: Table, c: Call, origin: int, now: int)
    requires c.key in t && Paced(t[c.key], origin, now) && now <= c.now && !Expired(t[c.key], c.now)
    ensures var (t2, answer) := Answered(t, c);
            && c.key in t2 && t2[c.key].started == t[c.key].started && Paced(t2[c.key], origin, c.now)
            && t[c.key].attempts <= t2[c.key].attempts
            && PassesIn(t2[c.key].attempts) == PassesIn(t[c.key].attempts) + if answer == 0 then 1 else 0
  {
    var b := t[c.key];
    assert b.attempts >= 6 ==> Earliest(b.attempts + 2) == Earliest(b.attempts + 1) + Backoff(b.attempts + 1);
  }

  lemma PacedLater(b: Bucket, origin: int, now: int, later: int)
    requires Paced(b, origin, now) && now <= later
    ensures Paced(b, origin, later)
  {
  }

  /** The passes of a live bucket before `until` are those of the attempts up to some n that falls before `until`. */
  lemma {:induction false} PassesOfBucket(t: Table, calls: seq<Call>, key: nat, origin: int, now: int, until: int)
    returns (n: nat)
    requires key in t && Paced(t[key], origin, now) && until <= t[key].started + WINDOW && NotBefore(calls, now)
    ensures n >= t[key].attempts && PassesIn(t[key].attempts) + Passes(t, calls, key, until) == PassesIn(n)
    ensures n > t[key].attempts ==> origin + Earliest(n) < until
    decreases |calls|
  {
    hide Answered, Earliest;
    n := t[key].attempts;
    if calls != [] {
      var c := calls[0];
      if c.now >= until {
        NoPassesAfter(t, calls, key, until);
      } else {
        if c.key == key {
          AttemptKeepsPace(t, c, origin, now);
        } else {
          OtherKeyStays(t, c, key);
          PacedLater(t[key], origin, now, c.now);
        }
        n := PassesOfBucket(Answered(t, c).0, calls[1..], key, origin, c.now, until);
      }
    }
  }

  /** Without a live bucket the passes are those of the attempts of one bucket opened no earlier than `start`. */
  lemma {:induction false} PassesOfNewBucket(t: Table, calls: seq<Call>, key: nat, start: int, until: int)
    returns (n: nat)
    requires NotBefore(calls, start) && (key !in t || Expired(t[key], start)) && until <= start + WINDOW
    ensures Passes(t, calls, key, until) == PassesIn(n) && (n > 0 ==> start + Earliest(n) < until)
    decreases |calls|
  {
    hide Answered;
    n := 0;
    if calls != [] {
      var c := calls[0];
      if c.now >= until {
        NoPassesAfter(t, calls, key, until);
      } else {
        FirstCallOpensBucket(t, c, key);
        var t2 := Answered(t, c).0;
        if c.key == key && !Refused(t, c) {
          n := PassesOfBucket(t2, calls[1..], key, c.now, c.now, until);
        } else {
          n := PassesOfNewBucket(t2, calls[1..], key, start, until);
        }
      }
    }
  }

  /** A window that starts in a live bucket sees the rest of it and then at most one more. */
  lemma {:induction false} PassesOfTwo(t: Table, calls: seq<Call>, key: nat, origin: int, now: int, until: int)
    returns (n1: nat, n2: nat)
    requires key in t && Paced(t[key], origin, now) && NotBefore(calls, now)
    requires t[key].started + WINDOW <= until <= t[key].started + WINDOW + WINDOW
    ensures n1 >= t[key].attempts && (n1 > t[key].attempts ==> origin + Earliest(n1) < t[key].started + WINDOW)
    ensures n2 > 0 ==> t[key].started + WINDOW + Earliest(n2) < until
    ensures PassesIn(t[key].attempts) + Passes(t, calls, key, until) == PassesIn(n1) + PassesIn(n2)
    decreases |calls|
  {
    hide Answered, Earliest;
    var edge := t[key].started + WINDOW;
    n1, n2 := t[key].attempts, 0;
    if calls != [] {
      var c := calls[0];
      if c.now >= edge {
        n2 := PassesOfNewBucket(t, calls, key, edge, until);
      } else {
        if c.key == key {
          AttemptKeepsPace(t, c, origin, now);
        } else {
          OtherKeyStays(t, c, key);
          PacedLater(t[key], origin, now, c.now);
        }
        n1, n2 := PassesOfTwo(Answered(t, c).0, calls[1..], key, origin, c.now, until);
      }
    }
  }

  // ---------------------------------------------------------------- how many that is

  lemma EarlyAttempts()
    ensures Earliest(6) == 0 && Earliest(7) == 2 * SECOND && Earliest(8) == 6 * SECOND && Earliest(9) == 14 * SECOND
    ensures Earliest(10) == 30 * SECOND && Earliest(11) == 62 * SECOND
  {
    assert Earliest(8) == Earliest(7) + Backoff(7);
    assert Earliest(10) == Earliest(9) + Backoff(9);
  }

  /** Attempt n as a bound in seconds. */
  lemma AttemptBound(n: nat, x: int)
    requires Earliest(n) < x
    ensures n >= 7 ==> 2 * SECOND < x
    ensures n >= 8 ==> 6 * SECOND < x
    ensures n >= 9 ==> 14 * SECOND < x
    ensures n >= 10 ==> 30 * SECOND < x
    ensures n >= 11 ==> (62 + 64 * (n - 11)) * SECOND < x
  {
    EarlyAttempts();
    if n >= 11 {
      EarliestFrom11(n);
    }
  }

  /** Two stretches that share a window hold at most 31 passes between them, the first pass of the first being older. */
  lemma SharedWindow(n1: nat, n2: nat, d: int)
    requires 0 <= d < WINDOW && Earliest(n1) < WINDOW - d && (n2 > 0 ==> Earliest(n2) < d)
    ensures n1 >= 1 ==> PassesIn(n1) - 1 + PassesIn(n2) <= MOST_IN_ANY_WINDOW
  {
    hide Earliest;
    AttemptBound(n1, WINDOW - d);
    if n2 > 0 {
      AttemptBound(n2, d);
    }
  }

  /** Later attempts are at least as far apart as earlier ones. */
  lemma {:induction false} GapsGrow(a: nat, j: nat)
    requires a >= 6
    ensures Earliest(a + 1 + j) - Earliest(a + 1) >= Earliest(7 + j) - Earliest(7)
    decreases j
  {
    hide Backoff;
    if j > 0 {
      GapsGrow(a, j - 1);
      assert Earliest(a + 1 + j) == Earliest(a + j) + Backoff(a + j);
      assert Earliest(7 + j) == Earliest(6 + j) + Backoff(6 + j);
      BackoffGrows(6 + j, a + j);
    }
  }

  lemma BackoffGrows(m: nat, n: nat)
    requires 6 <= m <= n
    ensures Backoff(m) <= Backoff(n)
  {
  }

  lemma RestOfBucket(a: nat, n1: nat, n2: nat, d: int)
    requires a >= 6 && n1 > a && 0 <= d < WINDOW && Earliest(n1) - Earliest(a + 1) < WINDOW - d
             && (n2 > 0 ==> Earliest(n2) < d)
    ensures PassesIn(n1) - PassesIn(a) + PassesIn(n2) <= MOST_IN_ANY_WINDOW
  {
    hide Earliest;
    var j := n1 - a - 1;
    GapsGrow(a, j);
    EarlyAttempts();
    AttemptBound(7 + j, WINDOW - d + 2 * SECOND);
    if n2 > 0 {
      AttemptBound(n2, d);
    }
  }

  /** In any fifteen minutes of any run a key gets at most 31 passes. */
  lemma AtMost31Passes(before: seq<Call>, calls: seq<Call>, key: nat, start: int)
    requires NonDecreasing(before) && (before != [] ==> before[|before| - 1].now <= start) && NotBefore(calls, start)
    ensures Passes(TableAfter(before), calls, key, start + WINDOW) <= MOST_IN_ANY_WINDOW
  {
    hide Answered, Earliest, TableAfter;
    RunIsSpaced(before);
    var t := TableAfter(before);
    if key !in t || Expired(t[key], start) {
      AtMost23Passes(t, calls, key, start);
    } else {
      var b := t[key];
      SpacedLater(b, before[|before| - 1].now, start);
      var a, d := b.attempts, start - b.started;
      var origin := start - Earliest(a + 1);
      StartsPaced(b, start);
      var n1, n2 := PassesOfTwo(t, calls, key, origin, start, start + WINDOW);
      if n1 == a {
        OneBucketOnly(n2, d);
      } else if a >= 6 {
        RestOfBucket(a, n1, n2, d);
      } else {
        NothingBefore7(a + 1);
        SharedWindow(n1, n2, d);
      }
    }
  }

  lemma NothingBefore7(n: nat)
    requires n <= 6
    ensures Earliest(n) == 0
  {
  }

  lemma StartsPaced(b: Bucket, start: int)
    requires Spaced(b, start)
    ensures Paced(b, start - Earliest(b.attempts + 1), start) && start >= b.started
  {
    EarliestGrows(b.attempts);
  }

  lemma EarliestGrows(n: nat)
    ensures Earliest(n) <= Earliest(n + 1) && Earliest(n) >= 0
  {
    if n > 6 {
      EarliestGrows(n - 1);
    }
  }

  lemma OneBucketOnly(n2: nat, d: int)
    requires 0 <= d < WINDOW && (n2 > 0 ==> Earliest(n2) < d)
    ensures PassesIn(n2) <= MOST_IN_ANY_WINDOW
  {
    if n2 > 0 {
      AttemptBound(n2, d);
    }
  }

  // ---------------------------------------------------------------- the bound is sharp

  /** Calls at the earliest moments of attempts n to `last` of a bucket paced from `origin`. */
  function Paces(key: nat, origin: int, n: nat, last: nat): seq<Call>
    decreases last + 1 - n
  {
    if n > last then [] else [Call(key, origin + Earliest(n))] + Paces(key, origin, n + 1, last)
  }

  lemma {:induction false} EarliestMonotone(m: nat, n: nat)
    requires m <= n
    ensures Earliest(m) <= Earliest(n)
  {
    if m < n {
      EarliestMonotone(m, n - 1);
      EarliestGrows(n - 1);
    }
  }

  lemma {:induction false} PacesAt(key: nat, origin: int, n: nat, last: nat)
    requires n <= last + 1
    ensures var p := Paces(key, origin, n, last);
            |p| == last + 1 - n && forall i :: 0 <= i < |p| ==> p[i] == Call(key, origin + Earliest(n + i))
    decreases last + 1 - n
  {
    hide Earliest;
    if n <= last {
      PacesAt(key, origin, n + 1, last);
    }
  }

  /** The bucket has made attempt n - 1 and waits for the moment of attempt n. */
  ghost predicate Awaits(t: Table, key: nat, started: int, origin: int, n: nat) {
    n >= 2 && key in t && t[key] == Bucket(n - 1, started, if n - 1 > 5 then Some(origin + Earliest(n)) else None)
  }

  lemma PaceStep(t: Table, key: nat, started: int, origin: int, n: nat)
    requires Awaits(t, key, started, origin, n) && origin + Earliest(n) < started + WINDOW
    ensures var (t2, answer) := Answered(t, Call(key, origin + Earliest(n)));
            Awaits(t2, key, started, origin, n + 1) && (answer == 0 <==> n != 6)
  {
    assert n > 5 ==> Earliest(n + 1) == (if n + 1 <= 6 then 0 else Earliest(n) + Backoff(n));
  }

  lemma {:induction false} PacesPass(t: Table, key: nat, started: int, origin: int, n: nat, last: nat, rest: seq<Call>,
          until: int)
    returns (t2: Table)
    requires Awaits(t, key, started, origin, n) && n <= last + 1
    requires origin + Earliest(last) < started + WINDOW && origin + Earliest(last) < until
    ensures Awaits(t2, key, started, origin, last + 1)
    ensures PassesIn(n - 1) + Passes(t, Paces(key, origin, n, last) + rest, key, until) ==
            PassesIn(last) + Passes(t2, rest, key, until)
    decreases last + 1 - n
  {
    hide Answered, Earliest, Awaits;
    t2 := t;
    if n == last + 1 {
      assert Paces(key, origin, n, last) + rest == rest;
    } else {
      EarliestMonotone(n, last);
      assert n >= 2 by { AwaitsLater(t, key, started, origin, n); }
      PaceStep(t, key, started, origin, n);
      var c := Call(key, origin + Earliest(n));
      t2 := PacesPass(Answered(t, c).0, key, started, origin, n + 1, last, rest, until);
      var calls := Paces(key, origin, n, last) + rest;
      assert calls[0] == c && calls[1..] == Paces(key, origin, n + 1, last) + rest;
    }
  }

  lemma AwaitsLater(t: Table, key: nat, started: int, origin: int, n: nat)
    requires Awaits(t, key, started, origin, n)
    ensures n >= 2
  {
  }

  /** One early call, then the window from second 63: attempts 2 to 23 at the earliest moments, and from second 900 the
      first eleven attempts of the next bucket. */
  function SharpCalls(key: nat): seq<Call> {
    Paces(key, 63 * SECOND, 2, 23) + Paces(key, WINDOW, 1, 11)
  }

  lemma PacesAreOrdered(key: nat, origin: int, n: nat, last: nat)
    requires 1 <= n <= last
    ensures var p := Paces(key, origin, n, last);
            NonDecreasing(p) && forall i :: 0 <= i < |p| ==> origin + Earliest(n) <= p[i].now <= origin + Earliest(last)
  {
    hide Earliest, Paces;
    PacesAt(key, origin, n, last);
    var p := Paces(key, origin, n, last);
    forall i, j | 0 <= i <= j < |p| ensures p[i].now <= p[j].now {
      EarliestMonotone(n + i, n + j);
    }
    forall i | 0 <= i < |p| ensures origin + Earliest(n) <= p[i].now <= origin + Earliest(last) {
      EarliestMonotone(n, n + i);
      EarliestMonotone(n + i, last);
    }
  }

  lemma OrderedConcat(p: seq<Call>, q: seq<Call>, edge: int)
    requires NonDecreasing(p) && NonDecreasing(q)
    requires (forall i :: 0 <= i < |p| ==> p[i].now <= edge) && (forall i :: 0 <= i < |q| ==> edge <= q[i].now)
    ensures NonDecreasing(p + q)
  {
  }

  lemma SharpCallsAreOrdered(key: nat)
    ensures NotBefore(SharpCalls(key), 63 * SECOND)
  {
    hide Earliest, Paces, NonDecreasing;
    PacesAreOrdered(key, 63 * SECOND, 2, 23);
    PacesAreOrdered(key, WINDOW, 1, 11);
    LastPaces();
    NothingBefore7(2);
    NothingBefore7(1);
    OrderedConcat(Paces(key, 63 * SECOND, 2, 23), Paces(key, WINDOW, 1, 11), WINDOW);
    PacesAt(key, 63 * SECOND, 2, 23);
  }

  lemma LastPaces()
    ensures 63 * SECOND + Earliest(23) < WINDOW && Earliest(11) < 63 * SECOND
  {
    EarliestFrom11(23);
    EarliestFrom11(11);
  }

  /** Some fifteen minutes of some run hold exactly 31 passes of a key. */
  lemma BoundOf31IsSharp(key: nat)
    ensures NotBefore(SharpCalls(key), 63 * SECOND)
    ensures Passes(TableAfter([Call(key, 0)]), SharpCalls(key), key, 63 * SECOND + WINDOW) == MOST_IN_ANY_WINDOW
  {
    hide Earliest, Answered, Awaits;
    SharpCallsAreOrdered(key);
    var t := TableAfter([Call(key, 0)]);
    OneCall(Call(key, 0));
    FirstCallOpensBucket(map[], Call(key, 0), key);
    RoomForOne(key);
    assert Awaits(t, key, 0, 63 * SECOND, 2) by { OpenedAwaits(t, key, 0, 63 * SECOND); }
    LastPaces();
    var until := 63 * SECOND + WINDOW;
    var t1 := PacesPass(t, key, 0, 63 * SECOND, 2, 23, Paces(key, WINDOW, 1, 11), until);
    SecondBucket(t1, key, until);
  }

  lemma OneCall(c: Call)
    ensures TableAfter([c]) == Answered(map[], c).0
  {
    hide Answered;
    assert [c][..0] == [];
  }

  lemma RoomForOne(key: nat)
    ensures !Refused(map[], Call(key, 0))
  {
  }

  lemma OpenedAwaits(t: Table, key: nat, started: int, origin: int)
    requires key in t && t[key] == Bucket(1, started, None)
    ensures Awaits(t, key, started, origin, 2)
  {
  }

  lemma SecondBucket(t: Table, key: nat, until: int)
    requires Awaits(t, key, 0, 63 * SECOND, 24) && until == 63 * SECOND + WINDOW
    ensures Passes(t, Paces(key, WINDOW, 1, 11), key, until) == PassesIn(11)
  {
    hide Earliest, Answered;
    var c := Call(key, WINDOW);
    NothingBefore7(1);
    var calls := Paces(key, WINDOW, 1, 11);
    var rest := Paces(key, WINDOW, 2, 11);
    assert calls == [c] + rest;
    assert calls[1..] == rest;
    FirstCallOpensBucket(t, c, key);
    var t2 := Answered(t, c).0;
    OpenedAwaits(t2, key, WINDOW, WINDOW);
    LastPaces();
    var t3 := PacesPass(t2, key, WINDOW, WINDOW, 2, 11, [], until);
    assert rest + [] == rest;
  }
}
