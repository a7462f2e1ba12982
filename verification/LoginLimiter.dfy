/** The login limiter (httpx/session.go): retry backoff per key, and a bounded table with eviction.
    Times and durations are nanoseconds; keys are the digests of address and account. */
module LoginLimiter {
  import opened Common

  const SECOND := 1_000_000_000
  const MINUTE := 60 * SECOND
  const WINDOW := 15 * MINUTE
  const CAPACITY := 4096
  /** The most answers of zero a key gets in one window. */
  const MOST_PASSES := 23

  /** `next` is None while the source's field still has its zero time, which no clock precedes. */
  datatype Bucket = Bucket(attempts: nat, started: int, next: Option<int>)
  datatype Call = Call(key: nat, now: int)

  type Table = map<nat, Bucket>

  predicate Expired(b: Bucket, now: int) {
    now - b.started >= WINDOW
  }

  function Live(t: Table, now: int): Table {
    map k | k in t && !Expired(t[k], now) :: t[k]
  }

  /** No room for a new key, even after dropping what expired. */
  predicate Refused(t: Table, c: Call) {
    c.key !in t && |t| >= CAPACITY && |Live(t, c.now)| >= CAPACITY
  }

  function Evicted(t: Table, c: Call): Table {
    if c.key !in t && |t| >= CAPACITY then Live(t, c.now) else t
  }

  function Backoff(attempts: nat): int
    requires attempts > 5
  {
    match attempts - 5
    case 1 => 2 * SECOND
    case 2 => 4 * SECOND
    case 3 => 8 * SECOND
    case 4 => 16 * SECOND
    case 5 => 32 * SECOND
    case _ => 64 * SECOND
  }

  function BucketFor(t: Table, c: Call): Bucket {
    if c.key !in t || Expired(t[c.key], c.now) then Bucket(0, c.now, None) else t[c.key]
  }

  predicate Waits(b: Bucket, now: int) {
    b.next.Some? && now < b.next.value
  }

  /** One more attempt at `now`. */
  function Attempted(b: Bucket, now: int): Bucket {
    var n := b.attempts + 1;
    Bucket(n, b.started, if n > 5 then Some(now + Backoff(n)) else b.next)
  }

  /** A limiter that never runs out of room. */
  function AllowUnbounded(t: Table, c: Call): (Table, int) {
    var b := BucketFor(t, c);
    if Waits(b, c.now) then (t, b.next.value - c.now)
    else
      var b2 := Attempted(b, c.now);
      (t[c.key := b2], if b2.attempts == 6 then Backoff(6) else 0)
  }

  function Answered(t: Table, c: Call): (Table, int) {
    if Refused(t, c) then (Evicted(t, c), MINUTE) else AllowUnbounded(Evicted(t, c), c)
  }

  class LoginLimiter {
    var buckets: Table

    constructor ()
      ensures buckets == map[]
    {
      buckets := map[];
    }

    method Allow(key: nat, now: int) returns (delay: int)
      modifies this
      ensures (buckets, delay) == Answered(old(buckets), Call(key, now))
    {
      var known := key in buckets;
      if !known && |buckets| >= CAPACITY {
        var todo := buckets.Keys;
        while todo != {}
          invariant todo <= buckets.Keys
          invariant buckets == map k | k in old(buckets) && (k in todo || !Expired(old(buckets)[k], now)) ::
                    old(buckets)[k]
          decreases |todo|
        {
          var k :| k in todo;
          todo := todo - {k};
          if now - buckets[k].started >= WINDOW {
            buckets := buckets - {k};
          }
        }
        assert buckets == Live(old(buckets), now);
        if |buckets| >= CAPACITY {
          return MINUTE;
        }
      }
      var bucket := Bucket(0, now, None);
      if known && now - buckets[key].started < WINDOW {
        bucket := buckets[key];
      }
      if bucket.next.Some? && now < bucket.next.value {
        return bucket.next.value - now;
      }
      bucket := bucket.(attempts := bucket.attempts + 1);
      if bucket.attempts > 5 {
        var exponent := bucket.attempts - 5;
        if exponent > 6 {
          exponent := 6;
        }
        var wait := PowerOfTwo(exponent) * SECOND;
        bucket := bucket.(next := Some(now + wait));
        buckets := buckets[key := bucket];
        if bucket.attempts == 6 {
          return wait;
        }
        return 0;
      }
      buckets := buckets[key := bucket];
      delay := 0;
    }
  }

  function PowerOfTwo(n: nat): nat {
    if n == 0 then 1 else 2 * PowerOfTwo(n - 1)
  }

  // ---------------------------------------------------------------- the table stays bounded

  /** A call is refused for room exactly when its key is new and the table is full of unexpired keys. */
  lemma RefusedIffFullOfLiveKeys(t: Table, c: Call)
    requires |t| <= 4096
    ensures Refused(t, c) <==> c.key !in t && |t| == 4096 && forall k :: k in t ==> !Expired(t[k], c.now)
  {
    LiveIsSmaller(t, c.now);
  }

  lemma LiveIsSmaller(t: Table, now: int)
    ensures |Live(t, now)| <= |t|
    ensures |Live(t, now)| == |t| <==> forall k :: k in t ==> !Expired(t[k], now)
  {
    var gone := set k | k in t && Expired(t[k], now);
    assert Live(t, now).Keys == t.Keys - gone;
    assert t.Keys == Live(t, now).Keys + gone;
    assert |Live(t, now).Keys| + |gone| == |t.Keys|;
    if gone == {} {
      assert forall k :: k in t ==> k !in gone;
    } else {
      var k :| k in gone;
      assert k in t && Expired(t[k], now);
    }
  }

  lemma TableStaysBounded(t: Table, c: Call)
    requires |t| <= CAPACITY
    ensures |Answered(t, c).0| <= CAPACITY
  {
    LiveIsSmaller(t, c.now);
  }

  // ---------------------------------------------------------------- eviction is transparent

  ghost predicate NonDecreasing(calls: seq<Call>) {
    forall i, j :: 0 <= i <= j < |calls| ==> calls[i].now <= calls[j].now
  }

  /** The table after a run from the empty limiter. */
  function TableAfter(calls: seq<Call>): Table {
    if calls == [] then map[] else Answered(TableAfter(calls[..|calls| - 1]), calls[|calls| - 1]).0
  }

  /** The calls not refused for room, and what they were answered. */
  function Admitted(calls: seq<Call>): (seq<Call>, seq<int>) {
    if calls == [] then ([], [])
    else
      var (admitted, answers) := Admitted(calls[..|calls| - 1]);
      var t, c := TableAfter(calls[..|calls| - 1]), calls[|calls| - 1];
      if Refused(t, c) then (admitted, answers) else (admitted + [c], answers + [Answered(t, c).1])
  }

  function UnboundedAfter(calls: seq<Call>): (Table, seq<int>) {
    if calls == [] then (map[], [])
    else
      var (t, answers) := UnboundedAfter(calls[..|calls| - 1]);
      var (t2, answer) := AllowUnbounded(t, calls[|calls| - 1]);
      (t2, answers + [answer])
  }

  /** The bounded table agrees with the unbounded one except for what has expired. */
  ghost predicate Agrees(t: Table, u: Table, now: int) {
    && (forall k :: k in t ==> k in u && u[k] == t[k])
    && (forall k :: k in u && k !in t ==> Expired(u[k], now))
  }

  lemma AdmittedStepAgrees(t: Table, u: Table, c: Call)
    requires Agrees(t, u, c.now) && !Refused(t, c)
    ensures var (t2, a) := Answered(t, c); var (u2, b) := AllowUnbounded(u, c); a == b && Agrees(t2, u2, c.now)
  {
    assert BucketFor(Evicted(t, c), c) == BucketFor(u, c);
  }

  lemma LaterStillAgrees(t: Table, u: Table, now: int, later: int)
    requires Agrees(t, u, now) && now <= later
    ensures Agrees(t, u, later)
  {
  }

  /** Apart from the calls refused for room, every answer is that of a limiter that never evicts, and the table
      never holds more than its capacity. */
  lemma {:induction false} EvictionIsTransparent(calls: seq<Call>)
    requires NonDecreasing(calls)
    ensures Admitted(calls).1 == UnboundedAfter(Admitted(calls).0).1
    ensures calls != [] ==> Agrees(TableAfter(calls), UnboundedAfter(Admitted(calls).0).0, calls[|calls| - 1].now)
    ensures |TableAfter(calls)| <= 4096
  {
    hide Answered, AllowUnbounded, Refused;
    if calls != [] {
      var before, c := calls[..|calls| - 1], calls[|calls| - 1];
      EvictionIsTransparent(before);
      var t, admitted := TableAfter(before), Admitted(before).0;
      var u := UnboundedAfter(admitted).0;
      assert Agrees(t, u, c.now) by {
        if before != [] {
          LaterStillAgrees(t, u, before[|before| - 1].now, c.now);
        }
      }
      TableStaysBounded(t, c);
      if Refused(t, c) {
        RefusedStepAgrees(t, u, c);
      } else {
        AdmittedStepAgrees(t, u, c);
        assert (admitted + [c])[..|admitted|] == admitted;
      }
    }
  }

  lemma RefusedStepAgrees(t: Table, u: Table, c: Call)
    requires Agrees(t, u, c.now) && Refused(t, c)
    ensures Agrees(Answered(t, c).0, u, c.now)
  {
  }

  // ---------------------------------------------------------------- how many calls get through

  /** The passes, answers of zero, to `key` before `until` in a run from `t`. */
  function Passes(t: Table, calls: seq<Call>, key: nat, until: int): nat
    decreases |calls|
  {
    if calls == [] then 0
    else
      var (t2, answer) := Answered(t, calls[0]);
      (if answer == 0 && calls[0].key == key && calls[0].now < until then 1 else 0) + Passes(t2, calls[1..], key, until)
  }

  /** How long after a bucket's start its `n`-th attempt is at the earliest. */
  function Earliest(n: nat): int {
    if n <= 6 then 0 else Earliest(n - 1) + Backoff(n - 1)
  }

  /** The passes among the first `n` attempts: all but the sixth. */
  function PassesIn(n: nat): nat {
    if n <= 5 then n else n - 1
  }

  /** The bucket's attempts are spaced as the backoff demands, up to `now`. */
  ghost predicate Spaced(b: Bucket, now: int) {
    && b.attempts >= 1 && b.started + Earliest(b.attempts) <= now
    && (if b.attempts >= 6 then b.next.Some? && b.started + Earliest(b.attempts + 1) <= b.next.value else b.next.None?)
  }

  lemma {:induction false} EarliestFrom11(n: nat)
    requires n >= 11
    ensures Earliest(n) == (62 + 64 * (n - 11)) * SECOND
  {
    if n == 11 {
      assert Earliest(7) == 2 * SECOND;
      assert Earliest(9) == 14 * SECOND;
      assert Earliest(11) == 62 * SECOND;
    } else {
      EarliestFrom11(n - 1);
    }
  }

  /** Inside its window no bucket sees a twenty-fifth attempt. */
  lemma AtMost24Attempts(b: Bucket, now: int)
    requires Spaced(b, now) && !Expired(b, now)
    ensures b.attempts <= 24 && PassesIn(b.attempts) <= MOST_PASSES
  {
    if b.attempts >= 11 {
      EarliestFrom11(b.attempts);
    }
  }

  ghost predicate NotBefore(calls: seq<Call>, now: int) {
    NonDecreasing(calls) && (calls != [] ==> now <= calls[0].now)
  }

  lemma {:induction false} NoPassesAfter(t: Table, calls: seq<Call>, key: nat, until: int)
    requires NotBefore(calls, until)
    ensures Passes(t, calls, key, until) == 0
    decreases |calls|
  {
    hide Answered;
    if calls != [] {
      NoPassesAfter(Answered(t, calls[0]).0, calls[1..], key, until);
    }
  }

  /** One call to `c.key` whose bucket is still in its window. */
  lemma AttemptKeepsSpacing(t: Table, c: Call, b: Bucket, now: int)
    requires c.key in t && t[c.key] == b && Spaced(b, now) && now <= c.now && !Expired(b, c.now)
    ensures var (t2, answer) := Answered(t, c);
            && c.key in t2 && t2[c.key].started == b.started && Spaced(t2[c.key], c.now)
            && PassesIn(t2[c.key].attempts) == PassesIn(b.attempts) + if answer == 0 then 1 else 0
  {
    if !Waits(b, c.now) {
      assert b.attempts >= 6 ==> Earliest(b.attempts + 2) == Earliest(b.attempts + 1) + Backoff(b.attempts + 1);
    }
  }

  lemma OtherKeyStays(t: Table, c: Call, key: nat)
    requires key in t && c.key != key && !Expired(t[key], c.now)
    ensures key in Answered(t, c).0 && Answered(t, c).0[key] == t[key]
  {
  }

  lemma {:induction false} PassesInWindow(t: Table, calls: seq<Call>, key: nat, now: int, until: int)
    requires key in t && Spaced(t[key], now) && !Expired(t[key], now) && until <= t[key].started + WINDOW
    requires NotBefore(calls, now)
    ensures PassesIn(t[key].attempts) + Passes(t, calls, key, until) <= MOST_PASSES
    decreases |calls|
  {
    hide Answered, Earliest;
    var b := t[key];
    AtMost24Attempts(b, now);
    if calls != [] {
      var c := calls[0];
      if c.now >= until {
        NoPassesAfter(t, calls, key, until);
      } else {
        var t2 := Answered(t, c).0;
        if c.key == key {
          AttemptKeepsSpacing(t, c, b, now);
        } else {
          OtherKeyStays(t, c, key);
        }
        PassesInWindow(t2, calls[1..], key, c.now, until);
      }
    }
  }

  /** A key with no live bucket at `start` gets at most twenty-three passes in the fifteen minutes from then on,
      whatever the other keys do and whatever the table's load. */
  lemma {:induction false} AtMost23Passes(t: Table, calls: seq<Call>, key: nat, start: int)
    requires NotBefore(calls, start) && (key !in t || Expired(t[key], start))
    ensures Passes(t, calls, key, start + WINDOW) <= MOST_PASSES
    decreases |calls|
  {
    hide Answered;
    if calls != [] {
      var c := calls[0];
      var t2 := Answered(t, c).0;
      if c.now >= start + WINDOW {
        NoPassesAfter(t, calls, key, start + WINDOW);
      } else {
        FirstCallOpensBucket(t, c, key);
        if c.key == key && !Refused(t, c) {
          PassesInWindow(t2, calls[1..], key, c.now, start + WINDOW);
        } else {
          AtMost23Passes(t2, calls[1..], key, start);
        }
      }
    }
  }

  /** The first call for a key without a live bucket opens one, unless there is no room. */
  lemma FirstCallOpensBucket(t: Table, c: Call, key: nat)
    requires key !in t || Expired(t[key], c.now)
    ensures var (t2, answer) := Answered(t, c);
            if c.key == key && !Refused(t, c) then answer == 0 && key in t2 && t2[key] == Bucket(1, c.now, None)
            else (c.key == key ==> answer == MINUTE) && (key in t2 ==> key in t && t2[key] == t[key])
  {
  }

  /** Calls at the earliest moments of attempts n to 24. */
  function Greedy(key: nat, n: nat): seq<Call>
    decreases 25 - n
  {
    if n > 24 then [] else [Call(key, Earliest(n))] + Greedy(key, n + 1)
  }

  /** The bound is sharp: a key that calls at the earliest moments gets twenty-three passes. */
  lemma BoundIsSharp(key: nat)
    ensures Passes(map[], Greedy(key, 1), key, WINDOW) == MOST_PASSES
  {
    hide Greedy;
    assert Greedy(key, 1) == [Call(key, 0)] + Greedy(key, 2)
           && ([Call(key, 0)] + Greedy(key, 2))[1..] == Greedy(key, 2) by {
      GreedyNext(key, 1);
    }
    GreedyPasses(map[key := Bucket(1, 0, None)], key, 2);
  }

  lemma GreedyNext(key: nat, n: nat)
    requires n <= 24
    ensures Greedy(key, n) == [Call(key, Earliest(n))] + Greedy(key, n + 1) && Greedy(key, n)[1..] == Greedy(key, n + 1)
  {
  }

  lemma {:induction false} GreedyPasses(t: Table, key: nat, n: nat)
    requires 2 <= n <= 25 && key in t
    requires t[key] == Bucket(n - 1, 0, if n - 1 > 5 then Some(Earliest(n)) else None)
    ensures PassesIn(n - 1) + Passes(t, Greedy(key, n), key, WINDOW) == MOST_PASSES
    decreases 25 - n
  {
    hide Greedy;
    if n == 25 {
      assert Greedy(key, 25) == [] by { GreedyEnds(key); }
    } else {
      GreedyNext(key, n);
      if n >= 11 {
        EarliestFrom11(n);
      }
      GreedyStep(t, key, n);
      GreedyPasses(Answered(t, Call(key, Earliest(n))).0, key, n + 1);
    }
  }

  lemma GreedyEnds(key: nat)
    ensures Greedy(key, 25) == []
  {
  }

  lemma GreedyStep(t: Table, key: nat, n: nat)
    requires 2 <= n <= 24 && key in t && t[key] == Bucket(n - 1, 0, if n - 1 > 5 then Some(Earliest(n)) else None)
    ensures Earliest(n) < WINDOW
    ensures var (t2, answer) := Answered(t, Call(key, Earliest(n)));
            && key in t2 && t2[key] == Bucket(n, 0, if n > 5 then Some(Earliest(n + 1)) else None)
            && (answer == 0 <==> n != 6)
  {
    if n >= 11 {
      EarliestFrom11(n);
    } else {
      assert Earliest(8) == 6 * SECOND;
      assert Earliest(10) == 30 * SECOND;
    }
  }

  /** Only a bucket past its fifth attempt has a time to wait for. */
  ghost predicate WaitsFromSixth(t: Table) {
    forall k :: k in t ==> (t[k].next.Some? <==> t[k].attempts >= 6)
  }

  lemma {:induction false} WaitsFromSixthAlways(calls: seq<Call>)
    ensures WaitsFromSixth(TableAfter(calls))
  {
    if calls != [] {
      WaitsFromSixthAlways(calls[..|calls| - 1]);
    }
  }

  /** Who is told to wait for a backoff and calls again right then gets through; waiting callers cost nothing. */
  lemma WaitingIsEnough(calls: seq<Call>, c: Call)
    requires !Refused(TableAfter(calls), c)
    ensures var t := TableAfter(calls);
            var (t2, wait) := Answered(t, c);
            && 0 <= wait && (wait > 0 ==> Answered(t2, Call(c.key, c.now + wait)).1 == 0)
            && (wait > 0 && t2 != Evicted(t, c) ==> t2[c.key].attempts == 6)
  {
    WaitsFromSixthAlways(calls);
  }
}
