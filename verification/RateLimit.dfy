/**
 The request rate limiter (internal/httpapp/ratelimit.go): one token bucket per key, kept in a table
 from which idle buckets are swept. Stamps are integer nanoseconds; token amounts are real numbers.
 */
module RateLimit {
  /** Nanoseconds. */
  type Time = int

  const SECOND := 1_000_000_000.0
  const MINUTE: Time := 60_000_000_000

  datatype Params = Params(rate: real, burst: real)

  datatype Bucket = Bucket(tokens: real, seen: Time)

  type Table = map<string, Bucket>

  /** Tokens replenished over `d` nanoseconds. */
  function Earned(p: Params, d: Time): real {
    d as real / SECOND * p.rate
  }

  function Capped(p: Params, tokens: real): real {
    if tokens > p.burst then p.burst else tokens
  }

  function Refilled(p: Params, b: Bucket, now: Time): Bucket {
    Bucket(Capped(p, b.tokens + Earned(p, now - b.seen)), now)
  }

  /** Conversion of a float to an integer drops the fraction. */
  function Truncated(x: real): int {
    if x >= 0.0 then x.Floor else -((-x).Floor)
  }

  function Idle(p: Params): Time
    requires p.rate > 0.0
  {
    Truncated(p.burst / p.rate * SECOND) + MINUTE
  }

  function Swept(p: Params, table: Table, now: Time): Table
    requires p.rate > 0.0
  {
    map key | key in table && now - table[key].seen <= Idle(p) :: table[key]
  }

  /** The table once the bucket of `key` is ready for a request at `now`. */
  function Opened(p: Params, sweeping: bool, table: Table, key: string, now: Time): (r: Table)
    requires p.rate > 0.0
    ensures key in r && r[key].seen == now
  {
    if key in table then table[key := Refilled(p, table[key], now)]
    else (if sweeping then Swept(p, table, now) else table)[key := Bucket(p.burst, now)]
  }

  function Spend(b: Bucket): (bool, Bucket) {
    if b.tokens < 1.0 then (false, b) else (true, b.(tokens := b.tokens - 1.0))
  }

  /** One request. `sweeping` is true in the program; false gives the limiter that forgets nothing. */
  function Allow(p: Params, sweeping: bool, table: Table, key: string, now: Time): (bool, Table) {
    if p.rate <= 0.0 then (true, table)
    else
      var ready := Opened(p, sweeping, table, key, now);
      var (ok, b) := Spend(ready[key]);
      (ok, ready[key := b])
  }

  // ---- Histories ----

  datatype Request = Request(key: string, now: Time)

  /** The table after a history, starting from none. */
  function After(p: Params, sweeping: bool, reqs: seq<Request>): Table {
    if reqs == [] then map[]
    else
      var last := reqs[|reqs| - 1];
      Allow(p, sweeping, After(p, sweeping, reqs[..|reqs| - 1]), last.key, last.now).1
  }

  /** The answer to a request that follows the history. */
  predicate Admits(p: Params, sweeping: bool, reqs: seq<Request>, r: Request) {
    Allow(p, sweeping, After(p, sweeping, reqs), r.key, r.now).0
  }

  /** When requests of `key` were admitted. */
  function Log(p: Params, sweeping: bool, reqs: seq<Request>, key: string): seq<Time> {
    if reqs == [] then []
    else
      var before, last := reqs[..|reqs| - 1], reqs[|reqs| - 1];
      Log(p, sweeping, before, key) +
      if last.key == key && Admits(p, sweeping, before, last) then [last.now] else []
  }

  predicate Ordered(reqs: seq<Request>) {
    forall i, j :: 0 <= i <= j < |reqs| ==> reqs[i].now <= reqs[j].now
  }

  // ---- The sliding window ----

  /**
   The policy the bucket stands for, over the full log of admissions: from any earlier admission on,
   the admissions and this request number at most the burst plus the rate times the seconds since.
   */
  predicate WindowAllows(p: Params, log: seq<Time>, now: Time) {
    && p.burst >= 1.0
    && forall i :: 0 <= i < |log| ==> (|log| - i + 1) as real <= Allowance(p, now - log[i])
  }

  /** At most this many requests in `d` nanoseconds. */
  function Allowance(p: Params, d: Time): real {
    p.burst + p.rate * (d as real / 1_000_000_000.0)
  }

  lemma AllowanceIsEarned(p: Params, d: Time)
    ensures Allowance(p, d) == p.burst + Earned(p, d)
  {
  }

  /** The room left in the tightest window. */
  function Level(p: Params, log: seq<Time>, now: Time): real {
    if log == [] then p.burst
    else
      var first := p.burst + Earned(p, now - log[0]) - |log| as real;
      var rest := Level(p, log[1..], now);
      if first < rest then first else rest
  }

  lemma EarnedAdds(p: Params, a: Time, b: Time)
    ensures Earned(p, a + b) == Earned(p, a) + Earned(p, b)
    ensures Earned(p, a - b) == Earned(p, a) - Earned(p, b)
    ensures Earned(p, 0) == 0.0
  {
  }

  lemma EarnedGrows(p: Params, a: Time, b: Time)
    requires p.rate > 0.0 && a <= b
    ensures Earned(p, a) <= Earned(p, b)
  {
    var x, y := a as real / SECOND, b as real / SECOND;
    assert x <= y;
  }

  lemma {:induction false} LevelMeansWindow(p: Params, log: seq<Time>, now: Time)
    ensures Level(p, log, now) >= 1.0 <==> WindowAllows(p, log, now)
  {
    hide Earned, Allowance;
    if log == [] {
    } else {
      var rest := log[1..];
      LevelMeansWindow(p, rest, now);
      AllowanceIsEarned(p, now - log[0]);
      assert WindowAllows(p, log, now) ==> WindowAllows(p, rest, now) by {
        if WindowAllows(p, log, now) {
          forall i | 0 <= i < |rest| ensures (|rest| - i + 1) as real <= Allowance(p, now - rest[i]) {
            assert rest[i] == log[i + 1];
          }
        }
      }
      if Level(p, log, now) >= 1.0 {
        forall i | 0 <= i < |log| ensures (|log| - i + 1) as real <= Allowance(p, now - log[i]) {
          if i > 0 {
            assert log[i] == rest[i - 1];
          }
        }
      }
    }
  }

  /** As time goes by the level rises like the bucket does. */
  lemma {:induction false} LevelAdvances(p: Params, log: seq<Time>, now: Time, later: Time)
    requires p.rate > 0.0 && now <= later
    ensures Level(p, log, later) == Capped(p, Level(p, log, now) + Earned(p, later - now))
  {
    EarnedGrows(p, 0, later - now);
    EarnedAdds(p, later, now);
    if log == [] {
    } else {
      LevelAdvances(p, log[1..], now, later);
      EarnedAdds(p, later - now, now - log[0]);
    }
  }

  /** An admission lowers the level by one. */
  lemma {:induction false} LevelSpends(p: Params, log: seq<Time>, now: Time)
    ensures Level(p, log + [now], now) == Level(p, log, now) - 1.0
  {
    EarnedAdds(p, 0, 0);
    if log == [] {
      assert [] + [now] == [now] && [now][1..] == [];
      assert Level(p, [now], now) == p.burst - 1.0;
    } else {
      assert (log + [now])[1..] == log[1..] + [now];
      LevelSpends(p, log[1..], now);
    }
  }

  /** A bucket idle for longer than the sweep tolerates has earned a full burst. */
  lemma IdleEarnsBurst(p: Params, d: Time)
    requires p.rate > 0.0 && d >= Truncated(p.burst / p.rate * SECOND) + 1
    ensures Earned(p, d) >= p.burst
  {
    var quotient := p.burst / p.rate;
    assert d as real >= quotient * SECOND;
    var seconds := d as real / SECOND;
    assert seconds >= quotient;
    assert seconds * p.rate >= quotient * p.rate;
    assert quotient * p.rate == p.burst;
  }

  // ---- The bucket is the window ----

  /**
   The bucket of a key holds exactly the level of the key's log; a key without a bucket has a full
   level, now and ever after.
   */
  ghost predicate Matches(p: Params, table: Table, key: string, log: seq<Time>, now: Time) {
    if key in table then
      && table[key].seen <= now
      && table[key].tokens == Level(p, log, table[key].seen)
      && (table[key].tokens >= 0.0 || table[key].tokens == p.burst)
    else Level(p, log, now) == p.burst
  }

  lemma MatchesLater(p: Params, table: Table, key: string, log: seq<Time>, now: Time, later: Time)
    requires p.rate > 0.0 && now <= later && Matches(p, table, key, log, now)
    ensures Matches(p, table, key, log, later)
  {
    if key !in table {
      LevelAdvances(p, log, now, later);
      EarnedGrows(p, 0, later - now);
      EarnedAdds(p, 0, 0);
    }
  }

  /** Opening the bucket of `key` keeps the correspondence for every key. */
  lemma OpenedMatches(p: Params, sweeping: bool, table: Table, key: string, now: Time, k: string, log: seq<Time>)
    requires p.rate > 0.0 && Matches(p, table, k, log, now)
    ensures Matches(p, Opened(p, sweeping, table, key, now), k, log, now)
  {
    if k in table {
      var b := table[k];
      LevelAdvances(p, log, b.seen, now);
      EarnedGrows(p, 0, now - b.seen);
      EarnedAdds(p, 0, 0);
      if now - b.seen > Idle(p) {
        IdleEarnsBurst(p, now - b.seen);
      }
    }
  }

  lemma OpenedTokens(p: Params, sweeping: bool, table: Table, key: string, now: Time, log: seq<Time>)
    requires p.rate > 0.0 && Matches(p, table, key, log, now)
    ensures Opened(p, sweeping, table, key, now)[key].tokens == Level(p, log, now)
  {
    OpenedMatches(p, sweeping, table, key, now, key, log);
  }

  ghost predicate NotAfter(reqs: seq<Request>, now: Time) {
    forall i :: 0 <= i < |reqs| ==> reqs[i].now <= now
  }

  lemma {:induction false} TableMatches(p: Params, sweeping: bool, reqs: seq<Request>, key: string, now: Time)
    requires p.rate > 0.0 && Ordered(reqs) && NotAfter(reqs, now)
    ensures Matches(p, After(p, sweeping, reqs), key, Log(p, sweeping, reqs, key), now)
  {
    if reqs == [] {
    } else {
      var before, last := reqs[..|reqs| - 1], reqs[|reqs| - 1];
      var table, log := After(p, sweeping, before), Log(p, sweeping, before, key);
      TableMatches(p, sweeping, before, key, last.now);
      OpenedMatches(p, sweeping, table, last.key, last.now, key, log);
      SpentMatches(p, sweeping, table, last, key, log);
      MatchesLater(p, After(p, sweeping, reqs), key, Log(p, sweeping, reqs, key), last.now, now);
    }
  }

  lemma SpentMatches(p: Params, sweeping: bool, table: Table, r: Request, key: string, log: seq<Time>)
    requires p.rate > 0.0 && Matches(p, Opened(p, sweeping, table, r.key, r.now), key, log, r.now)
    ensures var (ok, table') := Allow(p, sweeping, table, r.key, r.now);
            Matches(p, table', key, log + (if r.key == key && ok then [r.now] else []), r.now)
  {
    var (ok, table') := Allow(p, sweeping, table, r.key, r.now);
    if r.key == key && ok {
      LevelSpends(p, log, r.now);
    } else {
      assert log + [] == log;
    }
  }

  /**
   The bucket equals a sliding-window log: after any history with a non-decreasing clock, with sweeps
   or without, a request is admitted exactly when the window policy over all earlier admissions of
   its key allows it.
   */
  lemma BucketIsSlidingWindow(p: Params, sweeping: bool, reqs: seq<Request>, r: Request)
    requires p.rate > 0.0 && Ordered(reqs + [r])
    ensures Admits(p, sweeping, reqs, r) <==> WindowAllows(p, Log(p, sweeping, reqs, r.key), r.now)
  {
    OrderedPrefix(reqs, r);
    var log := Log(p, sweeping, reqs, r.key);
    TableMatches(p, sweeping, reqs, r.key, r.now);
    OpenedTokens(p, sweeping, After(p, sweeping, reqs), r.key, r.now, log);
    LevelMeansWindow(p, log, r.now);
  }

  lemma OrderedPrefix(reqs: seq<Request>, r: Request)
    requires Ordered(reqs + [r])
    ensures Ordered(reqs) && NotAfter(reqs, r.now)
  {
    var all := reqs + [r];
    assert forall i :: 0 <= i < |reqs| ==> all[i] == reqs[i];
    assert all[|reqs|] == r;
    forall i | 0 <= i < |reqs| ensures reqs[i].now <= r.now {
      assert all[i].now <= all[|reqs|].now;
    }
  }

  /** Sweeping is invisible: the limiter that never forgets a bucket gives every request the same answer. */
  lemma SweepIsInvisible(p: Params, reqs: seq<Request>, r: Request)
    requires Ordered(reqs + [r])
    ensures Admits(p, true, reqs, r) == Admits(p, false, reqs, r)
  {
    if p.rate > 0.0 {
      SameLogs(p, reqs, r.key, r);
      BucketIsSlidingWindow(p, true, reqs, r);
      BucketIsSlidingWindow(p, false, reqs, r);
    }
  }

  lemma {:induction false} SameLogs(p: Params, reqs: seq<Request>, key: string, r: Request)
    requires p.rate > 0.0 && Ordered(reqs + [r])
    ensures Log(p, true, reqs, key) == Log(p, false, reqs, key)
  {
    if reqs == [] {
    } else {
      var before, last := reqs[..|reqs| - 1], reqs[|reqs| - 1];
      OrderedPrefix(reqs, r);
      assert before + [last] == reqs;
      SameLogs(p, before, key, last);
      SameLogs(p, before, last.key, last);
      BucketIsSlidingWindow(p, true, before, last);
      BucketIsSlidingWindow(p, false, before, last);
    }
  }

  // ---- In numbers ----

  /** Without a rate there is no limit: the request is admitted, and the table does not change. */
  lemma NoRateNoLimit(p: Params, table: Table, key: string, now: Time)
    requires p.rate <= 0.0
    ensures Allow(p, true, table, key, now) == (true, table)
  {
  }

  /** The log holds exactly the stamps of the admitted requests of the key, in order. */
  lemma LogIsTheAdmissions(p: Params, reqs: seq<Request>, key: string, r: Request)
    ensures Log(p, true, [], key) == []
    ensures Log(p, true, reqs + [r], key) ==
            Log(p, true, reqs, key) + if r.key == key && Admits(p, true, reqs, r) then [r.now] else []
  {
    assert (reqs + [r])[..|reqs|] == reqs;
  }

  /** A new key's request forgets exactly the buckets idle for longer than it takes to refill, and a minute. */
  lemma SweptExactly(p: Params, table: Table, key: string, now: Time, k: string)
    requires p.rate > 0.0 && p.burst >= 0.0 && k in table && k != key
    ensures var table' := Allow(p, true, table, key, now).1;
            && (k in table' ==> table'[k] == table[k])
            && (k in table' <==>
                || key in table
                || (now - table[k].seen - 60_000_000_000) as real <= p.burst / p.rate * 1_000_000_000.0)
  {
    var x := p.burst / p.rate * SECOND;
    assert p.burst / p.rate >= 0.0;
    FloorBound(now - table[k].seen - MINUTE, x);
  }

  lemma FloorBound(n: int, x: real)
    ensures n <= x.Floor <==> n as real <= x
  {
  }

  // ---- Rejections are free, nobody starves ----

  /** Leaving a denied request out of a history changes no later log. */
  lemma {:induction false} DeniedLeavesNoTrace(
    p: Params, before: seq<Request>, denied: Request, after: seq<Request>, key: string)
    requires p.rate > 0.0 && Ordered(before + [denied] + after) && !Admits(p, true, before, denied)
    ensures Log(p, true, before + [denied] + after, key) == Log(p, true, before + after, key)
    decreases |after|
  {
    if after == [] {
      assert before + [denied] + after == before + [denied] && before + after == before;
      assert (before + [denied])[..|before|] == before;
    } else {
      var rest, last := after[..|after| - 1], after[|after| - 1];
      assert after == rest + [last];
      LastOfThree(before, denied, rest, last);
      PrefixOrdered(before + [denied] + after, |before + [denied] + rest|);
      WithoutOrdered(before, denied, after);
      hide Admits, Ordered, WindowAllows;
      DeniedLeavesNoTrace(p, before, denied, rest, key);
      DeniedLeavesNoTrace(p, before, denied, rest, last.key);
      BucketIsSlidingWindow(p, true, before + [denied] + rest, last);
      BucketIsSlidingWindow(p, true, before + rest, last);
    }
  }

  lemma LastOfThree(before: seq<Request>, denied: Request, rest: seq<Request>, last: Request)
    ensures before + [denied] + (rest + [last]) == (before + [denied] + rest) + [last]
    ensures before + (rest + [last]) == (before + rest) + [last]
    ensures (before + [denied] + (rest + [last]))[..|before + [denied] + rest|] == before + [denied] + rest
    ensures (before + (rest + [last]))[..|before + rest|] == before + rest
  {
  }

  lemma PrefixOrdered(reqs: seq<Request>, n: nat)
    requires Ordered(reqs) && n <= |reqs|
    ensures Ordered(reqs[..n])
  {
  }

  lemma WithoutOrdered(before: seq<Request>, denied: Request, after: seq<Request>)
    requires Ordered(before + [denied] + after)
    ensures Ordered(before + after)
  {
    var with, without := before + [denied] + after, before + after;
    forall i, j | 0 <= i <= j < |without| ensures without[i].now <= without[j].now {
      var i' := if i < |before| then i else i + 1;
      var j' := if j < |before| then j else j + 1;
      assert without[i] == with[i'] && without[j] == with[j'];
    }
  }

  /** Deleting a denied request from any history changes the answer to no other request. */
  lemma RejectionsAreFree(p: Params, before: seq<Request>, denied: Request, after: seq<Request>, r: Request)
    requires Ordered(before + [denied] + after + [r]) && !Admits(p, true, before, denied)
    ensures Admits(p, true, before + [denied] + after, r) == Admits(p, true, before + after, r)
  {
    if p.rate > 0.0 {
      OrderedPrefix(before + [denied] + after, r);
      DeniedLeavesNoTrace(p, before, denied, after, r.key);
      BucketIsSlidingWindow(p, true, before + [denied] + after, r);
      assert before + [denied] + after + [r] == before + [denied] + (after + [r]);
      WithoutOrdered(before, denied, after + [r]);
      assert before + (after + [r]) == before + after + [r];
      BucketIsSlidingWindow(p, true, before + after, r);
    }
  }

  /** A bucket was last seen at some request of its key. */
  lemma {:induction false} SeenAtSomeRequest(p: Params, reqs: seq<Request>, key: string)
    requires p.rate > 0.0 && key in After(p, true, reqs)
    ensures exists i :: 0 <= i < |reqs| && reqs[i].key == key && reqs[i].now == After(p, true, reqs)[key].seen
  {
    var before, last := reqs[..|reqs| - 1], reqs[|reqs| - 1];
    if last.key == key {
      assert reqs[|reqs| - 1].now == After(p, true, reqs)[key].seen;
    } else {
      assert key in After(p, true, before);
      SeenAtSomeRequest(p, before, key);
      var i :| 0 <= i < |before| && before[i].key == key && before[i].now == After(p, true, before)[key].seen;
      assert reqs[i] == before[i];
    }
  }

  /** A client all of whose earlier requests are at least 1/rate seconds ago is admitted. */
  lemma NobodyStarves(p: Params, reqs: seq<Request>, r: Request)
    requires p.rate > 0.0 && p.burst >= 1.0 && Ordered(reqs + [r])
    requires forall i :: 0 <= i < |reqs| && reqs[i].key == r.key ==>
                           (r.now - reqs[i].now) as real / SECOND >= 1.0 / p.rate
    ensures Admits(p, true, reqs, r)
  {
    OrderedPrefix(reqs, r);
    var table := After(p, true, reqs);
    TableMatches(p, true, reqs, r.key, r.now);
    if r.key in table {
      SeenAtSomeRequest(p, reqs, r.key);
      OneTokenEarned(p, r.now - table[r.key].seen);
    }
  }

  lemma OneTokenEarned(p: Params, d: Time)
    requires p.rate > 0.0 && d as real / SECOND >= 1.0 / p.rate
    ensures Earned(p, d) >= 1.0
  {
    var seconds := d as real / SECOND;
    assert seconds * p.rate >= 1.0 / p.rate * p.rate;
    assert 1.0 / p.rate * p.rate == 1.0;
  }

  // ---- Stamps applied out of order ----

  /** The clock is read before the lock, so stamps may be applied out of order, but by less than this. */
  const SKEW: Time := 30_000_000_000

  ghost predicate NearlyOrdered(reqs: seq<Request>) {
    forall i, j :: 0 <= i < j < |reqs| ==> reqs[i].now - reqs[j].now < SKEW
  }

  /** Admissions of `key` among the requests from `i` up to, but not including, `m`. */
  function Admissions(p: Params, reqs: seq<Request>, key: string, i: nat, m: nat): nat
    requires i <= m <= |reqs|
  {
    if m == i then 0
    else Admissions(p, reqs, key, i, m - 1) +
         if reqs[m - 1].key == key && Admits(p, true, reqs[..m - 1], reqs[m - 1]) then 1 else 0
  }

  /** What a bucket is worth, discounted by the clock; it never rises. */
  function Worth(p: Params, b: Bucket): real {
    b.tokens - Earned(p, b.seen)
  }

  lemma WorthNeverRises(p: Params, b: Bucket, now: Time)
    ensures Worth(p, Refilled(p, b, now)) <= Worth(p, b)
    ensures Worth(p, Spend(b).1) == Worth(p, b) - if Spend(b).0 then 1.0 else 0.0
  {
    EarnedAdds(p, now, b.seen);
  }

  /** A bucket is never further in debt than its latest stamp allows. */
  ghost predicate Grounded(p: Params, reqs: seq<Request>, m: nat, b: Bucket)
    requires m <= |reqs|
  {
    exists h, s :: 0 <= h <= s < m && b.seen == reqs[s].now && Worth(p, b) >= -Earned(p, reqs[h].now)
  }

  /** Before request `m`: whatever `key` has or would get is worth at most `bound`. */
  ghost predicate Bounded(p: Params, reqs: seq<Request>, m: nat, table: Table, key: string, bound: real)
    requires m <= |reqs|
  {
    if key in table then Worth(p, table[key]) <= bound
    else forall n :: m <= n < |reqs| ==> p.burst - Earned(p, reqs[n].now) <= bound
  }

  ghost predicate AllGrounded(p: Params, reqs: seq<Request>, m: nat, table: Table)
    requires m <= |reqs|
  {
    forall key :: key in table ==> Grounded(p, reqs, m, table[key])
  }

  lemma StaysGrounded(p: Params, reqs: seq<Request>, m: nat, b: Bucket)
    requires m < |reqs| && Grounded(p, reqs, m, b)
    ensures Grounded(p, reqs, m + 1, b)
  {
  }

  /** A bucket in use is grounded again after the request. */
  lemma UsedIsGrounded(p: Params, reqs: seq<Request>, m: nat, table: Table)
    requires p.rate > 0.0 && p.burst >= 1.0 && m < |reqs| && AllGrounded(p, reqs, m, table)
    ensures Grounded(p, reqs, m + 1, Spend(Opened(p, true, table, reqs[m].key, reqs[m].now)[reqs[m].key]).1)
  {
    var r := reqs[m];
    var b := Opened(p, true, table, r.key, r.now)[r.key];
    var used := Spend(b).1;
    if used.tokens >= 0.0 {
      assert Worth(p, used) >= -Earned(p, reqs[m].now);
    } else {
      assert r.key in table && b.tokens < p.burst;
      EarnedAdds(p, r.now, table[r.key].seen);
      assert Worth(p, used) == Worth(p, table[r.key]);
      var h, s :| && 0 <= h <= s < m && table[r.key].seen == reqs[s].now
                  && Worth(p, table[r.key]) >= -Earned(p, reqs[h].now);
      assert used.seen == reqs[m].now && Worth(p, used) >= -Earned(p, reqs[h].now);
    }
  }

  /** A bucket dropped by the sweep of request `m` is worth no less than any bucket opened later. */
  lemma SweptIsWorthMore(p: Params, reqs: seq<Request>, m: nat, b: Bucket, n: nat)
    requires p.rate > 0.0 && NearlyOrdered(reqs) && m <= n < |reqs|
    requires Grounded(p, reqs, m, b) && reqs[m].now - b.seen > Idle(p)
    ensures p.burst - Earned(p, reqs[n].now) <= Worth(p, b)
  {
    var h, s :| 0 <= h <= s < m && b.seen == reqs[s].now && Worth(p, b) >= -Earned(p, reqs[h].now);
    assert reqs[h].now - reqs[s].now < SKEW;
    assert reqs[m].now - reqs[n].now < SKEW;
    IdleEarnsBurst(p, reqs[n].now - reqs[h].now);
    EarnedAdds(p, reqs[n].now, reqs[h].now);
  }

  lemma AllowKeepsGrounded(p: Params, reqs: seq<Request>, m: nat, table: Table)
    requires p.rate > 0.0 && p.burst >= 1.0 && m < |reqs| && AllGrounded(p, reqs, m, table)
    ensures AllGrounded(p, reqs, m + 1, Allow(p, true, table, reqs[m].key, reqs[m].now).1)
  {
    var r := reqs[m];
    var table' := Allow(p, true, table, r.key, r.now).1;
    UsedIsGrounded(p, reqs, m, table);
    forall key | key in table' ensures Grounded(p, reqs, m + 1, table'[key]) {
      if key != r.key {
        assert key in table && table'[key] == table[key];
        StaysGrounded(p, reqs, m, table[key]);
      }
    }
  }

  lemma AllowKeepsBound(p: Params, reqs: seq<Request>, m: nat, table: Table, key: string, bound: real)
    requires p.rate > 0.0 && NearlyOrdered(reqs) && m < |reqs|
    requires AllGrounded(p, reqs, m, table) && Bounded(p, reqs, m, table, key, bound)
    ensures var (ok, table') := Allow(p, true, table, reqs[m].key, reqs[m].now);
            Bounded(p, reqs, m + 1, table', key, bound - if reqs[m].key == key && ok then 1.0 else 0.0)
  {
    var r := reqs[m];
    if r.key == key {
      var b := Opened(p, true, table, key, r.now)[key];
      if key in table {
        WorthNeverRises(p, table[key], r.now);
      }
      assert Worth(p, b) <= bound;
      WorthNeverRises(p, b, r.now);
    } else if key in table && r.key !in table && r.now - table[key].seen > Idle(p) {
      forall n | m + 1 <= n < |reqs| ensures p.burst - Earned(p, reqs[n].now) <= bound {
        SweptIsWorthMore(p, reqs, m, table[key], n);
      }
    }
  }

  lemma {:induction false} HistoryIsGrounded(p: Params, reqs: seq<Request>, m: nat)
    requires p.rate > 0.0 && p.burst >= 1.0 && m <= |reqs|
    ensures AllGrounded(p, reqs, m, After(p, true, reqs[..m]))
  {
    if m == 0 {
    } else {
      HistoryIsGrounded(p, reqs, m - 1);
      assert reqs[..m][..m - 1] == reqs[..m - 1];
      AllowKeepsGrounded(p, reqs, m - 1, After(p, true, reqs[..m - 1]));
    }
  }

  /** From its request `i` on, what a key is worth falls with every admission. */
  lemma {:induction false} HistoryIsBounded(p: Params, reqs: seq<Request>, i: nat, m: nat)
    requires p.rate > 0.0 && p.burst >= 1.0 && NearlyOrdered(reqs) && i < m <= |reqs|
    ensures var key := reqs[i].key;
            Bounded(p, reqs, m, After(p, true, reqs[..m]), key,
              p.burst - Earned(p, reqs[i].now) - Admissions(p, reqs, key, i, m) as real)
    decreases m
  {
    hide NearlyOrdered, Earned, Allow, Bounded, After, Admissions, AllGrounded, Worth;
    var key := reqs[i].key;
    if m == i + 1 {
      FirstRequestIsBounded(p, reqs, i);
    } else {
      NextRequest(p, reqs, i, m - 1);
      HistoryIsBounded(p, reqs, i, m - 1);
      HistoryIsGrounded(p, reqs, m - 1);
      AllowKeepsBound(p, reqs, m - 1, After(p, true, reqs[..m - 1]), key,
        p.burst - Earned(p, reqs[i].now) - Admissions(p, reqs, key, i, m - 1) as real);
    }
  }

  lemma NextRequest(p: Params, reqs: seq<Request>, i: nat, m: nat)
    requires i <= m < |reqs|
    ensures var (ok, table) := Allow(p, true, After(p, true, reqs[..m]), reqs[m].key, reqs[m].now);
            && After(p, true, reqs[..m + 1]) == table
            && Admissions(p, reqs, reqs[i].key, i, m + 1) as real
               == Admissions(p, reqs, reqs[i].key, i, m) as real + if reqs[m].key == reqs[i].key && ok then 1.0 else 0.0
  {
    assert reqs[..m + 1][..m] == reqs[..m];
  }

  lemma FirstRequestIsBounded(p: Params, reqs: seq<Request>, i: nat)
    requires p.rate > 0.0 && i < |reqs|
    ensures var key := reqs[i].key;
            Bounded(p, reqs, i + 1, After(p, true, reqs[..i + 1]), key,
              p.burst - Earned(p, reqs[i].now) - Admissions(p, reqs, key, i, i + 1) as real)
  {
    var key := reqs[i].key;
    assert reqs[..i + 1][..i] == reqs[..i];
    assert Admissions(p, reqs, key, i, i) == 0;
    WorthNeverRises(p, Opened(p, true, After(p, true, reqs[..i]), key, reqs[i].now)[key], reqs[i].now);
  }

  /** An admitted request leaves a bucket that is not in debt. */
  lemma AdmittedIsSolvent(p: Params, reqs: seq<Request>, j: nat)
    requires p.rate > 0.0 && j < |reqs| && Admits(p, true, reqs[..j], reqs[j])
    ensures p.burst >= 1.0
    ensures var table := After(p, true, reqs[..j + 1]);
            && reqs[j].key in table
            && table[reqs[j].key].seen == reqs[j].now && table[reqs[j].key].tokens >= 0.0
  {
    assert reqs[..j + 1][..j] == reqs[..j];
    assert Opened(p, true, After(p, true, reqs[..j]), reqs[j].key, reqs[j].now)[reqs[j].key].tokens <= p.burst;
  }

  /**
   The admission bound survives stamps applied out of order, even across sweeps: from any request of a
   key up to any admitted one, the admissions number at most the burst plus what is earned between
   their two stamps.
   */
  lemma SkewedAdmissionsAreBounded(p: Params, reqs: seq<Request>, i: nat, j: nat)
    requires p.rate > 0.0 && NearlyOrdered(reqs)
    requires i <= j < |reqs| && reqs[i].key == reqs[j].key && Admits(p, true, reqs[..j], reqs[j])
    ensures Admissions(p, reqs, reqs[i].key, i, j + 1) as real <= Allowance(p, reqs[j].now - reqs[i].now)
  {
    hide After, Allowance, Admissions, Earned, Admits, NearlyOrdered, Worth;
    AdmittedIsSolvent(p, reqs, j);
    HistoryIsBounded(p, reqs, i, j + 1);
    var b := After(p, true, reqs[..j + 1])[reqs[i].key];
    BoundFromWorth(p, b, reqs[i].now, Admissions(p, reqs, reqs[i].key, i, j + 1));
    AllowanceIsEarned(p, reqs[j].now - reqs[i].now);
  }

  lemma BoundFromWorth(p: Params, b: Bucket, from: Time, n: nat)
    requires b.tokens >= 0.0 && Worth(p, b) <= p.burst - Earned(p, from) - n as real
    ensures n as real <= p.burst + Earned(p, b.seen - from)
  {
    EarnedAdds(p, b.seen, from);
  }
}
