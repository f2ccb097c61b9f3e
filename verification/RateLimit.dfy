/** The fixed-window rate limiter (ave-server/src/lib/rate-limit.ts); times are whole milliseconds. */
module RateLimit {
  import opened Options

  type Millis = int

  /** StoredRateLimit */
  datatype Bucket = Bucket(count: nat, resetAt: Millis)

  datatype Decision = Decision(allowed: bool, retryAfterSeconds: int, resetAt: Millis, unavailable: bool)

  function CeilSeconds(ms: Millis): int {
    (ms + 999) / 1000
  }

  function Max(a: int, b: int): int {
    if a < b then b else a
  }

  /** The bucket a call counts in: the current one while its window is open, otherwise a new one. */
  function Active(current: Option<Bucket>, windowMs: int, now: Millis): Bucket {
    if current.Some? && current.value.resetAt > now then current.value else Bucket(0, now + windowMs)
  }

  function NextBucket(current: Option<Bucket>, windowMs: int, now: Millis): Bucket {
    var active := Active(current, windowMs, now);
    Bucket(active.count + 1, active.resetAt)
  }

  function Decide(next: Bucket, limit: int, now: Millis): Decision {
    Decision(next.count <= limit, Max(1, CeilSeconds(next.resetAt - now)), next.resetAt, false)
  }

  /** A window opens at a call that finds no open window; calls come in the order of their times. */
  predicate Ordered(times: seq<Millis>) {
    forall i, j :: 0 <= i < j < |times| ==> times[i] <= times[j]
  }

  /** The bucket after the first n calls, if nothing is ever forgotten. */
  function BucketAfter(times: seq<Millis>, windowMs: int, n: nat): (r: Option<Bucket>)
    requires n <= |times|
  {
    if n == 0 then None else Some(NextBucket(BucketAfter(times, windowMs, n - 1), windowMs, times[n - 1]))
  }

  predicate AllowedAt(times: seq<Millis>, limit: int, windowMs: int, i: nat)
    requires i < |times|
  {
    Decide(BucketAfter(times, windowMs, i + 1).value, limit, times[i]).allowed
  }

  /** The call that opened the window call i falls in. */
  function Opener(times: seq<Millis>, windowMs: int, i: nat): (o: nat)
    requires i < |times|
    ensures o <= i
  {
    if i == 0 then 0
    else if times[i] < times[Opener(times, windowMs, i - 1)] + windowMs then Opener(times, windowMs, i - 1)
    else i
  }

  /** The bucket records how many calls came since the window opened, and when it closes. */
  lemma {:induction false} BucketCountsFromOpener(times: seq<Millis>, windowMs: int, i: nat)
    requires i < |times|
    ensures var o := Opener(times, windowMs, i);
            BucketAfter(times, windowMs, i + 1) == Some(Bucket(i - o + 1, times[o] + windowMs))
  {
    if i > 0 {
      BucketCountsFromOpener(times, windowMs, i - 1);
    }
  }

  /** Exactly the first `limit` calls of every window are allowed. */
  lemma AllowedExactly(times: seq<Millis>, limit: int, windowMs: int, i: nat)
    requires i < |times|
    ensures AllowedAt(times, limit, windowMs, i) <==> i - Opener(times, windowMs, i) < limit
  {
    BucketCountsFromOpener(times, windowMs, i);
  }

  /** How many of the calls a up to b are allowed. */
  function Allowed(times: seq<Millis>, limit: int, windowMs: int, a: nat, b: nat): (n: nat)
    requires a <= b <= |times|
    decreases b
  {
    if a == b then 0
    else Allowed(times, limit, windowMs, a, b - 1) + if AllowedAt(times, limit, windowMs, b - 1) then 1 else 0
  }

  lemma {:induction false} AllowedSplits(times: seq<Millis>, limit: int, windowMs: int, a: nat, m: nat, b: nat)
    requires a <= m <= b <= |times|
    ensures Allowed(times, limit, windowMs, a, b)
         == Allowed(times, limit, windowMs, a, m) + Allowed(times, limit, windowMs, m, b)
    decreases b
  {
    hide AllowedAt;
    if m < b {
      AllowedSplits(times, limit, windowMs, a, m, b - 1);
    }
  }

  function Min(a: int, b: int): int {
    if a < b then a else b
  }

  /** Calls a up to b belong to the window that call o opened. */
  predicate InWindow(times: seq<Millis>, windowMs: int, o: nat, a: nat, b: nat) {
    o <= a <= b <= |times| && forall i :: a <= i < b ==> Opener(times, windowMs, i) == o
  }

  /** A window admits the smaller of its number of calls and the limit. */
  lemma {:induction false} WindowAdmits(times: seq<Millis>, limit: nat, windowMs: int, o: nat, a: nat, b: nat)
    requires InWindow(times, windowMs, o, a, b)
    ensures Allowed(times, limit, windowMs, a, b) == Min(b - o, limit) - Min(a - o, limit)
    decreases b
  {
    hide AllowedAt, Opener;
    if a < b {
      WindowAdmits(times, limit, windowMs, o, a, b - 1);
      AllowedExactly(times, limit, windowMs, b - 1);
    }
  }

  /** The end of call o's window among the calls before b: the first call it does not count. */
  lemma {:induction false} WindowEnd(times: seq<Millis>, windowMs: int, o: nat, a: nat, b: nat) returns (e: nat)
    requires o <= a < b <= |times| && Opener(times, windowMs, a) == o && windowMs > 0
    ensures a < e <= b && InWindow(times, windowMs, o, a, e)
    ensures e < b ==> Opener(times, windowMs, e) == e && times[o] + windowMs <= times[e]
    decreases b - a
  {
    if a + 1 < b && Opener(times, windowMs, a + 1) == o {
      e := WindowEnd(times, windowMs, o, a + 1, b);
    } else {
      e := a + 1;
    }
  }

  lemma MulNext(n: nat, limit: nat)
    ensures (n + 1) * limit == n * limit + limit
  {
  }

  /** n windows' length from an opener holds at most n windows. */
  lemma {:induction false} WindowsFromOpener(times: seq<Millis>, limit: nat, windowMs: int, a: nat, b: nat, n: nat)
    requires Ordered(times) && windowMs > 0 && a <= b <= |times|
    requires a < b ==> Opener(times, windowMs, a) == a && times[b - 1] < times[a] + n * windowMs
    ensures Allowed(times, limit, windowMs, a, b) <= n * limit
    decreases b - a
  {
    hide Opener, AllowedAt;
    if a < b {
      assert times[a] <= times[b - 1];
      var e := WindowEnd(times, windowMs, a, a, b);
      MulNext(n - 1, limit);
      MulNext(n - 1, windowMs);
      WindowsFromOpener(times, limit, windowMs, e, b, n - 1);
      WindowAdmits(times, limit, windowMs, a, a, e);
      AllowedSplits(times, limit, windowMs, a, e, b);
    }
  }

  /** The most calls that can be allowed in k windows' time. */
  function MostAllowed(limit: nat, k: nat): nat {
    if limit == 0 then 0 else (k + 1) * limit - 1
  }

  /** In any half-open time span as long as k windows, at most (k + 1) * limit - 1 calls are allowed. */
  lemma SpanBound(times: seq<Millis>, limit: nat, windowMs: int, a: nat, b: nat, t: Millis, k: nat)
    requires Ordered(times) && windowMs > 0 && a <= b <= |times|
    requires forall i :: a <= i < b ==> t <= times[i] < t + k * windowMs
    ensures Allowed(times, limit, windowMs, a, b) <= MostAllowed(limit, k)
  {
    hide AllowedAt;
    MulNext(k, limit);
    if a < b {
      var o := Opener(times, windowMs, a);
      if o == a {
        WindowsFromOpener(times, limit, windowMs, a, b, k);
        assert k > 0 && k * limit >= limit by { SpanIsNotEmpty(t, times[a], k, windowMs, limit); }
      } else {
        var e := WindowEnd(times, windowMs, o, a, b);
        WindowAdmits(times, limit, windowMs, o, a, e);
        WindowsFromOpener(times, limit, windowMs, e, b, k);
        AllowedSplits(times, limit, windowMs, a, e, b);
      }
    }
  }

  lemma SpanIsNotEmpty(t: Millis, x: Millis, k: nat, windowMs: int, limit: nat)
    requires t <= x < t + k * windowMs
    ensures k > 0 && k * limit >= limit
  {
    MulNext(k - 1, limit);
  }

  function Repeat(c: nat, x: Millis): seq<Millis> {
    seq(c, i => x)
  }

  lemma {:induction false} PrefixBucket(times: seq<Millis>, more: seq<Millis>, windowMs: int, n: nat)
    requires n <= |times|
    ensures BucketAfter(times + more, windowMs, n) == BucketAfter(times, windowMs, n)
  {
    if n > 0 {
      PrefixBucket(times, more, windowMs, n - 1);
    }
  }

  lemma {:induction false} PrefixAllowed(times: seq<Millis>, more: seq<Millis>, limit: nat, windowMs: int, a: nat, b: nat)
    requires a <= b <= |times|
    ensures Allowed(times + more, limit, windowMs, a, b) == Allowed(times, limit, windowMs, a, b)
    decreases b
  {
    hide BucketAfter;
    if a < b {
      PrefixAllowed(times, more, limit, windowMs, a, b - 1);
      PrefixBucket(times, more, windowMs, b);
    }
  }

  /** c calls at one time, within the limit, are all allowed. */
  lemma {:induction false} Burst(times: seq<Millis>, limit: nat, windowMs: int, x: Millis, c: nat)
    requires var active := Active(BucketAfter(times, windowMs, |times|), windowMs, x);
             active.resetAt > x && active.count + c <= limit
    ensures var active := Active(BucketAfter(times, windowMs, |times|), windowMs, x);
            var all := times + Repeat(c, x);
            && Allowed(all, limit, windowMs, |times|, |all|) == c
            && (c > 0 ==> BucketAfter(all, windowMs, |all|) == Some(Bucket(active.count + c, active.resetAt)))
  {
    if c > 0 {
      Burst(times, limit, windowMs, x, c - 1);
      var before := times + Repeat(c - 1, x);
      assert times + Repeat(c, x) == before + [x];
      PrefixBucket(before, [x], windowMs, |before|);
      PrefixAllowed(before, [x], limit, windowMs, |times|, |before|);
      assert c == 1 ==> before == times;
    }
  }

  /** One call, the rest of its window's calls just before the window closes, then k full windows. */
  function Bursts(limit: nat, windowMs: int, k: nat): seq<Millis>
    requires limit > 0
    decreases k
  {
    if k == 0 then [0] + Repeat(limit - 1, windowMs - 1) else Bursts(limit, windowMs, k - 1) + Repeat(limit, k * windowMs)
  }

  lemma {:induction false} BurstsAreOrdered(limit: nat, windowMs: int, k: nat)
    requires limit > 0 && windowMs > 1
    ensures var times := Bursts(limit, windowMs, k);
            && |times| >= 1 && Ordered(times)
            && forall i :: 1 <= i < |times| ==> windowMs - 1 <= times[i] <= Max(k * windowMs, windowMs - 1)
    decreases k
  {
    if k > 0 {
      BurstsAreOrdered(limit, windowMs, k - 1);
      MulNext(k - 1, windowMs);
      assert Bursts(limit, windowMs, k - 1)[0] == 0 by { BurstsStartAtZero(limit, windowMs, k - 1); }
    }
  }

  lemma {:induction false} BurstsStartAtZero(limit: nat, windowMs: int, k: nat)
    requires limit > 0
    ensures |Bursts(limit, windowMs, k)| > 0 && Bursts(limit, windowMs, k)[0] == 0
    decreases k
  {
    if k > 0 {
      BurstsStartAtZero(limit, windowMs, k - 1);
    }
  }

  lemma {:induction false} BurstsAreAllowed(limit: nat, windowMs: int, k: nat)
    requires limit > 0 && windowMs > 1
    ensures var times := Bursts(limit, windowMs, k);
            && |times| >= 1
            && Allowed(times, limit, windowMs, 1, |times|) == MostAllowed(limit, k)
            && BucketAfter(times, windowMs, |times|) == Some(Bucket(limit, (k + 1) * windowMs))
    decreases k
  {
    hide Allowed, AllowedAt;
    var times := Bursts(limit, windowMs, k);
    if k == 0 {
      assert BucketAfter([0], windowMs, 1) == Some(Bucket(1, windowMs));
      Burst([0], limit, windowMs, windowMs - 1, limit - 1);
      assert limit == 1 ==> times == [0];
    } else {
      hide BucketAfter;
      BurstsAreAllowed(limit, windowMs, k - 1);
      var before := Bursts(limit, windowMs, k - 1);
      MulNext(k, windowMs);
      MulNext(k, limit);
      Burst(before, limit, windowMs, k * windowMs, limit);
      PrefixAllowed(before, Repeat(limit, k * windowMs), limit, windowMs, 1, |before|);
      AllowedSplits(times, limit, windowMs, 1, |before|, |times|);
    }
  }

  /** The bound cannot be lowered: for every limit, window and k this trace attains it. */
  lemma SpanBoundIsAttained(limit: nat, windowMs: int, k: nat)
    requires limit > 0 && windowMs > 1 && k > 0
    ensures var times := Bursts(limit, windowMs, k);
            && |times| >= 1 && Ordered(times)
            && (forall i :: 1 <= i < |times| ==> windowMs - 1 <= times[i] < windowMs - 1 + k * windowMs)
            && Allowed(times, limit, windowMs, 1, |times|) == MostAllowed(limit, k)
  {
    BurstsAreOrdered(limit, windowMs, k);
    BurstsAreAllowed(limit, windowMs, k);
    hide Bursts, Allowed;
    MulNext(k - 1, windowMs);
    assert (k - 1) * windowMs >= 0;
  }

  /** The bucket after n calls in a store that drops it before some of them. */
  function Stored(times: seq<Millis>, gone: seq<bool>, windowMs: int, n: nat): Option<Bucket>
    requires n <= |times| == |gone|
  {
    if n == 0 then None
    else
      var found := if gone[n - 1] then None else Stored(times, gone, windowMs, n - 1);
      Some(NextBucket(found, windowMs, times[n - 1]))
  }

  /** txn.put(..., { expiration: ceil(resetAt / 1000) }): the entry may be dropped from that second on. */
  predicate DroppedOnlyOnceExpired(times: seq<Millis>, gone: seq<bool>, windowMs: int)
    requires |times| == |gone|
  {
    forall i :: 1 <= i < |times| && gone[i] ==>
      (var stored := Stored(times, gone, windowMs, i);
       stored.Some? && times[i] >= 1000 * CeilSeconds(stored.value.resetAt))
  }

  /** A store that drops expired entries decides like one that keeps them all. */
  lemma {:induction false} ExpiryIsInvisible(times: seq<Millis>, gone: seq<bool>, windowMs: int, n: nat)
    requires n <= |times| == |gone| && DroppedOnlyOnceExpired(times, gone, windowMs)
    ensures Stored(times, gone, windowMs, n) == BucketAfter(times, windowMs, n)
  {
    if n > 0 {
      ExpiryIsInvisible(times, gone, windowMs, n - 1);
    }
  }

  /** The hint is exact to the second: waiting s seconds finds the window closed, and the call allowed,
      just when s is at least the hint; a denied caller that waits less is denied again. */
  lemma RetryAfterIsExact(current: Option<Bucket>, limit: int, windowMs: int, now: Millis, s: int)
    requires windowMs > 0 && limit >= 1 && s >= 1
    ensures var next := NextBucket(current, windowMs, now);
            var decision := Decide(next, limit, now);
            var again := NextBucket(Some(next), windowMs, now + 1000 * s);
            && (s >= decision.retryAfterSeconds <==> next.resetAt <= now + 1000 * s)
            && (s >= decision.retryAfterSeconds ==> Decide(again, limit, now + 1000 * s).allowed)
            && (s < decision.retryAfterSeconds && !decision.allowed ==> !Decide(again, limit, now + 1000 * s).allowed)
  {
    var next := NextBucket(current, windowMs, now);
    assert next.resetAt > now;
    assert CeilSeconds(next.resetAt - now) >= 1;
  }

  /** What a call is told and what its bucket becomes: it counts as one more in a window that is open, and opens one
      otherwise; it is allowed up to the limit; the hint is the least number of whole seconds, one at least, after
      which the window is over. */
  predicate Decides(current: Option<Bucket>, limit: int, windowMs: int, now: Millis, next: Bucket, decision: Decision) {
    var open := current.Some? && now < current.value.resetAt;
    && next.count == (if open then current.value.count + 1 else 1)
    && next.resetAt == (if open then current.value.resetAt else now + windowMs)
    && (decision.allowed <==> next.count <= limit)
    && decision.resetAt == next.resetAt && !decision.unavailable
    && decision.retryAfterSeconds >= 1 && next.resetAt <= now + 1000 * decision.retryAfterSeconds
    && (decision.retryAfterSeconds > 1 ==> now + 1000 * (decision.retryAfterSeconds - 1) < next.resetAt)
  }

  lemma DecidesAsTold(current: Option<Bucket>, limit: int, windowMs: int, now: Millis)
    ensures var next := NextBucket(current, windowMs, now);
            Decides(current, limit, windowMs, now, next, Decide(next, limit, now))
  {
  }

  /** A key has one bucket in its durable object and one in the memory of this isolate. */
  datatype Place = Durable | Memory

  /** One count in one bucket of a storage key, with the numbers of its rule. The durable object counts a call
      whether or not its answer arrives; the fallback in memory always answers. */
  datatype Charge = Charge(place: Place, key: string, limit: nat, windowMs: int, answered: bool, now: Millis)

  type Buckets = map<(Place, string), Bucket>

  function Get(buckets: Buckets, place: Place, key: string): Option<Bucket> {
    if (place, key) in buckets then Some(buckets[(place, key)]) else None
  }

  function Counted(buckets: Buckets, c: Charge): Bucket {
    NextBucket(Get(buckets, c.place, c.key), c.windowMs, c.now)
  }

  function Count(buckets: Buckets, c: Charge): Buckets {
    buckets[(c.place, c.key) := Counted(buckets, c)]
  }

  function Judge(buckets: Buckets, c: Charge): Decision {
    Decide(Counted(buckets, c), c.limit, c.now)
  }

  /** The buckets after charges that are made one after the other. */
  function AfterCharges(buckets: Buckets, charges: seq<Charge>): Buckets
    decreases |charges|
  {
    if charges == [] then buckets
    else Count(AfterCharges(buckets, charges[..|charges| - 1]), charges[|charges| - 1])
  }

  /** The times of the charges to one bucket of the key. */
  function TimesIn(charges: seq<Charge>, place: Place, key: string): seq<Millis>
    decreases |charges|
  {
    if charges == [] then []
    else
      var last := charges[|charges| - 1];
      TimesIn(charges[..|charges| - 1], place, key) + if last.key == key && last.place == place then [last.now] else []
  }

  /** All charges to this key come from rules with these numbers. */
  predicate OneRule(charges: seq<Charge>, key: string, limit: nat, windowMs: int) {
    forall i :: 0 <= i < |charges| && charges[i].key == key ==> charges[i].limit == limit && charges[i].windowMs == windowMs
  }

  lemma OneMoreTime(times: seq<Millis>, counts: bool, now: Millis, windowMs: int)
    ensures var more := times + if counts then [now] else [];
            BucketAfter(more, windowMs, |more|)
              == if counts then Some(NextBucket(BucketAfter(times, windowMs, |times|), windowMs, now))
                 else BucketAfter(times, windowMs, |times|)
  {
    if counts {
      PrefixBucket(times, [now], windowMs, |times|);
    } else {
      assert times + [] == times;
    }
  }

  /** Buckets are independent: what one holds depends on the charges to it alone. */
  lemma {:induction false} BucketsAreIndependent(charges: seq<Charge>, place: Place, key: string, limit: nat, windowMs: int)
    requires OneRule(charges, key, limit, windowMs)
    ensures var times := TimesIn(charges, place, key);
            Get(AfterCharges(map[], charges), place, key) == BucketAfter(times, windowMs, |times|)
    decreases |charges|
  {
    if charges != [] {
      var before := charges[..|charges| - 1];
      var last := charges[|charges| - 1];
      BucketsAreIndependent(before, place, key, limit, windowMs);
      OneMoreTime(TimesIn(before, place, key), last.key == key && last.place == place, last.now, windowMs);
    }
  }

  predicate Passes(buckets: Buckets, c: Charge, key: string) {
    c.key == key && c.answered && Judge(buckets, c).allowed
  }

  /** How many of the charges to this key, from the a-th on, let their call pass. */
  function Passed(charges: seq<Charge>, key: string, a: nat): nat
    requires a <= |charges|
    decreases |charges|
  {
    if a == |charges| then 0
    else
      var before := charges[..|charges| - 1];
      Passed(before, key, a) + if Passes(AfterCharges(map[], before), charges[|charges| - 1], key) then 1 else 0
  }

  /** The charges to one bucket, from the a-th charge on, that were within the limit there. */
  function PassedIn(charges: seq<Charge>, place: Place, key: string, limit: nat, windowMs: int, a: nat): nat
    requires a <= |charges| && |TimesIn(charges[..a], place, key)| <= |TimesIn(charges, place, key)|
  {
    var times := TimesIn(charges, place, key);
    Allowed(times, limit, windowMs, |TimesIn(charges[..a], place, key)|, |times|)
  }

  lemma {:induction false} TimesGrow(charges: seq<Charge>, place: Place, key: string, a: nat)
    requires a <= |charges|
    ensures TimesIn(charges[..a], place, key) <= TimesIn(charges, place, key)
    decreases |charges|
  {
    if a < |charges| {
      TimesGrow(charges[..|charges| - 1], place, key, a);
      assert charges[..|charges| - 1][..a] == charges[..a];
    } else {
      assert charges[..a] == charges;
    }
  }

  lemma OneMoreAllowed(times: seq<Millis>, counts: bool, now: Millis, limit: nat, windowMs: int, i: nat)
    requires i <= |times|
    ensures var more := times + if counts then [now] else [];
            Allowed(more, limit, windowMs, i, |more|) == Allowed(times, limit, windowMs, i, |times|)
              + if counts && NextBucket(BucketAfter(times, windowMs, |times|), windowMs, now).count <= limit then 1 else 0
  {
    if counts {
      PrefixAllowed(times, [now], limit, windowMs, i, |times|);
      PrefixBucket(times, [now], windowMs, |times|);
    } else {
      assert times + [] == times;
    }
  }

  /** What the last charge adds to those within the limit of one bucket. */
  lemma LastChargeIn(charges: seq<Charge>, place: Place, key: string, limit: nat, windowMs: int, a: nat)
    requires a < |charges| && OneRule(charges, key, limit, windowMs)
    requires |TimesIn(charges[..|charges| - 1][..a], place, key)| <= |TimesIn(charges[..|charges| - 1], place, key)|
    requires |TimesIn(charges[..a], place, key)| <= |TimesIn(charges, place, key)|
    ensures var before, last := charges[..|charges| - 1], charges[|charges| - 1];
            var bucket := Get(AfterCharges(map[], before), place, key);
            PassedIn(charges, place, key, limit, windowMs, a) == PassedIn(before, place, key, limit, windowMs, a)
              + if last.key == key && last.place == place && NextBucket(bucket, windowMs, last.now).count <= limit
                then 1 else 0
  {
    hide AfterCharges, Allowed, NextBucket, BucketAfter, Get;
    var before, last := charges[..|charges| - 1], charges[|charges| - 1];
    var times := TimesIn(before, place, key);
    assert before[..a] == charges[..a];
    BucketsAreIndependent(before, place, key, limit, windowMs);
    OneMoreAllowed(times, last.key == key && last.place == place, last.now, limit, windowMs,
                   |TimesIn(charges[..a], place, key)|);
  }

  /** The calls of a key that pass are those within the limit of its durable bucket or of its bucket in memory,
      but for answers of the durable object that are lost. */
  lemma {:induction false} PassedInOneOfTwo(charges: seq<Charge>, key: string, limit: nat, windowMs: int, a: nat)
    requires a <= |charges| && OneRule(charges, key, limit, windowMs)
    ensures |TimesIn(charges[..a], Durable, key)| <= |TimesIn(charges, Durable, key)|
    ensures |TimesIn(charges[..a], Memory, key)| <= |TimesIn(charges, Memory, key)|
    ensures var both := PassedIn(charges, Durable, key, limit, windowMs, a)
                          + PassedIn(charges, Memory, key, limit, windowMs, a);
            && Passed(charges, key, a) <= both
            && ((forall i :: a <= i < |charges| && charges[i].key == key ==> charges[i].answered)
                ==> Passed(charges, key, a) == both)
    decreases |charges|
  {
    TimesGrow(charges, Durable, key, a);
    TimesGrow(charges, Memory, key, a);
    if a < |charges| {
      var before := charges[..|charges| - 1];
      PassedInOneOfTwo(before, key, limit, windowMs, a);
      LastChargeIn(charges, Durable, key, limit, windowMs, a);
      LastChargeIn(charges, Memory, key, limit, windowMs, a);
      hide AfterCharges, PassedIn, TimesIn;
    } else {
      assert charges[..a] == charges;
    }
  }

  predicate InOrder(charges: seq<Charge>) {
    forall i, j :: 0 <= i < j < |charges| ==> charges[i].now <= charges[j].now
  }

  lemma {:induction false} TimesInSpan(charges: seq<Charge>, place: Place, key: string, a: nat, lo: Millis, hi: Millis)
    requires InOrder(charges) && a <= |charges| && forall i :: a <= i < |charges| ==> lo <= charges[i].now < hi
    ensures var times := TimesIn(charges, place, key);
            && Ordered(times)
            && (forall i :: 0 <= i < |times| ==> charges != [] && times[i] <= charges[|charges| - 1].now)
            && forall i :: |TimesIn(charges[..a], place, key)| <= i < |times| ==> lo <= times[i] < hi
    decreases |charges|
  {
    if a == |charges| {
      assert charges[..a] == charges;
    }
    if charges != [] {
      var before := charges[..|charges| - 1];
      TimesInSpan(before, place, key, if a == |charges| then |before| else a, lo, hi);
      if a < |charges| {
        assert before[..a] == charges[..a];
      }
    }
  }

  lemma BucketIsLimited(charges: seq<Charge>, place: Place, key: string, limit: nat, windowMs: int, a: nat, t: Millis, k: nat)
    requires InOrder(charges) && windowMs > 0 && a <= |charges|
    requires |TimesIn(charges[..a], place, key)| <= |TimesIn(charges, place, key)|
    requires forall i :: a <= i < |charges| ==> t <= charges[i].now < t + k * windowMs
    ensures PassedIn(charges, place, key, limit, windowMs, a) <= MostAllowed(limit, k)
  {
    TimesInSpan(charges, place, key, a, t, t + k * windowMs);
    var times := TimesIn(charges, place, key);
    hide TimesIn, InOrder, Allowed;
    SpanBound(times, limit, windowMs, |TimesIn(charges[..a], place, key)|, |times|, t, k);
  }

  lemma {:induction false} NothingInMemory(charges: seq<Charge>, key: string, a: nat)
    requires a <= |charges|
    requires forall i :: a <= i < |charges| && charges[i].key == key ==> charges[i].place.Durable?
    ensures TimesIn(charges, Memory, key) == TimesIn(charges[..a], Memory, key)
    decreases |charges|
  {
    if a == |charges| {
      assert charges[..a] == charges;
    } else {
      var before := charges[..|charges| - 1];
      NothingInMemory(before, key, a);
      assert before[..a] == charges[..a];
    }
  }

  /** While the key's durable object answers, a call passes exactly when it is within the limit there. */
  lemma DurableCallsPassExactly(charges: seq<Charge>, key: string, limit: nat, windowMs: int, a: nat)
    requires a <= |charges| && OneRule(charges, key, limit, windowMs)
    requires forall i :: a <= i < |charges| && charges[i].key == key ==> charges[i].place.Durable? && charges[i].answered
    ensures |TimesIn(charges[..a], Durable, key)| <= |TimesIn(charges, Durable, key)|
    ensures Passed(charges, key, a) == PassedIn(charges, Durable, key, limit, windowMs, a)
  {
    hide Passed;
    PassedInOneOfTwo(charges, key, limit, windowMs, a);
    NothingInMemory(charges, key, a);
  }

  lemma ChargesAreLimited(charges: seq<Charge>, key: string, limit: nat, windowMs: int, a: nat, t: Millis, k: nat)
    requires InOrder(charges) && OneRule(charges, key, limit, windowMs) && windowMs > 0 && a <= |charges|
    requires forall i :: a <= i < |charges| ==> t <= charges[i].now < t + k * windowMs
    ensures Passed(charges, key, a) <= 2 * MostAllowed(limit, k)
    ensures (forall i :: a <= i < |charges| && charges[i].key == key ==> charges[i].place.Durable?)
            ==> Passed(charges, key, a) <= MostAllowed(limit, k)
  {
    PassedInOneOfTwo(charges, key, limit, windowMs, a);
    BucketIsLimited(charges, Durable, key, limit, windowMs, a, t, k);
    BucketIsLimited(charges, Memory, key, limit, windowMs, a, t, k);
    if forall i :: a <= i < |charges| && charges[i].key == key ==> charges[i].place.Durable? {
      NothingInMemory(charges, key, a);
    }
  }

  /** A call that fell back to memory and has not stored its bucket yet. */
  datatype Pending = Pending(key: string, next: Bucket)

  type CallId = nat

  datatype Limiter = Limiter(buckets: Buckets, pending: map<CallId, Pending>)

  const IDLE: Limiter := Limiter(map[], map[])

  /** The transaction of a durable object is one step; the fallback reads its bucket, and stores it after an await. */
  datatype Step = Transact(c: Charge) | ReadMemory(call: CallId, c: Charge) | WriteMemory(call: CallId)

  predicate Enabled(l: Limiter, step: Step) {
    match step
    case Transact(c) => c.place.Durable?
    case ReadMemory(call, c) => call !in l.pending && c.place.Memory? && c.answered
    case WriteMemory(call) => call in l.pending
  }

  function StepOnce(l: Limiter, step: Step): Limiter
    requires Enabled(l, step)
  {
    match step
    case Transact(c) => l.(buckets := Count(l.buckets, c))
    case ReadMemory(call, c) => l.(pending := l.pending[call := Pending(c.key, Counted(l.buckets, c))])
    case WriteMemory(call) =>
      Limiter(l.buckets[(Memory, l.pending[call].key) := l.pending[call].next], l.pending - {call})
  }

  /** A step that cannot happen leaves the limiter alone, so every list of steps is a run. */
  function Apply(l: Limiter, step: Step): Limiter {
    if Enabled(l, step) then StepOnce(l, step) else l
  }

  function AfterSteps(l: Limiter, steps: seq<Step>): Limiter
    decreases |steps|
  {
    if steps == [] then l else Apply(AfterSteps(l, steps[..|steps| - 1]), steps[|steps| - 1])
  }

  predicate Charges(l: Limiter, step: Step) {
    Enabled(l, step) && !step.WriteMemory?
  }

  /** The charges a run makes, each at the step that reads its bucket. */
  function ChargesOf(l: Limiter, steps: seq<Step>): seq<Charge>
    decreases |steps|
  {
    if steps == [] then []
    else
      var before, last := steps[..|steps| - 1], steps[|steps| - 1];
      ChargesOf(l, before) + if Charges(AfterSteps(l, before), last) then [last.c] else []
  }

  /** How many calls with this key the steps from the a-th on let pass. */
  function PassedBy(l: Limiter, steps: seq<Step>, key: string, a: nat): nat
    requires a <= |steps|
    decreases |steps|
  {
    if a == |steps| then 0
    else
      var before, last := steps[..|steps| - 1], steps[|steps| - 1];
      var now := AfterSteps(l, before);
      PassedBy(l, before, key, a) + if Charges(now, last) && Passes(now.buckets, last.c, key) then 1 else 0
  }

  predicate Waits(l: Limiter, key: string) {
    exists call :: call in l.pending && l.pending[call].key == key
  }

  /** No call of the key falls back to memory between another one's reading and its writing. */
  predicate NoOverlap(l: Limiter, steps: seq<Step>, key: string)
    decreases |steps|
  {
    steps == [] ||
    var before, last := steps[..|steps| - 1], steps[|steps| - 1];
    && NoOverlap(l, before, key)
    && !(last.ReadMemory? && last.c.key == key
         && Charges(AfterSteps(l, before), last) && Waits(AfterSteps(l, before), key))
  }

  /** For one key the limiter holds what these buckets hold, but for one bucket on its way to memory. */
  predicate Agrees(l: Limiter, buckets: Buckets, key: string) {
    && Get(l.buckets, Durable, key) == Get(buckets, Durable, key)
    && (!Waits(l, key) ==> Get(l.buckets, Memory, key) == Get(buckets, Memory, key))
    && (forall call :: call in l.pending && l.pending[call].key == key ==>
          Some(l.pending[call].next) == Get(buckets, Memory, key))
    && (forall x, y :: x in l.pending && y in l.pending && l.pending[x].key == key && l.pending[y].key == key ==>
          x == y)
  }

  lemma StepAgrees(l: Limiter, step: Step, buckets: Buckets, key: string)
    requires Agrees(l, buckets, key)
    requires !(step.ReadMemory? && step.c.key == key && Charges(l, step) && Waits(l, key))
    ensures Agrees(Apply(l, step), if Charges(l, step) then Count(buckets, step.c) else buckets, key)
    ensures Charges(l, step) ==> (Passes(l.buckets, step.c, key) <==> Passes(buckets, step.c, key))
  {
    if Enabled(l, step) {
      match step
      case Transact(c) => assert Apply(l, step).pending == l.pending;
      case ReadMemory(call, c) => ReadAgrees(l, call, c, buckets, key);
      case WriteMemory(call) => WriteAgrees(l, call, buckets, key);
    }
  }

  lemma ReadAgrees(l: Limiter, call: CallId, c: Charge, buckets: Buckets, key: string)
    requires Agrees(l, buckets, key) && Enabled(l, ReadMemory(call, c)) && !(c.key == key && Waits(l, key))
    ensures Agrees(StepOnce(l, ReadMemory(call, c)), Count(buckets, c), key)
  {
    hide Counted;
    var after := StepOnce(l, ReadMemory(call, c));
    assert call in after.pending && after.pending[call].key == c.key;
    assert forall x :: x in l.pending ==> x in after.pending && after.pending[x] == l.pending[x];
    if c.key == key {
      SameBucket(l, c, buckets);
    }
  }

  lemma SameBucket(l: Limiter, c: Charge, buckets: Buckets)
    requires Agrees(l, buckets, c.key) && (c.place.Durable? || !Waits(l, c.key))
    ensures Counted(l.buckets, c) == Counted(buckets, c)
  {
    hide NextBucket;
    assert Get(l.buckets, c.place, c.key) == Get(buckets, c.place, c.key) by {
      assert c.place == Durable || c.place == Memory;
    }
  }

  lemma WriteAgrees(l: Limiter, call: CallId, buckets: Buckets, key: string)
    requires Agrees(l, buckets, key) && Enabled(l, WriteMemory(call))
    ensures Agrees(StepOnce(l, WriteMemory(call)), buckets, key)
  {
    var after := StepOnce(l, WriteMemory(call));
    assert forall x :: x in l.pending && x != call ==> x in after.pending && after.pending[x] == l.pending[x];
  }

  lemma CountsOneMore(buckets: Buckets, charges: seq<Charge>, c: Charge)
    ensures AfterCharges(buckets, charges + [c]) == Count(AfterCharges(buckets, charges), c)
  {
    assert (charges + [c])[..|charges|] == charges;
  }

  lemma ChargesRead(l: Limiter, step: Step)
    requires Charges(l, step)
    ensures !step.WriteMemory?
  {
  }

  lemma OneMoreCharge(charges: seq<Charge>, c: Charge, key: string, a: nat)
    requires a <= |charges|
    ensures AfterCharges(map[], charges + [c]) == Count(AfterCharges(map[], charges), c)
    ensures Passed(charges + [c], key, a)
         == Passed(charges, key, a) + if Passes(AfterCharges(map[], charges), c, key) then 1 else 0
  {
    assert (charges + [c])[..|charges|] == charges;
  }

  lemma NonePassed(charges: seq<Charge>, key: string)
    ensures Passed(charges, key, |charges|) == 0
  {
  }

  /** Without overlaps a run of a key is its charges made one after the other. */
  lemma {:induction false} RunIsSerial(steps: seq<Step>, key: string, a: nat)
    requires a <= |steps| && NoOverlap(IDLE, steps, key)
    ensures Agrees(AfterSteps(IDLE, steps), AfterCharges(map[], ChargesOf(IDLE, steps)), key)
    ensures |ChargesOf(IDLE, steps[..a])| <= |ChargesOf(IDLE, steps)|
    ensures PassedBy(IDLE, steps, key, a) == Passed(ChargesOf(IDLE, steps), key, |ChargesOf(IDLE, steps[..a])|)
    decreases |steps|
  {
    assert Agrees(IDLE, map[], key) && AfterCharges(map[], []) == map[];
    hide Agrees, Apply, Charges, Passes, Waits, Count, AfterCharges, Passed;
    if steps != [] {
      var before, last := steps[..|steps| - 1], steps[|steps| - 1];
      var charges := ChargesOf(IDLE, before);
      var b := if a == |steps| then a - 1 else a;
      RunIsSerial(before, key, b);
      assert before[..b] == steps[..b];
      StepAgrees(AfterSteps(IDLE, before), last, AfterCharges(map[], charges), key);
      assert charges + [] == charges;
      if Charges(AfterSteps(IDLE, before), last) {
        ChargesRead(AfterSteps(IDLE, before), last);
        OneMoreCharge(charges, last.c, key, |ChargesOf(IDLE, steps[..b])|);
      }
    }
    if a == |steps| {
      assert steps[..a] == steps;
      NonePassed(ChargesOf(IDLE, steps), key);
    }
  }

  /** The buckets of a run's charges made one after the other. */
  function Serial(steps: seq<Step>): Buckets {
    AfterCharges(map[], ChargesOf(IDLE, steps))
  }

  /** The step counts its call as the serial buckets do. */
  predicate CountsAs(l: Limiter, buckets: Buckets, step: Step, key: string) {
    Charges(l, step) && step.c.key == key ==> Counted(l.buckets, step.c) == Counted(buckets, step.c)
  }

  /** Whenever no call of the key is on its way to memory, memory holds the serial bucket. */
  predicate Settled(l: Limiter, buckets: Buckets, key: string) {
    Waits(l, key) || Get(l.buckets, Memory, key) == Get(buckets, Memory, key)
  }

  predicate SerialThroughout(steps: seq<Step>, key: string)
    decreases |steps|
  {
    steps == [] ||
    var before, last := steps[..|steps| - 1], steps[|steps| - 1];
    && SerialThroughout(before, key)
    && CountsAs(AfterSteps(IDLE, before), Serial(before), last, key)
    && Settled(AfterSteps(IDLE, steps), Serial(steps), key)
  }

  predicate Reads(l: Limiter, step: Step, key: string) {
    step.ReadMemory? && Charges(l, step) && step.c.key == key
  }

  /** What the latest fallback of the key is to store. */
  function Latest(steps: seq<Step>, key: string): Option<Bucket>
    decreases |steps|
  {
    if steps == [] then None
    else
      var before, last := steps[..|steps| - 1], steps[|steps| - 1];
      if Reads(AfterSteps(IDLE, before), last, key) then Some(Counted(AfterSteps(IDLE, before).buckets, last.c))
      else Latest(before, key)
  }

  predicate WaitsBeside(l: Limiter, key: string, call: CallId) {
    exists other :: other in l.pending && other != call && l.pending[other].key == key
  }

  /** A fallback finds the latest bucket stored, or its window closed; and the last of the fallbacks on their way to
      memory stores the latest bucket. */
  predicate StepsInTime(l: Limiter, latest: Option<Bucket>, step: Step, key: string) {
    match step
    case Transact(_) => true
    case ReadMemory(_, c) =>
      Reads(l, step, key) ==> Get(l.buckets, Memory, key) == latest || (latest.Some? && latest.value.resetAt <= c.now)
    case WriteMemory(call) =>
      call in l.pending && l.pending[call].key == key && !WaitsBeside(l, key, call) ==> Some(l.pending[call].next) == latest
  }

  predicate InTime(steps: seq<Step>, key: string)
    decreases |steps|
  {
    steps == [] ||
    var before, last := steps[..|steps| - 1], steps[|steps| - 1];
    InTime(before, key) && StepsInTime(AfterSteps(IDLE, before), Latest(before, key), last, key)
  }

  /** A bucket the key had before the latest one, if it is another. */
  predicate NotNewer(bucket: Option<Bucket>, latest: Option<Bucket>) {
    bucket == latest ||
    (latest.Some? &&
      (bucket.None? || bucket.value.resetAt < latest.value.resetAt
       || (bucket.value.resetAt == latest.value.resetAt && bucket.value.count < latest.value.count)))
  }

  predicate Follows(l: Limiter, latest: Option<Bucket>, buckets: Buckets, key: string) {
    && Get(l.buckets, Durable, key) == Get(buckets, Durable, key) && Get(buckets, Memory, key) == latest
    && (latest.Some? ==> latest.value.count >= 1)
    && NotNewer(Get(l.buckets, Memory, key), latest)
    && (forall call :: call in l.pending && l.pending[call].key == key ==> NotNewer(Some(l.pending[call].next), latest))
    && Settled(l, buckets, key)
  }

  /** A bucket that is not newer counts a call like the latest one exactly if it is the latest or that one is closed. */
  lemma StaleCountsExactly(bucket: Option<Bucket>, latest: Option<Bucket>, windowMs: int, now: Millis)
    requires NotNewer(bucket, latest) && windowMs > 0 && (latest.Some? ==> latest.value.count >= 1)
    ensures NextBucket(bucket, windowMs, now) == NextBucket(latest, windowMs, now)
       <==> bucket == latest || (latest.Some? && latest.value.resetAt <= now)
    ensures NotNewer(latest, Some(NextBucket(latest, windowMs, now)))
    ensures forall b :: NotNewer(b, latest) ==> NotNewer(b, Some(NextBucket(latest, windowMs, now)))
  {
  }

  predicate OpensWindows(l: Limiter, step: Step, key: string) {
    Charges(l, step) && step.c.key == key ==> step.c.windowMs > 0
  }

  function LatestAfter(l: Limiter, latest: Option<Bucket>, step: Step, key: string): Option<Bucket> {
    if Reads(l, step, key) then Some(Counted(l.buckets, step.c)) else latest
  }

  function SerialAfter(l: Limiter, buckets: Buckets, step: Step): Buckets {
    if Charges(l, step) then Count(buckets, step.c) else buckets
  }

  lemma ReadInTimeExactly(l: Limiter, latest: Option<Bucket>, buckets: Buckets, call: CallId, c: Charge, key: string)
    requires Follows(l, latest, buckets, key) && Enabled(l, ReadMemory(call, c)) && c.key == key && c.windowMs > 0
    ensures var step := ReadMemory(call, c);
            && (CountsAs(l, buckets, step, key) <==> StepsInTime(l, latest, step, key))
            && (CountsAs(l, buckets, step, key) ==>
                  Follows(StepOnce(l, step), Some(Counted(l.buckets, c)), Count(buckets, c), key))
  {
    StaleCountsExactly(Get(l.buckets, Memory, key), latest, c.windowMs, c.now);
    var step := ReadMemory(call, c);
    var after := StepOnce(l, step);
    hide NextBucket, NotNewer;
    assert call in after.pending && after.pending[call].key == key;
    assert Counted(buckets, c) == NextBucket(latest, c.windowMs, c.now);
    assert NotNewer(Some(Counted(buckets, c)), Some(Counted(buckets, c))) by { NewestIsNotNewer(Some(Counted(buckets, c))); }
    assert Counted(buckets, c).count >= 1 by { CountsAtLeastOne(latest, c.windowMs, c.now); }
    if CountsAs(l, buckets, step, key) {
      forall x | x in after.pending && after.pending[x].key == key
        ensures NotNewer(Some(after.pending[x].next), Some(Counted(l.buckets, c)))
      {
        assert x != call ==> x in l.pending && after.pending[x] == l.pending[x];
      }
    }
  }

  lemma NewestIsNotNewer(bucket: Option<Bucket>)
    ensures NotNewer(bucket, bucket)
  {
  }

  lemma CountsAtLeastOne(latest: Option<Bucket>, windowMs: int, now: Millis)
    ensures NextBucket(latest, windowMs, now).count >= 1
  {
  }

  lemma WriteInTimeExactly(l: Limiter, latest: Option<Bucket>, buckets: Buckets, call: CallId, key: string)
    requires Follows(l, latest, buckets, key) && Enabled(l, WriteMemory(call))
    ensures var after := StepOnce(l, WriteMemory(call));
            && (Settled(after, buckets, key) <==> StepsInTime(l, latest, WriteMemory(call), key))
            && (Settled(after, buckets, key) ==> Follows(after, latest, buckets, key))
  {
    hide NotNewer;
    var after := StepOnce(l, WriteMemory(call));
    assert forall x :: x in l.pending && x != call ==> x in after.pending && after.pending[x] == l.pending[x];
    assert forall x :: x in after.pending ==> x in l.pending && x != call;
    if l.pending[call].key == key {
      assert Waits(after, key) <==> WaitsBeside(l, key, call);
    } else {
      assert Waits(after, key) <==> Waits(l, key);
    }
  }

  lemma OtherChargeFollows(l: Limiter, latest: Option<Bucket>, buckets: Buckets, step: Step, key: string)
    requires Follows(l, latest, buckets, key) && Charges(l, step) && !Reads(l, step, key)
    ensures Follows(StepOnce(l, step), latest, Count(buckets, step.c), key)
    ensures CountsAs(l, buckets, step, key)
  {
    hide NotNewer, NextBucket;
    var after := StepOnce(l, step);
    if step.ReadMemory? {
      assert step.c.key != key && step.call in after.pending;
      assert forall x :: x in l.pending ==> x in after.pending && after.pending[x] == l.pending[x];
      assert Waits(after, key) <==> Waits(l, key);
    } else {
      assert after.pending == l.pending;
    }
  }

  lemma StepInTimeExactly(l: Limiter, latest: Option<Bucket>, buckets: Buckets, step: Step, key: string)
    requires Follows(l, latest, buckets, key) && OpensWindows(l, step, key)
    ensures CountsAs(l, buckets, step, key) && Settled(Apply(l, step), SerialAfter(l, buckets, step), key)
       <==> StepsInTime(l, latest, step, key)
    ensures StepsInTime(l, latest, step, key) ==>
              Follows(Apply(l, step), LatestAfter(l, latest, step, key), SerialAfter(l, buckets, step), key)
  {
    hide NotNewer, NextBucket, Counted;
    if Reads(l, step, key) {
      ReadInTimeExactly(l, latest, buckets, step.call, step.c, key);
      assert Waits(Apply(l, step), key) by { assert step.call in Apply(l, step).pending; }
    } else if Charges(l, step) {
      OtherChargeFollows(l, latest, buckets, step, key);
    } else if Enabled(l, step) {
      WriteInTimeExactly(l, latest, buckets, step.call, key);
    }
  }

  /** Every charge to the key opens windows of some length. */
  predicate AllOpenWindows(charges: seq<Charge>, key: string) {
    forall i :: 0 <= i < |charges| && charges[i].key == key ==> charges[i].windowMs > 0
  }

  lemma SerialStep(steps: seq<Step>, key: string)
    requires steps != [] && AllOpenWindows(ChargesOf(IDLE, steps), key)
    ensures var before, last := steps[..|steps| - 1], steps[|steps| - 1];
            var l := AfterSteps(IDLE, before);
            && OpensWindows(l, last, key) && AllOpenWindows(ChargesOf(IDLE, before), key)
            && Serial(steps) == SerialAfter(l, Serial(before), last)
            && Latest(steps, key) == LatestAfter(l, Latest(before, key), last, key)
  {
    hide Apply, Counted, AfterCharges;
    var before, last := steps[..|steps| - 1], steps[|steps| - 1];
    var charges, all := ChargesOf(IDLE, before), ChargesOf(IDLE, steps);
    assert forall i :: 0 <= i < |charges| ==> charges[i] == all[i];
    if Charges(AfterSteps(IDLE, before), last) {
      assert all[|charges|] == last.c;
      CountsOneMore(map[], charges, last.c);
    } else {
      assert charges + [] == charges;
    }
  }

  /** A run counts and stores like its charges made one after the other, throughout, exactly when its fallbacks of
      the key come in time. */
  lemma {:induction false} SerialThroughoutExactly(steps: seq<Step>, key: string)
    requires AllOpenWindows(ChargesOf(IDLE, steps), key)
    ensures SerialThroughout(steps, key) <==> InTime(steps, key)
    ensures InTime(steps, key) ==> Follows(AfterSteps(IDLE, steps), Latest(steps, key), Serial(steps), key)
    decreases |steps|
  {
    assert Follows(IDLE, None, map[], key);
    hide Follows, Apply, StepsInTime, CountsAs, Settled, OpensWindows, AllOpenWindows, SerialAfter, LatestAfter;
    if steps == [] {
      assert Serial(steps) == map[];
    } else {
      var before, last := steps[..|steps| - 1], steps[|steps| - 1];
      SerialStep(steps, key);
      hide Serial, Latest;
      SerialThroughoutExactly(before, key);
      if InTime(before, key) {
        StepInTimeExactly(AfterSteps(IDLE, before), Latest(before, key), Serial(before), last, key);
      }
    }
  }

  lemma LastCounts(steps: seq<Step>, key: string)
    requires steps != [] && InTime(steps, key) && AllOpenWindows(ChargesOf(IDLE, steps), key)
    ensures var before, last := steps[..|steps| - 1], steps[|steps| - 1];
            && InTime(before, key) && AllOpenWindows(ChargesOf(IDLE, before), key)
            && (Charges(AfterSteps(IDLE, before), last) ==>
                  (Passes(AfterSteps(IDLE, before).buckets, last.c, key) <==> Passes(Serial(before), last.c, key)))
  {
    hide Follows, Settled, StepsInTime, AfterCharges, Counted;
    SerialThroughoutExactly(steps, key);
    SerialStep(steps, key);
  }

  /** Then the calls that pass are those its charges let pass when they are made one after the other. */
  lemma {:induction false} InTimeIsSerial(steps: seq<Step>, key: string, a: nat)
    requires a <= |steps| && InTime(steps, key) && AllOpenWindows(ChargesOf(IDLE, steps), key)
    ensures |ChargesOf(IDLE, steps[..a])| <= |ChargesOf(IDLE, steps)|
    ensures PassedBy(IDLE, steps, key, a) == Passed(ChargesOf(IDLE, steps), key, |ChargesOf(IDLE, steps[..a])|)
    decreases |steps|
  {
    hide Apply, Charges, Passes, Count, AfterCharges, Passed, InTime, AllOpenWindows;
    if a == |steps| {
      assert steps[..a] == steps;
      NonePassed(ChargesOf(IDLE, steps), key);
    } else {
      var before, last := steps[..|steps| - 1], steps[|steps| - 1];
      var charges := ChargesOf(IDLE, before);
      LastCounts(steps, key);
      InTimeIsSerial(before, key, a);
      assert before[..a] == steps[..a];
      assert charges + [] == charges;
      if Charges(AfterSteps(IDLE, before), last) {
        ChargesRead(AfterSteps(IDLE, before), last);
        OneMoreCharge(charges, last.c, key, |ChargesOf(IDLE, steps[..a])|);
      }
    }
  }

  lemma AloneIsInTime(l: Limiter, latest: Option<Bucket>, buckets: Buckets, step: Step, key: string)
    requires Follows(l, latest, buckets, key) && Agrees(l, buckets, key)
    requires Reads(l, step, key) ==> !Waits(l, key)
    ensures StepsInTime(l, latest, step, key)
  {
    hide NotNewer;
  }

  /** Fallbacks that do not overlap come in time. */
  lemma {:induction false} NoOverlapIsInTime(steps: seq<Step>, key: string)
    requires NoOverlap(IDLE, steps, key) && AllOpenWindows(ChargesOf(IDLE, steps), key)
    ensures InTime(steps, key)
    decreases |steps|
  {
    hide Apply, StepsInTime, Waits, Follows, Agrees, AllOpenWindows;
    if steps != [] {
      var before, last := steps[..|steps| - 1], steps[|steps| - 1];
      SerialStep(steps, key);
      NoOverlapIsInTime(before, key);
      SerialThroughoutExactly(before, key);
      RunIsSerial(before, key, |before|);
      AloneIsInTime(AfterSteps(IDLE, before), Latest(before, key), Serial(before), last, key);
    }
  }

  lemma OneRuleOpensWindows(charges: seq<Charge>, key: string, limit: nat, windowMs: int)
    requires OneRule(charges, key, limit, windowMs) && windowMs > 0
    ensures AllOpenWindows(charges, key)
  {
  }

  /** Where the fallbacks of a key come in time, no span of k windows lets more calls of the key pass than each of
      its two buckets may allow; without fallbacks only the durable one is left. */
  lemma KeyIsLimited(steps: seq<Step>, key: string, limit: nat, windowMs: int, a: nat, t: Millis, k: nat)
    requires a <= |steps| && InTime(steps, key) && windowMs > 0
    requires InOrder(ChargesOf(IDLE, steps)) && OneRule(ChargesOf(IDLE, steps), key, limit, windowMs)
    requires var charges := ChargesOf(IDLE, steps);
             forall i :: |ChargesOf(IDLE, steps[..a])| <= i < |charges| ==> t <= charges[i].now < t + k * windowMs
    ensures PassedBy(IDLE, steps, key, a) <= 2 * MostAllowed(limit, k)
    ensures var charges := ChargesOf(IDLE, steps);
            (forall i :: |ChargesOf(IDLE, steps[..a])| <= i < |charges| && charges[i].key == key ==>
               charges[i].place.Durable?)
            ==> PassedBy(IDLE, steps, key, a) <= MostAllowed(limit, k)
  {
    hide MostAllowed, ChargesOf, PassedBy, Passed, InTime, InOrder;
    InTimeIsSerial(steps, key, a);
    hide OneRule;
    ChargesAreLimited(ChargesOf(IDLE, steps), key, limit, windowMs, |ChargesOf(IDLE, steps[..a])|, t, k);
  }

  lemma OneMoreStep(l: Limiter, steps: seq<Step>, step: Step, key: string)
    ensures AfterSteps(l, steps + [step]) == Apply(AfterSteps(l, steps), step)
    ensures ChargesOf(l, steps + [step])
         == ChargesOf(l, steps) + if Charges(AfterSteps(l, steps), step) then [step.c] else []
    ensures NoOverlap(l, steps, key) && !Waits(AfterSteps(l, steps), key) ==> NoOverlap(l, steps + [step], key)
    ensures NoOverlap(l, steps, key) && !step.ReadMemory? ==> NoOverlap(l, steps + [step], key)
  {
    assert (steps + [step])[..|steps|] == steps;
  }

  /** Two calls at each of these times: the durable object answers one, the other falls back to memory. */
  function Pairs(times: seq<Millis>, key: string, limit: nat, windowMs: int): seq<Step>
    decreases |times|
  {
    if times == [] then []
    else
      var now := times[|times| - 1];
      Pairs(times[..|times| - 1], key, limit, windowMs)
        + [Transact(Charge(Durable, key, limit, windowMs, true, now))]
        + [ReadMemory(0, Charge(Memory, key, limit, windowMs, true, now))]
        + [WriteMemory(0)]
  }

  function PairCharges(times: seq<Millis>, key: string, limit: nat, windowMs: int): seq<Charge>
    decreases |times|
  {
    if times == [] then []
    else
      var now := times[|times| - 1];
      PairCharges(times[..|times| - 1], key, limit, windowMs)
        + [Charge(Durable, key, limit, windowMs, true, now)] + [Charge(Memory, key, limit, windowMs, true, now)]
  }

  lemma {:induction false} PairsAreCharged(times: seq<Millis>, key: string, limit: nat, windowMs: int)
    ensures var steps := Pairs(times, key, limit, windowMs);
            && NoOverlap(IDLE, steps, key) && AfterSteps(IDLE, steps).pending == map[]
            && ChargesOf(IDLE, steps) == PairCharges(times, key, limit, windowMs)
    decreases |times|
  {
    if times != [] {
      var now := times[|times| - 1];
      var steps := Pairs(times[..|times| - 1], key, limit, windowMs);
      var first := Transact(Charge(Durable, key, limit, windowMs, true, now));
      var second := ReadMemory(0, Charge(Memory, key, limit, windowMs, true, now));
      PairsAreCharged(times[..|times| - 1], key, limit, windowMs);
      OneMoreStep(IDLE, steps, first, key);
      OneMoreStep(IDLE, steps + [first], second, key);
      OneMoreStep(IDLE, steps + [first] + [second], WriteMemory(0), key);
      hide AfterSteps, ChargesOf, NoOverlap, Counted;
    }
  }

  lemma {:induction false} PairsAreAlternate(times: seq<Millis>, key: string, limit: nat, windowMs: int)
    ensures var charges := PairCharges(times, key, limit, windowMs);
            && |charges| == 2 * |times|
            && (forall i :: 0 <= i < |charges| ==>
                  charges[i] == Charge(if i % 2 == 0 then Durable else Memory, key, limit, windowMs, true, times[i / 2]))
    decreases |times|
  {
    if times != [] {
      PairsAreAlternate(times[..|times| - 1], key, limit, windowMs);
    }
  }

  lemma OneMoreTimeIn(charges: seq<Charge>, c: Charge, place: Place, key: string)
    ensures TimesIn(charges + [c], place, key)
         == TimesIn(charges, place, key) + if c.key == key && c.place == place then [c.now] else []
  {
    assert (charges + [c])[..|charges|] == charges;
  }

  lemma {:induction false} PairTimes(times: seq<Millis>, key: string, limit: nat, windowMs: int, place: Place)
    ensures TimesIn(PairCharges(times, key, limit, windowMs), place, key) == times
    decreases |times|
  {
    if times != [] {
      var now := times[|times| - 1];
      var charges := PairCharges(times[..|times| - 1], key, limit, windowMs);
      var durable := Charge(Durable, key, limit, windowMs, true, now);
      PairTimes(times[..|times| - 1], key, limit, windowMs, place);
      OneMoreTimeIn(charges, durable, place, key);
      OneMoreTimeIn(charges + [durable], Charge(Memory, key, limit, windowMs, true, now), place, key);
      hide TimesIn;
      assert times == times[..|times| - 1] + [now];
    }
  }

  lemma {:induction false} PairsBegin(times: seq<Millis>, key: string, limit: nat, windowMs: int)
    requires times != []
    ensures |Pairs(times, key, limit, windowMs)| == 3 * |times|
    ensures Pairs(times, key, limit, windowMs)[..3] == Pairs(times[..1], key, limit, windowMs)
    decreases |times|
  {
    var before := times[..|times| - 1];
    if before == [] {
      assert times[..1] == times && Pairs([], key, limit, windowMs) == [];
      assert Pairs(times, key, limit, windowMs)[..3] == Pairs(times, key, limit, windowMs);
    } else {
      PairsBegin(before, key, limit, windowMs);
      assert before[..1] == times[..1];
    }
  }

  lemma PairsOfOneRule(times: seq<Millis>, key: string, limit: nat, windowMs: int)
    requires times != []
    ensures var charges := PairCharges(times, key, limit, windowMs);
            && |charges| >= 2 && charges[..2] == PairCharges(times[..1], key, limit, windowMs)
            && OneRule(charges, key, limit, windowMs)
            && forall i :: 2 <= i < |charges| && charges[i].key == key ==> charges[i].answered
  {
    PairsAreAlternate(times, key, limit, windowMs);
    PairsAreAlternate(times[..1], key, limit, windowMs);
    hide PairCharges;
  }

  lemma PairChargesPass(times: seq<Millis>, key: string, limit: nat, windowMs: int)
    requires times != []
    ensures var charges := PairCharges(times, key, limit, windowMs);
            |charges| >= 2 && Passed(charges, key, 2) == 2 * Allowed(times, limit, windowMs, 1, |times|)
  {
    hide PairCharges, TimesIn, Allowed, Passed, OneRule;
    var charges := PairCharges(times, key, limit, windowMs);
    PairsOfOneRule(times, key, limit, windowMs);
    PairTimes(times, key, limit, windowMs, Durable);
    PairTimes(times, key, limit, windowMs, Memory);
    PairTimes(times[..1], key, limit, windowMs, Durable);
    PairTimes(times[..1], key, limit, windowMs, Memory);
    PassedInOneOfTwo(charges, key, limit, windowMs, 2);
  }

  lemma PairsInSpan(times: seq<Millis>, key: string, limit: nat, windowMs: int, lo: Millis, hi: Millis)
    requires Ordered(times) && forall i :: 1 <= i < |times| ==> lo <= times[i] < hi
    ensures var charges := PairCharges(times, key, limit, windowMs);
            && InOrder(charges) && OneRule(charges, key, limit, windowMs)
            && forall i :: 2 <= i < |charges| ==> lo <= charges[i].now < hi
  {
    PairsAreAlternate(times, key, limit, windowMs);
    hide PairCharges;
    var charges := PairCharges(times, key, limit, windowMs);
    forall i, j | 0 <= i < j < |charges| ensures charges[i].now <= charges[j].now {
      assert i / 2 == j / 2 || i / 2 < j / 2;
    }
  }

  lemma PairsPass(times: seq<Millis>, key: string, limit: nat, windowMs: int)
    requires times != []
    ensures var steps := Pairs(times, key, limit, windowMs);
            && |steps| >= 3 && NoOverlap(IDLE, steps, key)
            && ChargesOf(IDLE, steps) == PairCharges(times, key, limit, windowMs)
            && |ChargesOf(IDLE, steps[..3])| == 2
            && PassedBy(IDLE, steps, key, 3) == 2 * Allowed(times, limit, windowMs, 1, |times|)
  {
    var steps := Pairs(times, key, limit, windowMs);
    PairsAreCharged(times, key, limit, windowMs);
    PairsAreCharged(times[..1], key, limit, windowMs);
    PairsBegin(times, key, limit, windowMs);
    PairsAreAlternate(times[..1], key, limit, windowMs);
    hide Pairs, NoOverlap, ChargesOf, PassedBy, AfterSteps, Allowed, Passed, PairCharges;
    RunIsSerial(steps, key, 3);
    PairChargesPass(times, key, limit, windowMs);
  }

  /** The factor two is needed: for every rule and k this run makes twice as many calls pass, half of them while
      the durable object of the key answers and half while it does not. */
  lemma KeyLimitIsAttained(key: string, limit: nat, windowMs: int, k: nat)
    requires limit > 0 && windowMs > 1 && k > 0
    ensures var steps := Pairs(Bursts(limit, windowMs, k), key, limit, windowMs);
            var charges := ChargesOf(IDLE, steps);
            && |steps| >= 3 && NoOverlap(IDLE, steps, key) && InTime(steps, key)
            && InOrder(charges) && OneRule(charges, key, limit, windowMs)
            && |ChargesOf(IDLE, steps[..3])| == 2
            && (forall i :: 2 <= i < |charges| ==> windowMs - 1 <= charges[i].now < windowMs - 1 + k * windowMs)
            && PassedBy(IDLE, steps, key, 3) == 2 * MostAllowed(limit, k)
  {
    var times := Bursts(limit, windowMs, k);
    SpanBoundIsAttained(limit, windowMs, k) by { hide Bursts, Allowed; }
    hide Bursts, MostAllowed, PassedBy, Pairs, PairCharges, Allowed, NoOverlap, ChargesOf, InOrder, OneRule;
    PairsPass(times, key, limit, windowMs);
    PairsInSpan(times, key, limit, windowMs, windowMs - 1, windowMs - 1 + k * windowMs);
    OneRuleOpensWindows(PairCharges(times, key, limit, windowMs), key, limit, windowMs);
    hide AllOpenWindows, InTime;
    NoOverlapIsInTime(Pairs(times, key, limit, windowMs), key);
  }

  predicate FallsBack(c: Charge, key: string) {
    c.place.Memory? && c.answered && c.key == key && c.windowMs > 0
  }

  function Begun(first: Charge, second: Charge): seq<Step> {
    [ReadMemory(0, first)] + [ReadMemory(1, second)]
  }

  lemma BothRead(buckets: Buckets, first: Charge, second: Charge, key: string)
    requires FallsBack(first, key) && FallsBack(second, key)
    ensures AfterSteps(Limiter(buckets, map[]), [ReadMemory(0, first)]).buckets == buckets
    ensures AfterSteps(Limiter(buckets, map[]), Begun(first, second))
         == Limiter(buckets, map[0 := Pending(key, Counted(buckets, first)), 1 := Pending(key, Counted(buckets, second))])
  {
    hide Counted;
    var l := Limiter(buckets, map[]);
    assert [] + [ReadMemory(0, first)] == [ReadMemory(0, first)];
    OneMoreStep(l, [], ReadMemory(0, first), key);
    OneMoreStep(l, [ReadMemory(0, first)], ReadMemory(1, second), key);
  }

  lemma BothWritten(buckets: Buckets, first: Charge, second: Charge, key: string, x: CallId)
    requires FallsBack(first, key) && FallsBack(second, key) && x <= 1
    ensures AfterSteps(Limiter(buckets, map[]), Begun(first, second) + [WriteMemory(1 - x)] + [WriteMemory(x)])
         == Limiter(buckets[(Memory, key) := Counted(buckets, if x == 0 then first else second)], map[])
  {
    hide Counted, AfterSteps;
    var l := Limiter(buckets, map[]);
    BothRead(buckets, first, second, key);
    OneMoreStep(l, Begun(first, second), WriteMemory(1 - x), key);
    OneMoreStep(l, Begun(first, second) + [WriteMemory(1 - x)], WriteMemory(x), key);
    var between := AfterSteps(l, Begun(first, second) + [WriteMemory(1 - x)]);
    assert between.pending == map[x := Pending(key, Counted(buckets, if x == 0 then first else second))];
    assert between.pending - {x} == map[];
  }

  lemma SecondMisses(current: Option<Bucket>, first: Charge, second: Charge)
    requires first.windowMs > 0 && second.windowMs > 0 && first.now <= second.now
    ensures var one := NextBucket(current, first.windowMs, first.now);
            var alone := NextBucket(current, second.windowMs, second.now);
            var after := NextBucket(Some(one), second.windowMs, second.now);
            && (alone == after <==> one.resetAt <= second.now)
            && (one.resetAt > second.now ==> after.count == alone.count + 1)
            && one != after
  {
  }

  /** Two fallbacks that overlap are counted like two that do not exactly when the first one's window is over by
      the second; otherwise the second misses the first in its count, and writing in the other order is always wrong. */
  lemma OverlapIsHarmlessExactly(buckets: Buckets, first: Charge, second: Charge, key: string)
    requires FallsBack(first, key) && FallsBack(second, key) && first.now <= second.now
    ensures var l := Limiter(buckets, map[]);
            var serial := AfterCharges(buckets, [first] + [second]);
            var closed := Counted(buckets, first).resetAt <= second.now;
            && (closed <==>
                  AfterSteps(l, Begun(first, second) + [WriteMemory(0)] + [WriteMemory(1)]) == Limiter(serial, map[]))
            && AfterSteps(l, Begun(first, second) + [WriteMemory(1)] + [WriteMemory(0)]) != Limiter(serial, map[])
            && Judge(AfterSteps(l, [ReadMemory(0, first)]).buckets, second) == Judge(buckets, second)
            && (!closed ==> Counted(Count(buckets, first), second).count == Counted(buckets, second).count + 1)
  {
    var serial := Count(Count(buckets, first), second);
    assert [] + [first] == [first];
    CountsOneMore(buckets, [], first);
    CountsOneMore(buckets, [first], second);
    BothRead(buckets, first, second, key);
    BothWritten(buckets, first, second, key, 0);
    BothWritten(buckets, first, second, key, 1);
    SecondMisses(Get(buckets, Memory, key), first, second);
    hide AfterSteps, AfterCharges, NextBucket, Begun, Judge, FallsBack;
    var place := (Memory, key);
    var one, alone, after := Counted(buckets, first), Counted(buckets, second), Counted(Count(buckets, first), second);
    assert serial[place] == after && buckets[place := alone][place] == alone && buckets[place := one][place] == one;
    assert serial == buckets[place := after];
  }

  /** Limit one, and two calls pass; the bucket they leave counts one of them. */
  lemma TwoPassWhereOneMay()
    ensures var c := Charge(Memory, "rate:login", 1, 1000, true, 0);
            && PassedBy(IDLE, Begun(c, c), c.key, 0) == 2
            && AfterSteps(IDLE, Begun(c, c) + [WriteMemory(0)] + [WriteMemory(1)])
               == Limiter(map[(Memory, c.key) := Bucket(1, 1000)], map[])
            && !Judge(Count(map[], c), c).allowed
  {
    var c := Charge(Memory, "rate:login", 1, 1000, true, 0);
    BothWritten(map[], c, c, c.key, 1);
    OverlapsPassTogether(c, 2);
    assert Together(c, 2) == Begun(c, c);
  }

  /** n fallbacks that all read before any of them writes. */
  function Together(c: Charge, n: nat): seq<Step> {
    seq(n, i requires 0 <= i < n => ReadMemory(i, c))
  }

  /** Overlaps leave no bound at all: any number of fallbacks of one moment pass, whatever the limit is. */
  lemma {:induction false} OverlapsPassTogether(c: Charge, n: nat)
    requires FallsBack(c, c.key) && c.limit >= 1
    ensures var l := AfterSteps(IDLE, Together(c, n));
            l.buckets == map[] && forall call :: call in l.pending ==> call < n
    ensures ChargesOf(IDLE, Together(c, n)) == seq(n, i => c)
    ensures PassedBy(IDLE, Together(c, n), c.key, 0) == n
  {
    if n > 0 {
      OverlapsPassTogether(c, n - 1);
      assert Together(c, n)[..n - 1] == Together(c, n - 1);
      assert seq(n - 1, i => c) + [c] == seq(n, i => c);
    }
  }

  /** Every rule of a request reads its bucket before any of them writes. */
  function AfterTogether(buckets: Buckets, charges: seq<Charge>): Buckets
    decreases |charges|
  {
    if charges == [] then buckets
    else
      var last := charges[|charges| - 1];
      AfterTogether(buckets, charges[..|charges| - 1])[(last.place, last.key) := Counted(buckets, last)]
  }

  predicate AtOnce(charges: seq<Charge>, now: Millis) {
    forall i :: 0 <= i < |charges| ==> FallsBack(charges[i], charges[i].key) && charges[i].now == now
  }

  predicate DistinctKeys(charges: seq<Charge>) {
    forall i, j :: 0 <= i < j < |charges| ==> charges[i].key != charges[j].key
  }

  function Occurrences(charges: seq<Charge>, key: string): (n: nat)
    ensures n == 0 <==> forall i :: 0 <= i < |charges| ==> charges[i].key != key
    decreases |charges|
  {
    if charges == [] then 0
    else Occurrences(charges[..|charges| - 1], key) + if charges[|charges| - 1].key == key then 1 else 0
  }

  function OpenCount(current: Option<Bucket>, now: Millis): nat {
    if current.Some? && current.value.resetAt > now then current.value.count else 0
  }

  lemma {:induction false} CountsAtOnce(buckets: Buckets, charges: seq<Charge>, key: string, now: Millis)
    requires AtOnce(charges, now)
    ensures var n, current := Occurrences(charges, key), Get(buckets, Memory, key);
            var serial, together := Get(AfterCharges(buckets, charges), Memory, key),
                                    Get(AfterTogether(buckets, charges), Memory, key);
            && (n == 0 ==> serial == current && together == current)
            && (n > 0 ==> serial.Some? && serial.value.resetAt > now && serial.value.count == OpenCount(current, now) + n)
            && (n > 0 ==> together.Some? && together.value.count == OpenCount(current, now) + 1)
    decreases |charges|
  {
    if charges != [] {
      CountsAtOnce(buckets, charges[..|charges| - 1], key, now);
    }
  }

  lemma {:induction false} RepeatedKey(charges: seq<Charge>) returns (key: string)
    requires !DistinctKeys(charges)
    ensures Occurrences(charges, key) >= 2
    decreases |charges|
  {
    var before := charges[..|charges| - 1];
    if DistinctKeys(before) {
      key := charges[|charges| - 1].key;
    } else {
      key := RepeatedKey(before);
    }
  }

  lemma UnchargedDecides(buckets: Buckets, charges: seq<Charge>, now: Millis, i: nat)
    requires AtOnce(charges, now) && DistinctKeys(charges) && i < |charges|
    ensures Counted(AfterCharges(buckets, charges[..i]), charges[i]) == Counted(buckets, charges[i])
  {
    CountsAtOnce(buckets, charges[..i], charges[i].key, now);
    hide AfterCharges, AfterTogether, NextBucket;
  }

  lemma {:induction false} DistinctIsSerial(buckets: Buckets, charges: seq<Charge>, now: Millis)
    requires AtOnce(charges, now) && DistinctKeys(charges)
    ensures AfterTogether(buckets, charges) == AfterCharges(buckets, charges)
    decreases |charges|
  {
    if charges != [] {
      UnchargedDecides(buckets, charges, now, |charges| - 1);
      DistinctIsSerial(buckets, charges[..|charges| - 1], now);
      hide Counted;
    }
  }

  /** Rules that read before any writes leave the buckets that charging one after the other leaves, exactly when
      no two of them share a key; and then they decide the same. */
  lemma TogetherIsSerialExactly(buckets: Buckets, charges: seq<Charge>, now: Millis)
    requires AtOnce(charges, now)
    ensures AfterTogether(buckets, charges) == AfterCharges(buckets, charges) <==> DistinctKeys(charges)
    ensures DistinctKeys(charges) ==>
            forall i :: 0 <= i < |charges| ==>
              Judge(AfterCharges(buckets, charges[..i]), charges[i]) == Judge(buckets, charges[i])
  {
    hide AfterCharges, AfterTogether, Counted, AtOnce;
    if DistinctKeys(charges) {
      DistinctIsSerial(buckets, charges, now);
      forall i | 0 <= i < |charges|
        ensures Counted(AfterCharges(buckets, charges[..i]), charges[i]) == Counted(buckets, charges[i])
      {
        UnchargedDecides(buckets, charges, now, i);
      }
    } else {
      var key := RepeatedKey(charges);
      CountsAtOnce(buckets, charges, key, now);
    }
  }

  datatype Rule = Rule(key: string, limit: nat, windowMs: int, failClosed: bool)

  /** What became of the request to the durable object of the key. */
  datatype Asked = NoNamespace | Answered(decision: Decision) | NotAnswered

  function InMemory(rule: Rule, now: Millis): Charge {
    Charge(Memory, rule.key, rule.limit, rule.windowMs, true, now)
  }

  lemma TogetherOneMore(buckets: Buckets, charges: seq<Charge>, n: nat)
    requires n < |charges|
    ensures AfterTogether(buckets, charges[..n + 1])
         == AfterTogether(buckets, charges[..n])[(charges[n].place, charges[n].key) := Counted(buckets, charges[n])]
  {
    assert charges[..n + 1][..n] == charges[..n];
  }

  lemma OneMoreWaits(pending: map<CallId, Pending>, before: map<CallId, Pending>, buckets: Buckets,
                     charges: seq<Charge>, first: CallId, n: nat)
    requires n < |charges| && OnTheirWay(pending, before, buckets, charges, first, 0, n)
    ensures OnTheirWay(pending[first + n := Pending(charges[n].key, Counted(buckets, charges[n]))], before, buckets,
                       charges, first, 0, n + 1)
  {
    hide Counted;
  }

  lemma OneLessWaits(pending: map<CallId, Pending>, before: map<CallId, Pending>, buckets: Buckets,
                     charges: seq<Charge>, first: CallId, n: nat)
    requires n < |charges| && OnTheirWay(pending, before, buckets, charges, first, n, |charges|) && first + n !in before
    ensures first + n in pending && pending[first + n] == Pending(charges[n].key, Counted(buckets, charges[n]))
    ensures OnTheirWay(pending - {first + n}, before, buckets, charges, first, n + 1, |charges|)
  {
    hide Counted;
  }

  lemma NoneWaits(pending: map<CallId, Pending>, before: map<CallId, Pending>, buckets: Buckets,
                  charges: seq<Charge>, first: CallId)
    requires OnTheirWay(pending, before, buckets, charges, first, |charges|, |charges|)
    ensures pending == before
  {
  }

  function InMemoryAll(rules: seq<Rule>, now: Millis): seq<Charge> {
    seq(|rules|, i requires 0 <= i < |rules| => InMemory(rules[i], now))
  }

  /** What the middleware answers: pass on, 429, or 503 when the limiter itself is unavailable. */
  datatype Response = PassOn | TooMany(retryAfterSeconds: int) | NotAvailable(retryAfterSeconds: int)

  function Denial(decision: Decision): Response {
    if decision.unavailable then NotAvailable(decision.retryAfterSeconds) else TooMany(decision.retryAfterSeconds)
  }

  predicate AllAllowed(decisions: seq<Decision>) {
    forall i :: 0 <= i < |decisions| ==> decisions[i].allowed
  }

  /** Next to the calls that were pending before, rules a up to b of a request are on their way to memory. */
  ghost predicate OnTheirWay(pending: map<CallId, Pending>, before: map<CallId, Pending>, buckets: Buckets,
                       charges: seq<Charge>, first: CallId, a: nat, b: nat)
    requires b <= |charges|
  {
    && (forall call :: call in pending <==> call in before || first + a <= call < first + b)
    && (forall call :: call in before && !(first + a <= call < first + b) ==>
          call in pending && pending[call] == before[call])
    && (forall call :: first + a <= call < first + b ==>
          call in pending && pending[call] == Pending(charges[call - first].key, Counted(buckets, charges[call - first])))
  }

  /** Each method is the code between two awaits. */
  class RateLimiter {
    var buckets: Buckets
    var pending: map<CallId, Pending>

    ghost function State(): Limiter
      reads this
    {
      Limiter(buckets, pending)
    }

    constructor ()
      ensures State() == IDLE
    {
      buckets, pending := map[], map[];
    }

    /** RateLimitDurableObject.fetch, inside its transaction; `dropped` if the stored entry had expired. */
    method Fetch(c: Charge, dropped: bool) returns (decision: Decision)
      requires c.place.Durable?
      requires dropped ==> (Durable, c.key) in buckets && c.now >= 1000 * CeilSeconds(buckets[(Durable, c.key)].resetAt)
      modifies this`buckets
      ensures State() == StepOnce(old(State()), Transact(c))
      ensures decision == Judge(old(buckets), c)
      ensures (Durable, c.key) in buckets
      ensures Decides(Get(old(buckets), Durable, c.key), c.limit, c.windowMs, c.now, buckets[(Durable, c.key)], decision)
    {
      var current := Get(buckets, Durable, c.key);
      if dropped {
        current := None;
      }
      var next := NextBucket(current, c.windowMs, c.now);
      buckets := buckets[(Durable, c.key) := next];
      decision := Decide(next, c.limit, c.now);
      DecidesAsTold(Get(old(buckets), Durable, c.key), c.limit, c.windowMs, c.now);
    }

    /** checkRule from the settled request to its return, or to the await of the fallback. */
    method CheckRule(call: CallId, rule: Rule, asked: Asked, now: Millis) returns (decision: Decision)
      requires call !in pending
      modifies this`pending
      ensures var fallsBack := !asked.Answered? && !rule.failClosed;
              State() == if fallsBack then StepOnce(old(State()), ReadMemory(call, InMemory(rule, now))) else old(State())
      ensures decision == if asked.Answered? then asked.decision
                          else if rule.failClosed then Decision(false, 30, now + 30000, true)
                          else Judge(buckets, InMemory(rule, now))
      ensures !asked.Answered? && !rule.failClosed ==>
                && call in pending && pending[call].key == rule.key
                && Decides(Get(buckets, Memory, rule.key), rule.limit, rule.windowMs, now, pending[call].next, decision)
    {
      if asked.Answered? {
        return asked.decision;
      }
      if rule.failClosed {
        return Decision(false, 30, now + 30000, true);
      }
      var next := NextBucket(Get(buckets, Memory, rule.key), rule.windowMs, now);
      pending := pending[call := Pending(rule.key, next)];
      decision := Decide(next, rule.limit, now);
      DecidesAsTold(Get(buckets, Memory, rule.key), rule.limit, rule.windowMs, now);
    }

    /** The rest of checkRule, behind the await. */
    method StoreFallback(call: CallId)
      requires call in pending
      modifies this
      ensures State() == StepOnce(old(State()), WriteMemory(call))
    {
      buckets := buckets[(Memory, pending[call].key) := pending[call].next];
      pending := pending - {call};
    }

    /** The calls of Promise.all for rules that fall back: each reads its bucket before any of them stores one. */
    method CallAll(first: CallId, rules: seq<Rule>, now: Millis) returns (results: seq<Decision>)
      requires forall call :: first <= call < first + |rules| ==> call !in pending
      requires forall i :: 0 <= i < |rules| ==> !rules[i].failClosed
      modifies this`pending
      ensures OnTheirWay(pending, old(pending), buckets, InMemoryAll(rules, now), first, 0, |rules|)
      ensures |results| == |rules|
      ensures forall i :: 0 <= i < |rules| ==> results[i] == Judge(buckets, InMemory(rules[i], now))
    {
      hide NextBucket, Decide;
      ghost var charges := InMemoryAll(rules, now);
      results := [];
      var n := 0;
      assert OnTheirWay(pending, pending, buckets, charges, first, 0, 0);
      hide OnTheirWay;
      while n < |rules|
        invariant n <= |rules| && forall call :: first + n <= call < first + |rules| ==> call !in pending
        invariant OnTheirWay(pending, old(pending), buckets, InMemoryAll(rules, now), first, 0, n)
        invariant |results| == n && forall i :: 0 <= i < n ==> results[i] == Judge(buckets, InMemory(rules[i], now))
      {
        OneMoreWaits(pending, old(pending), buckets, charges, first, n);
        var decision := CheckRule(first + n, rules[n], NoNamespace, now);
        results := results + [decision];
        n := n + 1;
      }
    }

    /** The stores that follow, in the order of the rules. */
    method StoreAll(first: CallId, ghost charges: seq<Charge>, ghost before: map<CallId, Pending>, count: nat)
      requires count == |charges| && forall call :: first <= call < first + count ==> call !in before
      requires forall i :: 0 <= i < count ==> charges[i].place.Memory?
      requires OnTheirWay(pending, before, buckets, charges, first, 0, count)
      modifies this
      ensures State() == Limiter(AfterTogether(old(buckets), charges), before)
    {
      var n := 0;
      assert AfterTogether(buckets, charges[..0]) == buckets;
      hide AfterTogether, Counted, OnTheirWay;
      while n < count
        invariant n <= count && buckets == AfterTogether(old(buckets), charges[..n])
        invariant OnTheirWay(pending, before, old(buckets), charges, first, n, count)
      {
        OneLessWaits(pending, before, old(buckets), charges, first, n);
        StoreFallback(first + n);
        TogetherOneMore(old(buckets), charges, n);
        n := n + 1;
      }
      assert charges[..n] == charges;
      NoneWaits(pending, before, old(buckets), charges, first);
    }

    /** Promise.all over rules that all fall back, with nothing else running in between. */
    method CheckAll(first: CallId, rules: seq<Rule>, now: Millis) returns (results: seq<Decision>)
      requires forall call :: first <= call < first + |rules| ==> call !in pending
      requires forall i :: 0 <= i < |rules| ==> !rules[i].failClosed
      modifies this
      ensures State() == Limiter(AfterTogether(old(buckets), InMemoryAll(rules, now)), old(pending))
      ensures |results| == |rules|
      ensures forall i :: 0 <= i < |rules| ==> results[i] == Judge(old(buckets), InMemory(rules[i], now))
    {
      hide AfterTogether, OnTheirWay, Judge;
      results := CallAll(first, rules, now);
      StoreAll(first, InMemoryAll(rules, now), old(pending), |rules|);
    }

    /** enforceRateLimits behind its Promise.all: the first rule that denies decides the answer. */
    static method Enforce(results: seq<Decision>) returns (response: Response, ghost denied: nat)
      ensures denied <= |results| && AllAllowed(results[..denied])
      ensures response.PassOn? <==> denied == |results|
      ensures denied < |results| ==>
                && !results[denied].allowed
                && (response == NotAvailable(results[denied].retryAfterSeconds) <==> results[denied].unavailable)
                && (response == TooMany(results[denied].retryAfterSeconds) <==> !results[denied].unavailable)
    {
      var n := 0;
      while n < |results|
        invariant 0 <= n <= |results|
        invariant AllAllowed(results[..n])
      {
        if !results[n].allowed {
          return Denial(results[n]), n;
        }
        n := n + 1;
      }
      return PassOn, n;
    }
  }
}
