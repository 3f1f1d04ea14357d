/**
 * The in-process sliding-window limiter: one bucket of admission times per identity, at most
 * `maxKeys` of them, and one overflow bucket shared by the identities that have none. Time is
 * `real`: rounding is not the point here.
 */
module RateLimit {
  import Sequences

  type Identity = string

  datatype Config = Config(limit: nat, window: real, maxKeys: nat) {
    ghost predicate Valid() {
      limit > 0 && window > 0.0 && maxKeys > 0
    }
  }

  datatype Buckets = Buckets(requests: map<Identity, seq<real>>, overflow: seq<real>, lastCleanup: real)

  datatype Verdict = Admitted(remaining: int) | Rejected(retryAfter: int)

  datatype Call = Call(now: real, identity: Identity)

  // ---------------------------------------------------------------------
  // One call, on values
  // ---------------------------------------------------------------------

  /** `while bucket and bucket[0] <= cutoff: bucket.popleft()`. */
  function Expire(bucket: seq<real>, cutoff: real): seq<real> {
    if bucket != [] && bucket[0] <= cutoff then Expire(bucket[1..], cutoff) else bucket
  }

  /** The periodic cleanup keeps the buckets whose latest admission is still in the window. */
  function Cleaned(requests: map<Identity, seq<real>>, cutoff: real): map<Identity, seq<real>> {
    map k | k in requests && requests[k] != [] && requests[k][|requests[k]| - 1] > cutoff :: requests[k]
  }

  function CleanUp(c: Config, s: Buckets, now: real): Buckets {
    if now - s.lastCleanup >= c.window then s.(requests := Cleaned(s.requests, now - c.window), lastCleanup := now)
    else s
  }

  /** The buckets when the call's own has been chosen and expired, and whether it is a dedicated one. */
  function Choose(c: Config, s: Buckets, call: Call): (Buckets, bool) {
    var cutoff := call.now - c.window;
    var id := call.identity;
    if id in s.requests then (s.(requests := s.requests[id := Expire(s.requests[id], cutoff)]), true)
    else
      var overflow := Expire(s.overflow, cutoff);
      var t := s.(overflow := overflow);
      if |s.requests| >= c.maxKeys || overflow != [] then (t, false)
      else (t.(requests := t.requests[id := []]), true)
  }

  function BucketOf(s: Buckets, identity: Identity): seq<real> {
    if identity in s.requests then s.requests[identity] else s.overflow
  }

  function RetryAfter(c: Config, now: real, oldest: real): int {
    var wait := (c.window - (now - oldest)).Floor;
    if wait < 1 then 1 else wait
  }

  function Step(c: Config, s: Buckets, call: Call): (Buckets, Verdict) {
    var (t, dedicated) := Choose(c, CleanUp(c, s, call.now), call);
    var bucket := BucketOf(t, call.identity);
    if |bucket| >= c.limit then
      (t, Rejected(if bucket == [] then 1 else RetryAfter(c, call.now, bucket[0])))
    else
      var after := bucket + [call.now];
      (if dedicated then t.(requests := t.requests[call.identity := after]) else t.(overflow := after),
       Admitted(c.limit - |after|))
  }

  // ---------------------------------------------------------------------
  // The middleware's object
  // ---------------------------------------------------------------------

  class RateLimiter {
    const config: Config
    var requests: map<Identity, seq<real>>
    var overflow: seq<real>
    var lastCleanup: real

    constructor (config: Config, now: real)
      requires config.Valid()
      ensures this.config == config && State() == Buckets(map[], [], now)
    {
      this.config, requests, overflow, lastCleanup := config, map[], [], now;
    }

    function State(): Buckets
      reads this
    {
      Buckets(requests, overflow, lastCleanup)
    }

    method Admit(now: real, identity: Identity) returns (verdict: Verdict)
      requires config.Valid()
      modifies this
      ensures (State(), verdict) == Step(config, old(State()), Call(now, identity))
    {
      var cutoff := now - config.window;
      if now - lastCleanup >= config.window {
        requests := Cleaned(requests, cutoff);
        lastCleanup := now;
      }
      ghost var cleaned := State();
      var dedicated := identity in requests;
      if !dedicated {
        while overflow != [] && overflow[0] <= cutoff
          invariant requests == cleaned.requests && lastCleanup == cleaned.lastCleanup
          invariant Expire(overflow, cutoff) == Expire(cleaned.overflow, cutoff)
          decreases |overflow|
        {
          overflow := overflow[1..];
        }
        if |requests| < config.maxKeys && overflow == [] {
          dedicated := true;
          requests := requests[identity := []];
        }
      }
      var bucket := if dedicated then requests[identity] else overflow;
      ghost var whole := bucket;
      while bucket != [] && bucket[0] <= cutoff
        invariant Expire(bucket, cutoff) == Expire(whole, cutoff)
        decreases |bucket|
      {
        bucket := bucket[1..];
      }
      var full := |bucket| >= config.limit;
      if full {
        verdict := Rejected(if bucket == [] then 1 else RetryAfter(config, now, bucket[0]));
      } else {
        bucket := bucket + [now];
        verdict := Admitted(config.limit - |bucket|);
      }
      assert full ==> bucket == Expire(whole, cutoff);
      if dedicated {
        ghost var expired := Expire(whole, cutoff);
        assert requests[identity := expired][identity := bucket] == requests[identity := bucket];
        assert cleaned.requests[identity := expired][identity := bucket] == cleaned.requests[identity := bucket];
        assert cleaned.requests[identity := []][identity := bucket] == cleaned.requests[identity := bucket];
        requests := requests[identity := bucket];
      } else {
        overflow := bucket;
      }
    }
  }

  // ---------------------------------------------------------------------
  // Whole runs
  // ---------------------------------------------------------------------

  /** The calls a limiter created at `start` has served, and which of them it admitted. */
  function Run(c: Config, start: real, calls: seq<Call>): (Buckets, seq<Call>) {
    if calls == [] then (Buckets(map[], [], start), [])
    else
      var last := |calls| - 1;
      var (s, log) := Run(c, start, calls[..last]);
      var (t, verdict) := Step(c, s, calls[last]);
      (t, if verdict.Admitted? then log + [calls[last]] else log)
  }

  predicate InOrder(calls: seq<Call>) {
    forall i, j :: 0 <= i < j < |calls| ==> calls[i].now <= calls[j].now
  }

  /** When `identity` was admitted. */
  function Times(log: seq<Call>, identity: Identity): seq<real> {
    if log == [] then []
    else
      var last := |log| - 1;
      var before := Times(log[..last], identity);
      if log[last].identity == identity then before + [log[last].now] else before
  }

  /** How many of `times` lie after `t`. */
  function CountAbove(times: seq<real>, t: real): nat {
    if times == [] then 0
    else
      var last := |times| - 1;
      CountAbove(times[..last], t) + (if times[last] > t then 1 else 0)
  }

  /** How many of `times` lie in the interval (from, to]. */
  function CountWithin(times: seq<real>, from: real, to: real): nat {
    if times == [] then 0
    else
      var last := |times| - 1;
      CountWithin(times[..last], from, to) + (if from < times[last] <= to then 1 else 0)
  }

  predicate Sorted(times: seq<real>) {
    forall i, j :: 0 <= i < j < |times| ==> times[i] <= times[j]
  }

  ghost predicate BucketOk(c: Config, bucket: seq<real>, now: real) {
    && Sorted(bucket) && |bucket| <= c.limit
    && forall i :: 0 <= i < |bucket| ==> bucket[i] <= now
  }

  ghost predicate BucketsOk(c: Config, s: Buckets, now: real) {
    && (forall id :: id in s.requests ==> BucketOk(c, s.requests[id], now))
    && BucketOk(c, s.overflow, now) && |s.requests| <= c.maxKeys
  }

  /**
   * After `t` the dedicated bucket of an identity holds exactly its admissions, and the overflow
   * bucket at least those of each identity that has none.
   */
  ghost predicate Covers(s: Buckets, log: seq<Call>, id: Identity, t: real) {
    if id in s.requests then CountAbove(Times(log, id), t) == CountAbove(s.requests[id], t)
    else CountAbove(Times(log, id), t) <= CountAbove(s.overflow, t)
  }

  ghost predicate CoversFrom(s: Buckets, log: seq<Call>, from: real) {
    forall id, t :: from <= t ==> Covers(s, log, id, t)
  }

  lemma {:induction false} CountAppend(times: seq<real>, x: real, t: real)
    ensures CountAbove(times + [x], t) == CountAbove(times, t) + (if x > t then 1 else 0)
  {
    assert (times + [x])[..|times|] == times;
  }

  lemma {:induction false} CountIsBounded(times: seq<real>, t: real)
    ensures CountAbove(times, t) <= |times|
    ensures (forall i :: 0 <= i < |times| ==> times[i] > t) ==> CountAbove(times, t) == |times|
    ensures (forall i :: 0 <= i < |times| ==> times[i] <= t) ==> CountAbove(times, t) == 0
  {
    if times != [] {
      CountIsBounded(times[..|times| - 1], t);
    }
  }

  lemma {:induction false} CountTail(times: seq<real>, t: real)
    requires times != []
    ensures CountAbove(times, t) == (if times[0] > t then 1 else 0) + CountAbove(times[1..], t)
  {
    var last := |times| - 1;
    if last > 0 {
      CountTail(times[..last], t);
      assert times[..last][1..] == times[1..][..last - 1];
    }
  }

  /** Expiring a bucket loses no admission after the cutoff, and in a sorted one keeps no other. */
  lemma {:induction false} ExpireCounts(c: Config, bucket: seq<real>, cutoff: real, now: real, t: real)
    requires BucketOk(c, bucket, now) && cutoff <= t
    ensures BucketOk(c, Expire(bucket, cutoff), now)
    ensures CountAbove(Expire(bucket, cutoff), t) == CountAbove(bucket, t)
    ensures CountAbove(Expire(bucket, cutoff), cutoff) == |Expire(bucket, cutoff)|
    ensures |Expire(bucket, cutoff)| <= |bucket|
    ensures Expire(bucket, cutoff) != [] ==> Expire(bucket, cutoff)[0] > cutoff
    decreases |bucket|
  {
    if bucket != [] && bucket[0] <= cutoff {
      CountTail(bucket, t);
      ExpireCounts(c, bucket[1..], cutoff, now, t);
    } else {
      CountIsBounded(bucket, cutoff);
    }
  }

  lemma CleanUpKeeps(c: Config, s: Buckets, log: seq<Call>, now: real)
    requires c.Valid() && BucketsOk(c, s, now) && CoversFrom(s, log, now - c.window)
    ensures BucketsOk(c, CleanUp(c, s, now), now) && CoversFrom(CleanUp(c, s, now), log, now - c.window)
  {
    var cutoff, t := now - c.window, CleanUp(c, s, now);
    assert t.requests.Keys <= s.requests.Keys;
    Sequences.SubsetIsSmaller(t.requests.Keys, s.requests.Keys);
    forall id, at | cutoff <= at
      ensures Covers(t, log, id, at)
    {
      assert Covers(s, log, id, at);
      if id in s.requests && id !in t.requests {
        CountIsBounded(s.requests[id], at);
      }
    }
  }

  lemma {:induction false} EmptyBucket(c: Config, now: real, t: real)
    ensures BucketOk(c, [], now) && CountAbove([], t) == 0
  {
  }

  /** Choosing and expiring a bucket touches no other, and keeps the buckets in order. */
  lemma ChooseKeepsBuckets(c: Config, s: Buckets, call: Call)
    requires c.Valid() && BucketsOk(c, s, call.now)
    ensures var (t, dedicated) := Choose(c, s, call);
      && BucketsOk(c, t, call.now) && (dedicated <==> call.identity in t.requests)
      && CountAbove(BucketOf(t, call.identity), call.now - c.window) == |BucketOf(t, call.identity)|
      && (forall id :: id in t.requests && id != call.identity ==> id in s.requests && t.requests[id] == s.requests[id])
  {
    hide Expire, BucketOk, CountAbove;
    var cutoff, id := call.now - c.window, call.identity;
    var (t, dedicated) := Choose(c, s, call);
    ExpireCounts(c, BucketOf(s, id), cutoff, call.now, cutoff);
    EmptyBucket(c, call.now, cutoff);
    if id in s.requests {
      assert t.requests.Keys == s.requests.Keys;
    } else if dedicated {
      assert t.requests.Keys == s.requests.Keys + {id};
    }
  }

  lemma ChooseKeeps(c: Config, s: Buckets, log: seq<Call>, call: Call)
    requires c.Valid() && BucketsOk(c, s, call.now) && CoversFrom(s, log, call.now - c.window)
    ensures var (t, dedicated) := Choose(c, s, call);
      && BucketsOk(c, t, call.now) && CoversFrom(t, log, call.now - c.window)
      && (dedicated <==> call.identity in t.requests)
      && CountAbove(BucketOf(t, call.identity), call.now - c.window) == |BucketOf(t, call.identity)|
      && (forall id :: id in t.requests && id != call.identity ==> id in s.requests && t.requests[id] == s.requests[id])
  {
    hide Expire, BucketOk, CountAbove, Times;
    var cutoff, id := call.now - c.window, call.identity;
    var (t, dedicated) := Choose(c, s, call);
    ChooseKeepsBuckets(c, s, call);
    forall other, at | cutoff <= at
      ensures Covers(t, log, other, at)
    {
      assert Covers(s, log, other, at);
      ExpireCounts(c, BucketOf(s, id), cutoff, call.now, at);
      EmptyBucket(c, call.now, at);
    }
  }

  lemma AdmitKeepsBuckets(c: Config, s: Buckets, call: Call, dedicated: bool)
    requires BucketsOk(c, s, call.now) && (dedicated <==> call.identity in s.requests)
    requires |BucketOf(s, call.identity)| < c.limit
    ensures var after := BucketOf(s, call.identity) + [call.now];
      BucketsOk(c, if dedicated then s.(requests := s.requests[call.identity := after]) else s.(overflow := after),
                call.now)
  {
    var id := call.identity;
    var bucket := BucketOf(s, id);
    assert BucketOk(c, bucket, call.now);
    assert BucketOk(c, bucket + [call.now], call.now);
    assert dedicated ==> s.requests[id := bucket + [call.now]].Keys == s.requests.Keys;
  }

  lemma AdmitCovers(s: Buckets, log: seq<Call>, call: Call, dedicated: bool, other: Identity, at: real)
    requires (dedicated <==> call.identity in s.requests) && Covers(s, log, other, at)
    ensures var after := BucketOf(s, call.identity) + [call.now];
      Covers(if dedicated then s.(requests := s.requests[call.identity := after]) else s.(overflow := after),
             log + [call], other, at)
  {
    assert (log + [call])[..|log|] == log;
    CountAppend(Times(log, other), call.now, at);
    CountAppend(BucketOf(s, call.identity), call.now, at);
    hide CountAbove;
  }

  lemma AdmitKeeps(c: Config, s: Buckets, log: seq<Call>, call: Call, dedicated: bool)
    requires c.Valid() && BucketsOk(c, s, call.now) && CoversFrom(s, log, call.now - c.window)
    requires dedicated <==> call.identity in s.requests
    requires |BucketOf(s, call.identity)| < c.limit
    ensures var after := BucketOf(s, call.identity) + [call.now];
      var t := if dedicated then s.(requests := s.requests[call.identity := after]) else s.(overflow := after);
      BucketsOk(c, t, call.now) && CoversFrom(t, log + [call], call.now - c.window)
  {
    hide BucketsOk, Covers, BucketOf;
    var after := BucketOf(s, call.identity) + [call.now];
    var t := if dedicated then s.(requests := s.requests[call.identity := after]) else s.(overflow := after);
    AdmitKeepsBuckets(c, s, call, dedicated);
    forall other, at | call.now - c.window <= at
      ensures Covers(t, log + [call], other, at)
    {
      assert Covers(s, log, other, at);
      AdmitCovers(s, log, call, dedicated, other, at);
    }
  }

  lemma StepKeeps(c: Config, s: Buckets, log: seq<Call>, before: real, call: Call)
    requires c.Valid() && before <= call.now
    requires BucketsOk(c, s, before) && CoversFrom(s, log, before - c.window)
    ensures var (t, verdict) := Step(c, s, call);
      && BucketsOk(c, t, call.now)
      && CoversFrom(t, if verdict.Admitted? then log + [call] else log, call.now - c.window)
  {
    CleanUpKeeps(c, s, log, call.now);
    var cleaned := CleanUp(c, s, call.now);
    ChooseKeeps(c, cleaned, log, call);
    var (t, dedicated) := Choose(c, cleaned, call);
    hide BucketsOk, CoversFrom, CleanUp, Choose;
    if |BucketOf(t, call.identity)| < c.limit {
      AdmitKeeps(c, t, log, call, dedicated);
    }
  }

  lemma {:induction false} RunKeeps(c: Config, start: real, calls: seq<Call>, now: real)
    requires c.Valid() && InOrder(calls) && (calls != [] ==> calls[|calls| - 1].now <= now)
    ensures var (s, log) := Run(c, start, calls);
      BucketsOk(c, s, now) && CoversFrom(s, log, now - c.window)
  {
    var (s, log) := Run(c, start, calls);
    if calls != [] {
      var last := |calls| - 1;
      var (r, before) := Run(c, start, calls[..last]);
      RunKeeps(c, start, calls[..last], calls[last].now);
      StepKeeps(c, r, before, calls[last].now, calls[last]);
    }
  }

  lemma {:induction false} WithinIsAbove(times: seq<real>, from: real, to: real)
    ensures CountWithin(times, from, to) <= CountAbove(times, from)
  {
    if times != [] {
      WithinIsAbove(times[..|times| - 1], from, to);
    }
  }

  /** What an identity's bucket bounds: its admissions after `t`, once the run has passed `t + window`. */
  lemma {:induction false} BucketBounds(c: Config, s: Buckets, log: seq<Call>, now: real, id: Identity, t: real)
    requires BucketsOk(c, s, now) && CoversFrom(s, log, now - c.window) && now - c.window <= t
    ensures CountAbove(Times(log, id), t) <= c.limit
  {
    assert Covers(s, log, id, t);
    CountIsBounded(BucketOf(s, id), t);
  }

  lemma LastAdmission(c: Config, s: Buckets, before: seq<Call>, call: Call, id: Identity, t: real)
    requires BucketsOk(c, s, call.now) && CoversFrom(s, before + [call], call.now - c.window)
    requires CountWithin(Times(before, id), t - c.window, t) <= c.limit
    ensures CountWithin(Times(before + [call], id), t - c.window, t) <= c.limit
  {
    var log := before + [call];
    assert log[..|log| - 1] == before;
    if call.identity == id {
      var times := Times(log, id);
      assert times[..|times| - 1] == Times(before, id);
      if call.now <= t {
        BucketBounds(c, s, log, call.now, id, t - c.window);
        WithinIsAbove(times, t - c.window, t);
      }
    }
  }

  /**
   * When calls are served in the order of their times, no identity is admitted more than `limit`
   * times in any interval (t - window, t], whichever buckets it went through.
   */
  lemma {:induction false} NeverMoreThanLimit(c: Config, start: real, calls: seq<Call>, id: Identity, t: real)
    requires c.Valid() && InOrder(calls)
    ensures CountWithin(Times(Run(c, start, calls).1, id), t - c.window, t) <= c.limit
  {
    if calls != [] {
      var last := |calls| - 1;
      var (s, log) := Run(c, start, calls);
      var (_, before) := Run(c, start, calls[..last]);
      NeverMoreThanLimit(c, start, calls[..last], id, t);
      RunKeeps(c, start, calls, calls[last].now);
      assert log == before || log == before + [calls[last]];
      hide Run, BucketsOk, CoversFrom, InOrder;
      if log != before {
        LastAdmission(c, s, before, calls[last], id, t);
      }
    }
  }

  lemma {:induction false} NoBucketIsEmpty(c: Config, start: real, calls: seq<Call>)
    requires c.Valid()
    ensures forall id :: id in Run(c, start, calls).0.requests ==> Run(c, start, calls).0.requests[id] != []
  {
    if calls != [] {
      NoBucketIsEmpty(c, start, calls[..|calls| - 1]);
    }
  }

  /** There are never more than `maxKeys` buckets, and all of them hold sorted admission times. */
  lemma {:induction false} BucketsAreBounded(c: Config, start: real, calls: seq<Call>)
    requires c.Valid() && InOrder(calls)
    ensures var s := Run(c, start, calls).0;
      && |s.requests| <= c.maxKeys
      && Sorted(s.overflow)
      && (forall id :: id in s.requests ==> Sorted(s.requests[id]) && 0 < |s.requests[id]| <= c.limit)
  {
    RunKeeps(c, start, calls, if calls == [] then start else calls[|calls| - 1].now);
    NoBucketIsEmpty(c, start, calls);
  }

  /** Whether a call is charged to a bucket of its identity's own, in the state it meets. */
  predicate Dedicated(c: Config, s: Buckets, call: Call) {
    Choose(c, CleanUp(c, s, call.now), call).1
  }

  /** The times of the admitted calls that were charged to the overflow bucket, in a run. */
  function Shared(c: Config, start: real, calls: seq<Call>): seq<real> {
    if calls == [] then []
    else
      var last := |calls| - 1;
      var s, before := Run(c, start, calls[..last]).0, Shared(c, start, calls[..last]);
      if Step(c, s, calls[last]).1.Admitted? && !Dedicated(c, s, calls[last]) then before + [calls[last].now]
      else before
  }

  /** One call changes the recent times in the overflow bucket by its own admission there, if any. */
  lemma {:induction false} StepShares(c: Config, s: Buckets, call: Call, t: real)
    requires c.Valid() && BucketsOk(c, s, call.now) && call.now - c.window <= t
    ensures var (after, verdict) := Step(c, s, call);
      CountAbove(after.overflow, t) == CountAbove(s.overflow, t)
        + (if verdict.Admitted? && !Dedicated(c, s, call) && call.now > t then 1 else 0)
  {
    hide Expire, CountAbove;
    var cutoff := call.now - c.window;
    var cleaned := CleanUp(c, s, call.now);
    ExpireCounts(c, s.overflow, cutoff, call.now, t);
    CountAppend(Expire(s.overflow, cutoff), call.now, t);
  }

  /** The overflow bucket holds exactly the recent admissions charged to it. */
  lemma {:induction false} SharedIsHeld(c: Config, start: real, calls: seq<Call>, now: real, t: real)
    requires c.Valid() && InOrder(calls) && (calls != [] ==> calls[|calls| - 1].now <= now) && now - c.window <= t
    ensures CountAbove(Run(c, start, calls).0.overflow, t) == CountAbove(Shared(c, start, calls), t)
  {
    if calls != [] {
      var last := |calls| - 1;
      var call, front := calls[last], calls[..last];
      var s := Run(c, start, front).0;
      RunKeeps(c, start, front, call.now);
      SharedIsHeld(c, start, front, call.now, t);
      StepShares(c, s, call, t);
      CountAppend(Shared(c, start, front), call.now, t);
      hide Step, Dedicated, CountAbove, BucketsOk;
    }
  }

  lemma ChosenHolds(c: Config, s: Buckets, call: Call)
    requires c.Valid() && BucketsOk(c, s, call.now)
    ensures var (t, dedicated) := Choose(c, s, call);
      && |BucketOf(t, call.identity)| == CountAbove(BucketOf(t, call.identity), call.now - c.window)
      && (!dedicated ==> call.identity !in t.requests)
      && (call.identity in s.requests ==> dedicated)
      && (dedicated && call.identity !in s.requests ==> BucketOf(t, call.identity) == [])
      && (!dedicated ==>
            CountAbove(BucketOf(t, call.identity), call.now - c.window) == CountAbove(s.overflow, call.now - c.window))
  {
    hide Expire, CountAbove;
    ChooseKeepsBuckets(c, s, call);
    ExpireCounts(c, s.overflow, call.now - c.window, call.now, call.now - c.window);
  }

  /** What one call meets: its own bucket, a new one, or what the overflow bucket holds. */
  lemma {:induction false} StepDecides(c: Config, s: Buckets, log: seq<Call>, call: Call)
    requires c.Valid() && BucketsOk(c, s, call.now) && CoversFrom(s, log, call.now - c.window)
    ensures var known := CleanUp(c, s, call.now).requests;
      var verdict, from := Step(c, s, call).1, call.now - c.window;
      var dedicated := call.identity in known || (|known| < c.maxKeys && CountAbove(s.overflow, from) == 0);
      var used := if call.identity in known then CountAbove(Times(log, call.identity), from)
                  else if dedicated then 0 else CountAbove(s.overflow, from);
      && (Dedicated(c, s, call) <==> dedicated) && used <= c.limit
      && (if used == c.limit then verdict.Rejected? else verdict == Admitted(c.limit - used - 1))
  {
    hide CountAbove, Times;
    CleanUpKeeps(c, s, log, call.now);
    var cleaned := CleanUp(c, s, call.now);
    ChooseKeeps(c, cleaned, log, call);
    ChosenHolds(c, cleaned, call);
    var chosen := Choose(c, cleaned, call).0;
    assert Covers(chosen, log, call.identity, call.now - c.window);
    assert cleaned.overflow == s.overflow;
    ExpireCounts(c, s.overflow, call.now - c.window, call.now, call.now - c.window);
    hide BucketsOk, CleanUp, CoversFrom;
  }

  /**
   * A call is charged to its identity's bucket if there is one, to a new one if there is room and
   * nothing recent in the overflow bucket, and else to that. It is refused exactly when `limit`
   * admissions in (now - window, now] were charged there, and otherwise told how many are left.
   */
  lemma {:induction false} RefusedExactlyWhenFull(c: Config, start: real, calls: seq<Call>, call: Call)
    requires c.Valid() && InOrder(calls + [call])
    ensures var (s, log) := Run(c, start, calls);
      var known, from, shared := CleanUp(c, s, call.now).requests, call.now - c.window, Shared(c, start, calls);
      var dedicated := call.identity in known || (|known| < c.maxKeys && CountAbove(shared, from) == 0);
      var used := if call.identity in known then CountAbove(Times(log, call.identity), from)
                  else if dedicated then 0 else CountAbove(shared, from);
      var verdict := Step(c, s, call).1;
      && (Dedicated(c, s, call) <==> dedicated) && used <= c.limit
      && (if used == c.limit then verdict.Rejected? else verdict == Admitted(c.limit - used - 1))
  {
    hide Step, Run, Shared, Dedicated, CleanUp, BucketsOk, CoversFrom;
    assert calls == (calls + [call])[..|calls|];
    assert calls != [] ==> (calls + [call])[|calls| - 1].now <= (calls + [call])[|calls|].now;
    RunKeeps(c, start, calls, call.now);
    SharedIsHeld(c, start, calls, call.now, call.now - c.window);
    StepDecides(c, Run(c, start, calls).0, Run(c, start, calls).1, call);
  }

  // ---------------------------------------------------------------------
  // The announced wait, and idle buckets
  // ---------------------------------------------------------------------

  /** A refusing bucket is full of admissions in the window, the first of which decides the wait. */
  lemma {:induction false} RefusedBy(c: Config, s: Buckets, call: Call)
    requires c.Valid() && BucketsOk(c, s, call.now) && Step(c, s, call).1.Rejected?
    ensures var (t, verdict) := Step(c, s, call);
      var bucket, wait := BucketOf(t, call.identity), verdict.retryAfter;
      && BucketsOk(c, t, call.now) && |bucket| == c.limit && bucket[0] > call.now - c.window
      && wait >= 1 && bucket[0] + c.window < call.now + wait as real + 1.0
      && (wait > 1 ==> call.now + wait as real <= bucket[0] + c.window)
  {
    var cleaned := CleanUp(c, s, call.now);
    assert BucketsOk(c, cleaned, call.now) by {
      Sequences.SubsetIsSmaller(cleaned.requests.Keys, s.requests.Keys);
    }
    ChooseKeepsBuckets(c, cleaned, call);
    ExpireCounts(c, BucketOf(cleaned, call.identity), call.now - c.window, call.now, call.now - c.window);
    hide CleanUp, CountAbove;
  }

  /** A full bucket refuses as long as its first admission is in the window. */
  lemma {:induction false} StillFull(c: Config, s: Buckets, before: real, call: Call)
    requires c.Valid() && BucketsOk(c, s, before) && before <= call.now
    requires |BucketOf(s, call.identity)| == c.limit && BucketOf(s, call.identity)[0] > call.now - c.window
    ensures Step(c, s, call).1.Rejected?
  {
    var bucket := BucketOf(s, call.identity);
    assert bucket[0] <= bucket[|bucket| - 1];
    assert Expire(bucket, call.now - c.window) == bucket;
    assert BucketOf(CleanUp(c, s, call.now), call.identity) == bucket;
  }

  /** It admits once that has left, unless the whole bucket has been cleared away meanwhile. */
  lemma {:induction false} RoomAgain(c: Config, s: Buckets, before: real, call: Call)
    requires c.Valid() && BucketsOk(c, s, before) && before <= call.now
    requires |BucketOf(s, call.identity)| == c.limit && BucketOf(s, call.identity)[0] <= call.now - c.window
    requires call.identity in s.requests ==> call.identity in CleanUp(c, s, call.now).requests
    ensures Step(c, s, call).1.Admitted?
  {
    var cutoff, bucket := call.now - c.window, BucketOf(s, call.identity);
    assert BucketOf(CleanUp(c, s, call.now), call.identity) == bucket;
    ExpireCounts(c, bucket[1..], cutoff, call.now, cutoff);
  }

  /**
   * A refused caller that comes back is admitted exactly when the first admission in its bucket has
   * left the window, unless others were charged to the bucket or that was cleared away. Before the
   * announced seconds it has not, if they are more than one, and a second after them it has.
   */
  lemma {:induction false} WaitIsHonest(c: Config, start: real, calls: seq<Call>, call: Call, retry: Call)
    requires c.Valid() && InOrder(calls + [call]) && call.now <= retry.now && retry.identity == call.identity
    requires Step(c, Run(c, start, calls).0, call).1.Rejected?
    ensures var (t, verdict) := Step(c, Run(c, start, calls).0, call);
      var wait, kept := verdict.retryAfter, retry.identity in CleanUp(c, t, retry.now).requests;
      && wait >= 1
      && BucketOf(t, call.identity) != []
      && var leaves := BucketOf(t, call.identity)[0] + c.window;
         && (wait > 1 ==> call.now + wait as real <= leaves) && leaves < call.now + wait as real + 1.0
         && (retry.now < leaves ==> Step(c, t, retry).1.Rejected?)
         && (retry.now >= leaves && (retry.identity in t.requests ==> kept) ==> Step(c, t, retry).1.Admitted?)
  {
    assert calls == (calls + [call])[..|calls|];
    assert calls != [] ==> (calls + [call])[|calls| - 1].now <= (calls + [call])[|calls|].now;
    RunKeeps(c, start, calls, call.now);
    var s := Run(c, start, calls).0;
    RefusedBy(c, s, call);
    var t := Step(c, s, call).0;
    hide Run, Step, BucketsOk, CleanUp;
    if BucketOf(t, call.identity)[0] > retry.now - c.window {
      StillFull(c, t, call.now, retry);
    } else if retry.identity in t.requests ==> retry.identity in CleanUp(c, t, retry.now).requests {
      RoomAgain(c, t, call.now, retry);
    }
  }

  /** Two calls of one caller, and its return after the announced second, which is half a second too early. */
  lemma {:induction false} WaitFallsShort(c: Config, start: real, id: Identity)
    requires c == Config(1, 2.0, 1) && start == 0.0
    ensures var (s, log) := Run(c, start, [Call(1.0, id)]);
      && log == [Call(1.0, id)]
      && Step(c, s, Call(1.5, id)) == (s, Rejected(1))
      && Step(c, s, Call(2.5, id)).1.Rejected?
  {
    var call, empty := Call(1.0, id), Buckets(map[], [], 0.0);
    assert [call][..0] == [] && Run(c, start, []) == (empty, []);
    assert Choose(c, CleanUp(c, empty, 1.0), call) == (Buckets(map[id := []], [], 0.0), true);
    var none: seq<real> := [];
    assert none + [1.0] == [1.0] && map[id := none][id := [1.0]] == map[id := [1.0]];
    assert Step(c, empty, call) == (Buckets(map[id := [1.0]], [], 0.0), Admitted(0));
    var s := Run(c, start, [call]).0;
    assert s == Buckets(map[id := [1.0]], [], 0.0);
    assert s.requests[id := [1.0]] == s.requests;
    assert Expire([1.0], -0.5) == [1.0] && Expire([1.0], 0.5) == [1.0];
    assert Cleaned(s.requests, 0.5) == s.requests;
  }

  /** Every bucket was used since a window before the last cleanup. */
  predicate InUse(c: Config, s: Buckets) {
    forall id :: id in s.requests ==>
      s.requests[id] != [] && s.requests[id][|s.requests[id]| - 1] > s.lastCleanup - c.window
  }

  lemma {:induction false} ExpireKeepsLast(bucket: seq<real>, cutoff: real)
    ensures Expire(bucket, cutoff) != [] ==>
      bucket != [] && Expire(bucket, cutoff)[|Expire(bucket, cutoff)| - 1] == bucket[|bucket| - 1]
    decreases |bucket|
  {
    if bucket != [] && bucket[0] <= cutoff {
      ExpireKeepsLast(bucket[1..], cutoff);
    }
  }

  lemma {:induction false} CleanUpDropsIdle(c: Config, s: Buckets, now: real)
    requires c.Valid() && InUse(c, s) && s.lastCleanup <= now
    ensures var t := CleanUp(c, s, now);
      && InUse(c, t) && t.lastCleanup <= now && t.lastCleanup > now - c.window
      && (now >= s.lastCleanup + c.window ==> t.lastCleanup == now)
  {
  }

  lemma {:induction false} StepDropsIdle(c: Config, s: Buckets, call: Call)
    requires c.Valid() && InUse(c, s) && s.lastCleanup <= call.now
    ensures var t := Step(c, s, call).0;
      && InUse(c, t) && t.lastCleanup <= call.now && t.lastCleanup > call.now - c.window
      && (call.now >= s.lastCleanup + c.window ==> t.lastCleanup == call.now)
  {
    CleanUpDropsIdle(c, s, call.now);
    ExpireKeepsLast(BucketOf(CleanUp(c, s, call.now), call.identity), call.now - c.window);
    hide CleanUp, Expire;
  }

  /**
   * Idle buckets do not stay: after any call, no bucket is left of an identity that was last
   * admitted two windows ago or earlier.
   */
  lemma {:induction false} IdleAreDropped(c: Config, start: real, calls: seq<Call>)
    requires c.Valid() && InOrder(calls) && calls != [] && start <= calls[0].now
    ensures var s, now := Run(c, start, calls).0, calls[|calls| - 1].now;
      && InUse(c, s) && now - c.window < s.lastCleanup <= now
      && forall id :: id in s.requests ==> s.requests[id][|s.requests[id]| - 1] > now - c.window - c.window
  {
    var last := |calls| - 1;
    if last > 0 {
      IdleAreDropped(c, start, calls[..last]);
      assert calls[last - 1].now <= calls[last].now;
    }
    StepDropsIdle(c, Run(c, start, calls[..last]).0, calls[last]);
    hide Step;
  }
}
