/** observability.py, RateLimiter: a token bucket per key. The clock is read before the lock
    is taken, so a key's readings may arrive in any order. */
module RateLimiter {
  import opened Sequences
  import opened Arithmetic

  datatype Limit = Limit(rate: real, capacity: real)

  datatype Bucket = Bucket(tokens: real, updated: real)

  /** Tokens earned while the clock moves by `dt`, negative if it moves back. */
  function Earned(l: Limit, dt: real): real { dt * l.rate }

  lemma EarnedAdds(l: Limit, a: real, b: real)
    ensures Earned(l, a) + Earned(l, b) == Earned(l, a + b)
  {
  }

  lemma EarnedMonotone(l: Limit, a: real, b: real)
    requires l.rate > 0.0
    ensures a <= b ==> Earned(l, a) <= Earned(l, b)
    ensures a < b ==> Earned(l, a) < Earned(l, b)
  {
    if a <= b { ProductNonNegative(b - a, l.rate); }
    EarnedAdds(l, a, b - a);
    if a < b { PositiveProduct(b - a, l.rate); }
  }

  /** Tokens available at a reading; a new key starts full. */
  function Available(l: Limit, b: Option<Bucket>, now: real): real {
    match b
    case None => l.capacity
    case Some(b) => MinReal(l.capacity, b.tokens + Earned(l, now - b.updated))
  }

  predicate Granted(l: Limit, b: Option<Bucket>, now: real) { Available(l, b, now) >= 1.0 }

  function Take(l: Limit, b: Option<Bucket>, now: real): Bucket {
    var tokens := Available(l, b, now);
    Bucket(if tokens >= 1.0 then tokens - 1.0 else tokens, now)
  }

  function Wait(l: Limit, b: Option<Bucket>, now: real): real
    requires l.rate > 0.0
  {
    if Granted(l, b, now) then 0.0 else (1.0 - Available(l, b, now)) / l.rate
  }

  class RateLimiter {
    const limit: Limit
    var buckets: map<string, Bucket>

    constructor (ratePerMinute: real, burst: Option<real>)
      ensures limit.rate == ratePerMinute / 60.0
      ensures limit.capacity == if burst.Some? then burst.value else MaxReal(1.0, ratePerMinute)
      ensures buckets == map[]
    {
      limit := Limit(ratePerMinute / 60.0, if burst.Some? then burst.value else MaxReal(1.0, ratePerMinute));
      buckets := map[];
    }

    ghost function BucketOf(key: string): Option<Bucket>
      reads this
    {
      if key in buckets then Some(buckets[key]) else None
    }

    /** Take one token; return 0 on success or the seconds to wait. */
    method Acquire(key: string, now: real) returns (wait: real)
      modifies this
      ensures limit.rate <= 0.0 ==> wait == 0.0 && buckets == old(buckets)
      ensures limit.rate > 0.0 ==> wait == Wait(limit, old(BucketOf(key)), now)
      ensures limit.rate > 0.0 ==> buckets == old(buckets)[key := Take(limit, old(BucketOf(key)), now)]
      ensures limit.rate > 0.0 ==> (wait == 0.0 <==> Granted(limit, old(BucketOf(key)), now))
    {
      if limit.rate <= 0.0 {
        return 0.0;
      }
      var bucket := if key in buckets then buckets[key] else Bucket(limit.capacity, now);
      var tokens := MinReal(limit.capacity, bucket.tokens + Earned(limit, now - bucket.updated));
      if tokens >= 1.0 {
        buckets := buckets[key := Bucket(tokens - 1.0, now)];
        return 0.0;
      }
      buckets := buckets[key := Bucket(tokens, now)];
      wait := (1.0 - tokens) / limit.rate;
      PositiveQuotient(1.0 - tokens, limit.rate);
    }
  }

  /* ---- runs of calls for one key, from any bucket ---- */

  function BucketAfter(l: Limit, b: Option<Bucket>, readings: seq<real>): Option<Bucket> {
    if readings == [] then b else Some(Take(l, BucketAfter(l, b, Init(readings)), Last(readings)))
  }

  function Successes(l: Limit, b: Option<Bucket>, readings: seq<real>): nat {
    if readings == [] then 0
    else Successes(l, b, Init(readings)) + if Granted(l, BucketAfter(l, b, Init(readings)), Last(readings)) then 1 else 0
  }

  /** Each success costs a token, and tokens come back only with the clock. */
  lemma {:induction false} TokensAccount(l: Limit, b: Option<Bucket>, readings: seq<real>)
    requires readings != []
    ensures BucketAfter(l, b, readings).value.updated == Last(readings)
    ensures BucketAfter(l, b, readings).value.tokens + Successes(l, b, readings) as real
         <= l.capacity + Earned(l, Last(readings) - readings[0])
  {
    if |readings| > 1 {
      var before := Init(readings);
      TokensAccount(l, b, before);
      EarnedAdds(l, Last(before) - readings[0], Last(readings) - Last(before));
    } else {
      assert Init(readings) == [];
      assert Earned(l, Last(readings) - readings[0]) == 0.0;
    }
  }

  /** Burst bound: consecutive calls for a key whose readings all lie in [s, t], in any
      order and starting from any bucket, succeed at most capacity + rate * (t - s) times. */
  lemma {:induction false} BurstBound(l: Limit, b: Option<Bucket>, readings: seq<real>, s: real, t: real)
    requires l.rate > 0.0 && forall i :: 0 <= i < |readings| ==> s <= readings[i] <= t
    ensures Successes(l, b, readings) == 0 || Successes(l, b, readings) as real <= l.capacity + Earned(l, t - s)
  {
    if readings != [] {
      if Granted(l, BucketAfter(l, b, Init(readings)), Last(readings)) {
        TokensAccount(l, b, readings);
        assert BucketAfter(l, b, readings).value.tokens >= 0.0;
        EarnedMonotone(l, Last(readings) - readings[0], t - s);
      } else {
        BurstBound(l, b, Init(readings), s, t);
      }
    }
  }

  /* ---- the returned wait ---- */

  /** When a bucket that is short of a token has earned it. */
  function ReadyAt(l: Limit, b: Bucket): real
    requires l.rate > 0.0
  {
    b.updated + (1.0 - b.tokens) / l.rate
  }

  lemma EarnedBy(l: Limit, b: Bucket, now: real)
    requires l.rate > 0.0
    ensures b.tokens + Earned(l, now - b.updated) >= 1.0 <==> now >= ReadyAt(l, b)
    ensures b.tokens + Earned(l, now - b.updated) == 1.0 - Earned(l, ReadyAt(l, b) - now)
  {
    var q := (1.0 - b.tokens) / l.rate;
    assert Earned(l, q) == 1.0 - b.tokens;
    EarnedAdds(l, now - b.updated, ReadyAt(l, b) - now);
    EarnedMonotone(l, 0.0, ReadyAt(l, b) - now);
    EarnedMonotone(l, ReadyAt(l, b) - now, 0.0);
  }

  /** A short bucket grants exactly from its ready time on; a call before that is told the
      time left and does not move the ready time. */
  lemma PollKeepsReadyTime(l: Limit, b: Bucket, now: real)
    requires l.rate > 0.0 && l.capacity >= 1.0 && b.tokens < 1.0
    ensures Granted(l, Some(b), now) <==> now >= ReadyAt(l, b)
    ensures now < ReadyAt(l, b) ==>
              && now + Wait(l, Some(b), now) == ReadyAt(l, b)
              && Take(l, Some(b), now).tokens < 1.0
              && ReadyAt(l, Take(l, Some(b), now)) == ReadyAt(l, b)
  {
    EarnedBy(l, b, now);
    if now < ReadyAt(l, b) {
      var left := ReadyAt(l, b) - now;
      EarnedMonotone(l, 0.0, left);
      assert Available(l, Some(b), now) == 1.0 - Earned(l, left);
      assert Earned(l, left) / l.rate == left;
    }
  }

  /** However often a denied caller polls before the announced time, every poll is denied
      and the announced time stands; the first call at or after it succeeds. */
  lemma {:induction false} WaitIsExact(l: Limit, b: Option<Bucket>, denied: real, polls: seq<real>, now: real)
    requires l.rate > 0.0 && l.capacity >= 1.0 && !Granted(l, b, denied)
    requires forall i :: 0 <= i < |polls| ==> polls[i] < denied + Wait(l, b, denied)
    ensures var b' := Some(Take(l, b, denied));
            && Successes(l, b', polls) == 0
            && (Granted(l, BucketAfter(l, b', polls), now) <==> now >= denied + Wait(l, b, denied))
            && BucketAfter(l, b', polls).value.tokens < 1.0
            && ReadyAt(l, BucketAfter(l, b', polls).value) == denied + Wait(l, b, denied)
  {
    var b' := Some(Take(l, b, denied));
    if polls == [] {
      PollKeepsReadyTime(l, b'.value, now);
    } else {
      WaitIsExact(l, b, denied, Init(polls), Last(polls));
      var before := BucketAfter(l, b', Init(polls)).value;
      PollKeepsReadyTime(l, before, Last(polls));
      PollKeepsReadyTime(l, Take(l, Some(before), Last(polls)), now);
    }
  }

  /** A bucket that cannot hold one token never grants. */
  lemma SmallBucketNeverGrants(l: Limit, b: Option<Bucket>, now: real)
    requires l.capacity < 1.0
    ensures !Granted(l, b, now)
  {
  }

  /** A key that was never used starts with a full burst: of any number of calls at one instant
      exactly the first floor(capacity) succeed. */
  lemma {:induction false} FreshBurst(l: Limit, readings: seq<real>, now: real)
    requires l.capacity >= 0.0 && forall i :: 0 <= i < |readings| ==> readings[i] == now
    ensures |readings| as real <= l.capacity ==> Successes(l, None, readings) == |readings|
    ensures |readings| as real > l.capacity ==>
              && Successes(l, None, readings) as real <= l.capacity
              && l.capacity < Successes(l, None, readings) as real + 1.0
    ensures readings != [] ==>
              BucketAfter(l, None, readings) == Some(Bucket(l.capacity - Successes(l, None, readings) as real, now))
  {
    if readings != [] {
      FreshBurst(l, Init(readings), now);
      var n := Successes(l, None, Init(readings));
      assert Earned(l, now - now) == 0.0;
      assert Available(l, BucketAfter(l, None, Init(readings)), now) == l.capacity - n as real;
    }
  }
}
