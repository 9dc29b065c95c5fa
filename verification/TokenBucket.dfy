/**
 The token bucket of the API rate limiter. Instants are seconds as `real`, so
 elapsed time and token counts are exact.
 */
module TokenBuckets {
  import opened Prelude

  datatype Bucket = Bucket(capacity: nat, tokens: real, rate: real, last: real)

  datatype Verdict = Ok | Err(waitMs: nat)

  function Min(a: real, b: real): real {
    if a <= b then a else b
  }

  function Ceil(x: real): int {
    -((-x).Floor)
  }

  /** `(x).ceil() as u64`: the cast saturates at both ends. */
  function CeilU64(x: real): nat {
    var c := Ceil(x);
    if c < 0 then 0 else if c < TWO_64 then c else TWO_64 - 1
  }

  /** Tokens gained in `elapsed` seconds. */
  function Gain(elapsed: real, rate: real): real {
    elapsed * rate
  }

  function Full(rate: real, capacity: nat, now: real): Bucket {
    Bucket(capacity, capacity as real, rate, now)
  }

  /** The bucket after the lazy refill at `now`; an instant not after `last` refills nothing. */
  function Refilled(b: Bucket, now: real): Bucket {
    if now > b.last
    then b.(tokens := Min(b.tokens + Gain(now - b.last, b.rate), b.capacity as real), last := now)
    else b
  }

  /** The wait in milliseconds before rounding. */
  function ExactWaitMs(b: Bucket): real
    requires b.rate > 0.0
  {
    (1.0 - b.tokens) / b.rate * 1000.0
  }

  function WaitMs(b: Bucket): nat
    requires b.rate > 0.0
  {
    var ms := CeilU64(ExactWaitMs(b));
    if ms < 1 then 1 else ms
  }

  function Consume(b: Bucket, now: real): (Bucket, Verdict)
    requires b.rate > 0.0
  {
    var r := Refilled(b, now);
    if r.tokens >= 1.0 then (r.(tokens := r.tokens - 1.0), Ok) else (r, Err(WaitMs(r)))
  }

  class TokenBucket {
    const capacity: nat
    var tokens: real
    const rate: real
    var lastRefill: real

    ghost function View(): Bucket
      reads this
    {
      Bucket(capacity, tokens, rate, lastRefill)
    }

    constructor NewAt(rate: real, capacity: nat, now: real)
      ensures View() == Full(rate, capacity, now)
    {
      this.capacity, this.tokens, this.rate, this.lastRefill := capacity, capacity as real, rate, now;
    }

    method Refill(now: real)
      modifies this
      ensures View() == Refilled(old(View()), now)
    {
      // `duration_since` is zero for an earlier instant.
      var elapsed := if now >= lastRefill then now - lastRefill else 0.0;
      if elapsed > 0.0 {
        tokens := Min(tokens + Gain(elapsed, rate), capacity as real);
        lastRefill := now;
      }
    }

    method TryConsume(now: real) returns (v: Verdict)
      requires rate > 0.0
      modifies this
      ensures (View(), v) == Consume(old(View()), now)
      ensures v.Err? ==> v.waitMs == WaitMs(View())
    {
      Refill(now);
      if tokens >= 1.0 {
        tokens := tokens - 1.0;
        v := Ok;
      } else {
        var deficit := 1.0 - tokens;
        var waitSecs := deficit / rate;
        var waitMs := CeilU64(waitSecs * 1000.0);
        v := Err(if waitMs < 1 then 1 else waitMs);
      }
    }
  }

  // ------------------------------------------------------------------
  // What every bucket keeps
  // ------------------------------------------------------------------

  /** A bucket that can be reached, last touched no later than `now`. */
  predicate Sound(b: Bucket, now: real) {
    b.capacity >= 1 && b.rate > 0.0 && 0.0 <= b.tokens <= b.capacity as real && b.last <= now
  }

  lemma GainPositive(elapsed: real, rate: real)
    requires elapsed >= 0.0 && rate > 0.0
    ensures Gain(elapsed, rate) >= 0.0
  {
  }

  lemma GainAdds(a: real, b: real, rate: real)
    ensures Gain(a + b, rate) == Gain(a, rate) + Gain(b, rate)
  {
  }

  lemma ConsumeKeepsSound(b: Bucket, now: real)
    requires Sound(b, now)
    ensures Sound(Consume(b, now).0, now)
    ensures Consume(b, now).0.(tokens := b.tokens, last := b.last) == b
    ensures Consume(b, now).0.last == now
  {
    hide Gain, WaitMs;
    GainPositive(now - b.last, b.rate);
  }

  /**
   What a bucket can still hand out inside the window from `s` to `t`: a full
   burst and the whole window's refill while it was last touched before `s`.
   */
  function Potential(b: Bucket, s: real, t: real): real {
    if b.last < s then b.capacity as real + Gain(t - s, b.rate)
    else if b.last <= t then b.tokens + Gain(t - b.last, b.rate)
    else 0.0
  }

  /** A request inside the window is paid out of the potential; no request raises it. */
  lemma ConsumePaysPotential(b: Bucket, now: real, s: real, t: real)
    requires Sound(b, now) && s <= t
    ensures var (b', v) := Consume(b, now);
            Potential(b', s, t) + (if v.Ok? && s <= now <= t then 1.0 else 0.0) <= Potential(b, s, t)
  {
    hide Gain, WaitMs;
    if now < s {
    } else if now <= t {
      var since := if b.last < s then s else b.last;
      GainPositive(now - since, b.rate);
      GainAdds(now - since, t - now, b.rate);
      assert (now - since) + (t - now) == t - since;
    } else {
      PotentialBounds(b, now, s, t);
    }
  }

  lemma PotentialBounds(b: Bucket, now: real, s: real, t: real)
    requires Sound(b, now) && s <= t
    ensures 0.0 <= Potential(b, s, t) <= b.capacity as real + Gain(t - s, b.rate)
  {
    hide Gain;
    GainPositive(t - s, b.rate);
    if s <= b.last <= t {
      GainPositive(b.last - s, b.rate);
      GainPositive(t - b.last, b.rate);
      GainAdds(b.last - s, t - b.last, b.rate);
      assert (b.last - s) + (t - b.last) == t - s;
    }
  }

  // ------------------------------------------------------------------
  // The retry hint
  // ------------------------------------------------------------------

  lemma CeilBounds(x: real)
    ensures (Ceil(x) as real) - 1.0 < x <= Ceil(x) as real
  {
  }

  lemma GainReaches(x: real, rate: real, deficit: real)
    requires rate > 0.0
    ensures Gain(x, rate) >= deficit <==> x >= deficit / rate
  {
  }

  /** A bucket short of one token, `ms` milliseconds later. */
  lemma RefillLater(b: Bucket, now: real, ms: nat)
    requires Sound(b, now) && b.last == now && b.tokens < 1.0
    ensures Consume(b, now + ms as real / 1000.0).1.Ok? <==> ms as real >= ExactWaitMs(b)
  {
    hide Gain, WaitMs;
    var x := ms as real / 1000.0;
    GainReaches(x, b.rate, 1.0 - b.tokens);
    assert now + x - now == x;
  }

  /** Waiting `ms` is enough exactly when the uncapped hint is no larger than the cast can hold. */
  lemma RetryHintSound(b: Bucket, now: real)
    requires Sound(b, now) && Consume(b, now).1.Err?
    ensures var (b', v) := Consume(b, now);
            && (Consume(b', now + v.waitMs as real / 1000.0).1.Ok? <==>
                ExactWaitMs(b') <= (TWO_64 - 1) as real)
            && (ExactWaitMs(b') > (TWO_64 - 1) as real ==> v.waitMs == TWO_64 - 1)
  {
    hide ExactWaitMs, Gain;
    var (b', v) := Consume(b, now);
    ConsumeKeepsSound(b, now);
    RefillLater(b', now, v.waitMs);
    CeilBounds(ExactWaitMs(b'));
  }

  /** One millisecond less than the hint is never enough. */
  lemma RetryHintTight(b: Bucket, now: real)
    requires Sound(b, now) && Consume(b, now).1.Err? && Consume(b, now).1.waitMs > 1
    ensures var (b', v) := Consume(b, now);
            Consume(b', now + (v.waitMs - 1) as real / 1000.0).1.Err?
  {
    hide ExactWaitMs, Gain;
    var (b', v) := Consume(b, now);
    ConsumeKeepsSound(b, now);
    RefillLater(b', now, v.waitMs - 1);
    CeilBounds(ExactWaitMs(b'));
  }

  // ------------------------------------------------------------------
  // Runs of one bucket
  // ------------------------------------------------------------------

  /** The verdicts of one bucket on a run of requests. */
  ghost function Feed(b: Bucket, times: seq<real>): (verdicts: seq<Verdict>)
    requires b.rate > 0.0
    ensures |verdicts| == |times|
    decreases |times|
  {
    if times == [] then []
    else
      var (b', v) := Consume(b, times[0]);
      [v] + Feed(b', times[1..])
  }

  ghost function FedBucket(b: Bucket, times: seq<real>): Bucket
    requires b.rate > 0.0
    decreases |times|
  {
    if times == [] then b else FedBucket(Consume(b, times[0]).0, times[1..])
  }

  ghost function Grants(verdicts: seq<Verdict>): nat {
    if verdicts == [] then 0 else (if verdicts[0].Ok? then 1 else 0) + Grants(verdicts[1..])
  }

  ghost predicate Nondecreasing(times: seq<real>) {
    forall i, j :: 0 <= i <= j < |times| ==> times[i] <= times[j]
  }

  /** One more grant now keeps the grants since the `j`-th request within burst and rate. */
  ghost predicate Fits(capacity: nat, rate: real, times: seq<real>, verdicts: seq<Verdict>, j: nat, i: nat)
    requires j <= i < |times| == |verdicts|
  {
    Grants(verdicts[j..i]) as real + 1.0 <= capacity as real + Gain(times[i] - times[j], rate)
  }

  /** One more grant now keeps all grants within what the bucket held at the start and gained since. */
  ghost predicate FitsStart(b: Bucket, times: seq<real>, verdicts: seq<Verdict>, i: nat)
    requires i < |times| == |verdicts|
  {
    Grants(verdicts[..i]) as real + 1.0 <= b.tokens + Gain(times[i] - b.last, b.rate)
  }

  ghost predicate FitsSince(capacity: nat, rate: real, times: seq<real>, verdicts: seq<Verdict>, i: nat)
    requires i < |times| == |verdicts|
  {
    forall j :: 0 <= j <= i ==> Fits(capacity, rate, times, verdicts, j, i)
  }

  lemma FitsShift(capacity: nat, rate: real, times: seq<real>, verdicts: seq<Verdict>, j: nat, i: nat)
    requires 1 <= j <= i < |times| == |verdicts|
    ensures Fits(capacity, rate, times, verdicts, j, i) == Fits(capacity, rate, times[1..], verdicts[1..], j - 1, i - 1)
  {
    hide Gain;
    var slice, shifted := verdicts[j..i], verdicts[1..][j - 1..i - 1];
    assert forall k :: 0 <= k < |slice| ==> slice[k] == shifted[k];
    assert slice == shifted;
  }

  lemma FitsSinceFirst(capacity: nat, rate: real, times: seq<real>, verdicts: seq<Verdict>, i: nat)
    requires 0 < i < |times| == |verdicts|
    ensures FitsSince(capacity, rate, times, verdicts, i) <==>
            Fits(capacity, rate, times, verdicts, 0, i) && FitsSince(capacity, rate, times[1..], verdicts[1..], i - 1)
  {
    hide Fits;
    if FitsSince(capacity, rate, times, verdicts, i) {
      var last := i - 1;
      forall j: nat | j <= last
        ensures Fits(capacity, rate, times[1..], verdicts[1..], j, last)
      {
        FitsShift(capacity, rate, times, verdicts, j + 1, i);
      }
    } else {
      var j: nat :| j <= i && !Fits(capacity, rate, times, verdicts, j, i);
      if j > 0 {
        FitsShift(capacity, rate, times, verdicts, j, i);
      }
    }
  }

  /** What the first request leaves bounds the rest as the start and the first request do together. */
  lemma FitsStartFirst(b: Bucket, times: seq<real>, i: nat)
    requires 0 < i < |times| && Sound(b, times[0])
    ensures var verdicts := Feed(b, times);
            FitsStart(Consume(b, times[0]).0, times[1..], verdicts[1..], i - 1) <==>
            FitsStart(b, times, verdicts, i) && Fits(b.capacity, b.rate, times, verdicts, 0, i)
  {
    hide WaitMs, Feed, Grants, Gain;
    var verdicts := Feed(b, times);
    var (b', v) := Consume(b, times[0]);
    FeedFirst(b, times);
    ConsumeKeepsSound(b, times[0]);
    GrantsFirst(verdicts[..i]);
    assert verdicts[..i][1..] == verdicts[1..][..i - 1] && verdicts[0..i] == verdicts[..i];
    GainAdds(times[0] - b.last, times[i] - times[0], b.rate);
    assert (times[0] - b.last) + (times[i] - times[0]) == times[i] - b.last;
  }

  lemma FeedFirst(b: Bucket, times: seq<real>)
    requires b.rate > 0.0 && times != []
    ensures Feed(b, times)[0] == Consume(b, times[0]).1
    ensures Feed(b, times)[1..] == Feed(Consume(b, times[0]).0, times[1..])
  {
  }

  lemma GrantsFirst(verdicts: seq<Verdict>)
    requires verdicts != []
    ensures Grants(verdicts) == (if verdicts[0].Ok? then 1 else 0) + Grants(verdicts[1..])
  {
  }

  /**
   Exactly when a request is granted, from the grants before it and no token
   count in between: one more grant must fit what the bucket started with and,
   since each request up to this one, the burst and the rate.
   */
  lemma {:induction false} GrantedIff(b: Bucket, times: seq<real>, i: nat)
    requires i < |times| && Nondecreasing(times) && Sound(b, times[0])
    ensures Feed(b, times)[i].Ok? <==>
            FitsStart(b, times, Feed(b, times), i) && FitsSince(b.capacity, b.rate, times, Feed(b, times), i)
    decreases i
  {
    if i == 0 {
      FirstGrantedIff(b, times);
    } else {
      hide *;
      var verdicts, b' := Feed(b, times), Consume(b, times[0]).0;
      RestSound(b, times);
      FeedFirst(b, times);
      GrantedIff(b', times[1..], i - 1);
      FitsStartFirst(b, times, i);
      FitsSinceFirst(b.capacity, b.rate, times, verdicts, i);
    }
  }

  lemma FirstGrantedIff(b: Bucket, times: seq<real>)
    requires times != [] && Sound(b, times[0])
    ensures Feed(b, times)[0].Ok? <==>
            FitsStart(b, times, Feed(b, times), 0) && FitsSince(b.capacity, b.rate, times, Feed(b, times), 0)
  {
    hide WaitMs, Feed, Gain;
    var verdicts := Feed(b, times);
    FeedFirst(b, times);
    GainAdds(0.0, 0.0, b.rate);
    assert verdicts[..0] == [] && verdicts[0..0] == [];
    assert FitsSince(b.capacity, b.rate, times, verdicts, 0) <==> Fits(b.capacity, b.rate, times, verdicts, 0, 0);
  }

  lemma RestSound(b: Bucket, times: seq<real>)
    requires |times| > 1 && Nondecreasing(times) && Sound(b, times[0])
    ensures var b' := Consume(b, times[0]).0;
            && Sound(b', times[1]) && Nondecreasing(times[1..]) && times[1..][0] == times[1]
            && b'.rate == b.rate > 0.0 && b'.capacity == b.capacity
  {
    hide Consume;
    ConsumeKeepsSound(b, times[0]);
  }

  /**
   A bucket that starts full grants a request exactly when, since every request
   up to it, one more grant stays within burst and rate: it rejects nothing the
   rate bound allows.
   */
  lemma FullGrantedIff(rate: real, capacity: nat, start: real, times: seq<real>, i: nat)
    requires rate > 0.0 && capacity >= 1 && i < |times| && Nondecreasing(times) && start <= times[0]
    ensures var verdicts := Feed(Full(rate, capacity, start), times);
            verdicts[i].Ok? <==> FitsSince(capacity, rate, times, verdicts, i)
  {
    hide Feed, Gain;
    var b := Full(rate, capacity, start);
    GrantedIff(b, times, i);
    var verdicts := Feed(b, times);
    if FitsSince(capacity, rate, times, verdicts, i) {
      assert Fits(capacity, rate, times, verdicts, 0, i) && verdicts[0..i] == verdicts[..i];
      GainPositive(times[0] - start, rate);
      GainAdds(times[0] - start, times[i] - times[0], rate);
    }
  }

  /** Of any number of requests made at one instant, a full bucket grants exactly the first `capacity`. */
  lemma {:induction false} BurstExact(rate: real, capacity: nat, now: real, times: seq<real>, i: nat)
    requires rate > 0.0 && capacity >= 1 && i < |times| && forall k :: 0 <= k < |times| ==> times[k] == now
    ensures Feed(Full(rate, capacity, now), times)[i].Ok? <==> i < capacity
  {
    var verdicts := Feed(Full(rate, capacity, now), times);
    FullGrantedIff(rate, capacity, now, times, i);
    hide Feed, Gain;
    forall k: nat | k < i
      ensures verdicts[k].Ok? <==> k < capacity
    {
      BurstExact(rate, capacity, now, times, k);
    }
    GainAdds(0.0, 0.0, rate);
    GrantsUpTo(verdicts[0..i], capacity);
    assert Fits(capacity, rate, times, verdicts, 0, i) <==> i < capacity;
    if i < capacity {
      forall j: nat | j <= i
        ensures Fits(capacity, rate, times, verdicts, j, i)
      {
        GrantsUpTo(verdicts[j..i], capacity);
      }
    }
  }

  lemma {:induction false} GrantsUpTo(verdicts: seq<Verdict>, n: nat)
    requires forall k :: 0 <= k < |verdicts| ==> (verdicts[k].Ok? <==> k < n)
    ensures Grants(verdicts) == if |verdicts| <= n then |verdicts| else n
  {
    if verdicts != [] {
      GrantsUpTo(verdicts[1..], if n > 0 then n - 1 else 0);
    }
  }
}
