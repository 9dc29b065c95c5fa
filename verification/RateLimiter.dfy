/** Per-key buckets behind one aggregate bucket, and what whole runs of requests get. */
module RateLimiting {
  import opened Prelude
  import opened TokenBuckets

  datatype Limiter = Limiter(buckets: map<string, Bucket>, aggregate: Bucket, rate: real, burst: nat)

  datatype Answer = Admitted | AggregateExceeded(retryMs: nat) | KeyExceeded(retryMs: nat)

  datatype Request = Request(key: string, at: real)

  const DEFAULT_RATE_PER_SEC: real := 100.0
  const DEFAULT_BURST: nat := 200
  const DEFAULT_AGGREGATE_RATE_PER_SEC: real := 1000.0
  const DEFAULT_AGGREGATE_BURST: nat := 2000

  function Fresh(now: real): Limiter {
    Limiter(map[], Full(DEFAULT_AGGREGATE_RATE_PER_SEC, DEFAULT_AGGREGATE_BURST, now),
            DEFAULT_RATE_PER_SEC, DEFAULT_BURST)
  }

  /** The bucket of a key; a key not seen before has the bucket it would get at `now`. */
  function BucketOf(l: Limiter, key: string, now: real): Bucket {
    if key in l.buckets then l.buckets[key] else Full(l.rate, l.burst, now)
  }

  /** Every bucket is one the limiter can have made and touched by `now`. */
  ghost predicate Valid(l: Limiter, now: real) {
    && l.rate > 0.0 && l.burst >= 1
    && Sound(l.aggregate, now)
    && forall k :: k in l.buckets ==>
                     Sound(l.buckets[k], now) && l.buckets[k].rate == l.rate && l.buckets[k].capacity == l.burst
  }

  /** One request: the aggregate bucket first, then the key's. */
  function Check(l: Limiter, key: string, now: real): (Limiter, Answer)
    requires l.aggregate.rate > 0.0 && BucketOf(l, key, now).rate > 0.0
  {
    var (agg, v) := Consume(l.aggregate, now);
    if v.Err? then (l.(aggregate := agg), AggregateExceeded(v.waitMs))
    else
      var (b, w) := Consume(BucketOf(l, key, now), now);
      (l.(aggregate := agg, buckets := l.buckets[key := b]),
       if w.Ok? then Admitted else KeyExceeded(w.waitMs))
  }

  class RateLimiter {
    var buckets: map<string, TokenBucket>
    const aggregate: TokenBucket
    const perKeyRate: real
    const perKeyBurst: nat

    ghost predicate Separate()
      reads this
    {
      && (forall k :: k in buckets ==> buckets[k] != aggregate)
      && (forall k, k' :: k in buckets && k' in buckets && k != k' ==> buckets[k] != buckets[k'])
    }

    ghost function View(): Limiter
      reads this, aggregate, buckets.Values
    {
      Limiter(map k | k in buckets :: buckets[k].View(), aggregate.View(), perKeyRate, perKeyBurst)
    }

    constructor (now: real)
      ensures Separate() && fresh(aggregate) && View() == Fresh(now)
      ensures View() == Limiter(map[], Bucket(2000, 2000.0, 1000.0, now), 100.0, 200)
    {
      buckets := map[];
      aggregate := new TokenBucket.NewAt(DEFAULT_AGGREGATE_RATE_PER_SEC, DEFAULT_AGGREGATE_BURST, now);
      perKeyRate, perKeyBurst := DEFAULT_RATE_PER_SEC, DEFAULT_BURST;
    }

    /** The per-key half of `check_at`: the entry is made on first use, then charged. */
    method ConsumeKey(key: string, now: real) returns (w: Verdict)
      requires Separate() && BucketOf(View(), key, now).rate > 0.0
      modifies `buckets, buckets.Values
      ensures Separate() && fresh(buckets.Values - old(buckets.Values))
      ensures old(View()).buckets[key := Consume(old(BucketOf(View(), key, now)), now).0] == View().buckets
      ensures w == Consume(old(BucketOf(View(), key, now)), now).1
    {
      hide Consume;
      if key !in buckets {
        var b := new TokenBucket.NewAt(perKeyRate, perKeyBurst, now);
        buckets := buckets[key := b];
      }
      w := buckets[key].TryConsume(now);
    }

    /** `check_at`. */
    method CheckAt(key: string, now: real) returns (answer: Answer)
      requires Separate() && aggregate.rate > 0.0 && BucketOf(View(), key, now).rate > 0.0
      modifies `buckets, aggregate, buckets.Values
      ensures Separate() && fresh(buckets.Values - old(buckets.Values))
      ensures (View(), answer) == Check(old(View()), key, now)
      ensures answer.AggregateExceeded? ==>
                View().buckets == old(View()).buckets && answer.retryMs == WaitMs(View().aggregate)
    {
      hide Consume, Full;
      ghost var before := View();
      var v := aggregate.TryConsume(now);
      assert View().buckets == before.buckets;
      if v.Err? {
        return AggregateExceeded(v.waitMs);
      }
      var w := ConsumeKey(key, now);
      answer := if w.Ok? then Admitted else KeyExceeded(w.waitMs);
    }
  }

  // ------------------------------------------------------------------
  // Runs
  // ------------------------------------------------------------------

  lemma FreshIsValid(now: real)
    ensures Valid(Fresh(now), now)
  {
  }

  lemma CheckKeepsValid(l: Limiter, key: string, now: real)
    requires Valid(l, now)
    ensures var l' := Check(l, key, now).0;
            Valid(l', now) && l'.rate == l.rate && l'.burst == l.burst
  {
    ConsumeKeepsSound(l.aggregate, now);
    ConsumeKeepsSound(BucketOf(l, key, now), now);
  }

  lemma ValidLater(l: Limiter, now: real, later: real)
    requires Valid(l, now) && now <= later
    ensures Valid(l, later)
  {
  }

  /** Requests in the order of a clock that does not step back, from `now` on. */
  ghost predicate Ordered(reqs: seq<Request>, now: real) {
    reqs != [] ==> now <= reqs[0].at && Ordered(reqs[1..], reqs[0].at)
  }

  ghost function After(l: Limiter, reqs: seq<Request>, now: real): (l': Limiter)
    requires Valid(l, now) && Ordered(reqs, now)
    decreases |reqs|
  {
    if reqs == [] then l
    else
      ValidLater(l, now, reqs[0].at);
      CheckKeepsValid(l, reqs[0].key, reqs[0].at);
      After(Check(l, reqs[0].key, reqs[0].at).0, reqs[1..], reqs[0].at)
  }

  ghost function Answers(l: Limiter, reqs: seq<Request>, now: real): (answers: seq<Answer>)
    requires Valid(l, now) && Ordered(reqs, now)
    ensures |answers| == |reqs|
    decreases |reqs|
  {
    if reqs == [] then []
    else
      ValidLater(l, now, reqs[0].at);
      CheckKeepsValid(l, reqs[0].key, reqs[0].at);
      var (l', answer) := Check(l, reqs[0].key, reqs[0].at);
      [answer] + Answers(l', reqs[1..], reqs[0].at)
  }

  // ------------------------------------------------------------------
  // Bounds over any window of any run
  // ------------------------------------------------------------------

  /** Requests of one key (or of every key) admitted from instant `s` to instant `t`. */
  ghost function AdmittedIn(reqs: seq<Request>, answers: seq<Answer>, key: Option<string>, s: real, t: real): nat
    requires |reqs| == |answers|
  {
    if reqs == [] then 0
    else
      (if answers[0].Admitted? && s <= reqs[0].at <= t && (key.None? || key.value == reqs[0].key) then 1 else 0)
      + AdmittedIn(reqs[1..], answers[1..], key, s, t)
  }

  ghost function KeyPotential(l: Limiter, key: string, s: real, t: real): real {
    if key in l.buckets then Potential(l.buckets[key], s, t) else l.burst as real + Gain(t - s, l.rate)
  }

  lemma CheckPaysKey(l: Limiter, req: Request, key: string, s: real, t: real)
    requires Valid(l, req.at) && s <= t
    ensures var (l', a) := Check(l, req.key, req.at);
            KeyPotential(l', key, s, t)
            + (if a.Admitted? && req.key == key && s <= req.at <= t then 1.0 else 0.0) <= KeyPotential(l, key, s, t)
  {
    var b := BucketOf(l, req.key, req.at);
    ConsumePaysPotential(b, req.at, s, t);
    PotentialBounds(b, req.at, s, t);
  }

  lemma {:induction false} KeyPotentialCovers(l: Limiter, reqs: seq<Request>, now: real, key: string, s: real, t: real)
    requires Valid(l, now) && Ordered(reqs, now) && s <= t
    ensures AdmittedIn(reqs, Answers(l, reqs, now), Some(key), s, t) as real <= KeyPotential(l, key, s, t)
    decreases |reqs|
  {
    if reqs == [] {
      GainPositive(t - s, l.rate);
      if key in l.buckets {
        PotentialBounds(l.buckets[key], now, s, t);
      }
    } else {
      var at := reqs[0].at;
      ValidLater(l, now, at);
      CheckKeepsValid(l, reqs[0].key, at);
      CheckPaysKey(l, reqs[0], key, s, t);
      var l' := Check(l, reqs[0].key, at).0;
      KeyPotentialCovers(l', reqs[1..], at, key, s, t);
      assert Answers(l, reqs, now)[1..] == Answers(l', reqs[1..], at);
    }
  }

  /** In any window no key is admitted more often than its burst plus its rate times the window. */
  lemma KeyRateBound(l: Limiter, reqs: seq<Request>, now: real, key: string, s: real, t: real)
    requires Valid(l, now) && Ordered(reqs, now) && s <= t
    ensures AdmittedIn(reqs, Answers(l, reqs, now), Some(key), s, t) as real <= l.burst as real + (t - s) * l.rate
  {
    hide AdmittedIn, Answers, Potential;
    KeyPotentialCovers(l, reqs, now, key, s, t);
    assert Gain(t - s, l.rate) == (t - s) * l.rate;
    if key in l.buckets {
      PotentialBounds(l.buckets[key], now, s, t);
    }
  }

  lemma {:induction false} AggregatePotentialCovers(l: Limiter, reqs: seq<Request>, now: real, s: real, t: real)
    requires Valid(l, now) && Ordered(reqs, now) && s <= t
    ensures AdmittedIn(reqs, Answers(l, reqs, now), None, s, t) as real <= Potential(l.aggregate, s, t)
    decreases |reqs|
  {
    PotentialBounds(l.aggregate, now, s, t);
    if reqs != [] {
      var at := reqs[0].at;
      ValidLater(l, now, at);
      CheckKeepsValid(l, reqs[0].key, at);
      ConsumePaysPotential(l.aggregate, at, s, t);
      var l' := Check(l, reqs[0].key, at).0;
      AggregatePotentialCovers(l', reqs[1..], at, s, t);
      assert Answers(l, reqs, now)[1..] == Answers(l', reqs[1..], at);
    }
  }

  /** The same over all keys together, with the aggregate burst and rate. */
  lemma AggregateRateBound(l: Limiter, reqs: seq<Request>, now: real, s: real, t: real)
    requires Valid(l, now) && Ordered(reqs, now) && s <= t
    ensures AdmittedIn(reqs, Answers(l, reqs, now), None, s, t) as real
            <= l.aggregate.capacity as real + (t - s) * l.aggregate.rate
  {
    hide AdmittedIn, Answers, Potential;
    AggregatePotentialCovers(l, reqs, now, s, t);
    PotentialBounds(l.aggregate, now, s, t);
  }

  // ------------------------------------------------------------------
  // Isolation: each bucket sees only its own requests
  // ------------------------------------------------------------------

  /** The instants of a key's requests that the aggregate let through. */
  ghost function PassedTimes(reqs: seq<Request>, answers: seq<Answer>, key: string): seq<real>
    requires |reqs| == |answers|
  {
    if reqs == [] then []
    else
      var rest := PassedTimes(reqs[1..], answers[1..], key);
      if Passed(reqs[0], answers[0], key) then [reqs[0].at] + rest else rest
  }

  /** The verdicts on those requests. */
  ghost function VerdictsOf(reqs: seq<Request>, answers: seq<Answer>, key: string): seq<Verdict>
    requires |reqs| == |answers|
  {
    if reqs == [] then []
    else
      var rest := VerdictsOf(reqs[1..], answers[1..], key);
      if Passed(reqs[0], answers[0], key) then [KeyVerdict(answers[0])] + rest else rest
  }

  predicate Passed(req: Request, answer: Answer, key: string) {
    req.key == key && !answer.AggregateExceeded?
  }

  function KeyVerdict(a: Answer): Verdict {
    if a.Admitted? then Ok else Err(a.retryMs)
  }

  /** A bucket made full at the first request and one full since `since` are the same afterwards. */
  lemma LazyCreation(rate: real, burst: nat, since: real, now: real)
    requires rate > 0.0 && since <= now
    ensures Consume(Full(rate, burst, since), now) == Consume(Full(rate, burst, now), now)
  {
    GainPositive(now - since, rate);
  }

  /** The key's half of one request: its bucket moves exactly when the aggregate lets the request through. */
  lemma CheckKey(l: Limiter, req: Request, key: string, since: real)
    requires Valid(l, req.at) && since <= req.at
    ensures var (l', a) := Check(l, req.key, req.at);
            var (b, v) := Consume(BucketOf(l, key, since), req.at);
            if Passed(req, a, key) then key in l'.buckets && l'.buckets[key] == b && KeyVerdict(a) == v
            else (key in l'.buckets <==> key in l.buckets) && BucketOf(l', key, since) == BucketOf(l, key, since)
  {
    hide Consume;
    LazyCreation(l.rate, l.burst, since, req.at);
  }

  /** What is left of a run after its first request. */
  lemma RunFirst(l: Limiter, reqs: seq<Request>, now: real)
    requires Valid(l, now) && Ordered(reqs, now) && reqs != []
    ensures Valid(l, reqs[0].at)
    ensures var at := reqs[0].at;
            var (l', a) := Check(l, reqs[0].key, at);
            && Valid(l', at) && l'.rate == l.rate && l'.burst == l.burst && Ordered(reqs[1..], at)
            && After(l, reqs, now) == After(l', reqs[1..], at)
            && Answers(l, reqs, now) == [a] + Answers(l', reqs[1..], at)
            && Answers(l, reqs, now)[1..] == Answers(l', reqs[1..], at)
  {
    ValidLater(l, now, reqs[0].at);
    CheckKeepsValid(l, reqs[0].key, reqs[0].at);
  }

  /**
   In every run, a key is judged and its bucket moved as one bucket alone,
   fed just those requests of the key that the aggregate let through. For a
   key not seen yet the bucket may have been full since any instant up to now.
   */
  lemma {:induction false} KeyIsolation(l: Limiter, reqs: seq<Request>, now: real, key: string, since: real)
    requires Valid(l, now) && Ordered(reqs, now) && since <= now
    ensures var answers, l', b := Answers(l, reqs, now), After(l, reqs, now), BucketOf(l, key, since);
            var times := PassedTimes(reqs, answers, key);
            && b.rate > 0.0
            && VerdictsOf(reqs, answers, key) == Feed(b, times)
            && (key in l'.buckets <==> key in l.buckets || times != [])
            && (key in l'.buckets ==> l'.buckets[key] == FedBucket(b, times))
    decreases |reqs|
  {
    if reqs != [] {
      hide Consume, Check, Valid, Passed, Answers, After, Ordered;
      var at := reqs[0].at;
      RunFirst(l, reqs, now);
      var (l', a) := Check(l, reqs[0].key, at);
      CheckKey(l, reqs[0], key, since);
      KeyIsolation(l', reqs[1..], at, key, since);
      var rest := Answers(l', reqs[1..], at);
      PassedFirst(reqs, Answers(l, reqs, now), key);
      if Passed(reqs[0], a, key) {
        FedFirst(BucketOf(l, key, since), at, PassedTimes(reqs[1..], rest, key));
      }
    }
  }

  lemma PassedFirst(reqs: seq<Request>, answers: seq<Answer>, key: string)
    requires |reqs| == |answers| && reqs != []
    ensures var times, verdicts := PassedTimes(reqs[1..], answers[1..], key), VerdictsOf(reqs[1..], answers[1..], key);
            if Passed(reqs[0], answers[0], key)
            then PassedTimes(reqs, answers, key) == [reqs[0].at] + times
                 && VerdictsOf(reqs, answers, key) == [KeyVerdict(answers[0])] + verdicts
            else PassedTimes(reqs, answers, key) == times && VerdictsOf(reqs, answers, key) == verdicts
  {
  }

  lemma FedFirst(b: Bucket, at: real, times: seq<real>)
    requires b.rate > 0.0
    ensures var (b', v) := Consume(b, at);
            && b'.rate > 0.0
            && Feed(b, [at] + times) == [v] + Feed(b', times)
            && FedBucket(b, [at] + times) == FedBucket(b', times)
  {
    hide WaitMs;
    assert ([at] + times)[1..] == times;
  }

  ghost function AllTimes(reqs: seq<Request>): seq<real> {
    if reqs == [] then [] else [reqs[0].at] + AllTimes(reqs[1..])
  }

  /** What the answers say about the aggregate bucket. */
  ghost function AggregateVerdicts(answers: seq<Answer>): seq<Verdict> {
    if answers == [] then []
    else [if answers[0].AggregateExceeded? then Err(answers[0].retryMs) else Ok] + AggregateVerdicts(answers[1..])
  }

  /**
   The aggregate bucket judges and moves as one bucket alone, fed every
   request, whatever the keys: it is charged for each admitted request and for
   each request its key rejects, and its rejections carry its own wait.
   */
  lemma {:induction false} AggregateCharged(l: Limiter, reqs: seq<Request>, now: real)
    requires Valid(l, now) && Ordered(reqs, now)
    ensures After(l, reqs, now).aggregate == FedBucket(l.aggregate, AllTimes(reqs))
    ensures AggregateVerdicts(Answers(l, reqs, now)) == Feed(l.aggregate, AllTimes(reqs))
    decreases |reqs|
  {
    if reqs != [] {
      hide Consume, Valid, Answers, After, Ordered, BucketOf;
      var at := reqs[0].at;
      RunFirst(l, reqs, now);
      var l' := Check(l, reqs[0].key, at).0;
      AggregateCharged(l', reqs[1..], at);
      FedFirst(l.aggregate, at, AllTimes(reqs[1..]));
    }
  }

  // ------------------------------------------------------------------
  // The bounds are reached: nothing they allow is rejected
  // ------------------------------------------------------------------

  ghost predicate From(times: seq<real>, now: real) {
    Nondecreasing(times) && forall i :: 0 <= i < |times| ==> now <= times[i]
  }

  lemma FromFirst(at: real, times: seq<real>, now: real)
    requires now <= at && From(times, at)
    ensures From([at] + times, now) && From(times, now)
  {
    var all := [at] + times;
    assert forall i :: 0 < i < |all| ==> all[i] == times[i - 1];
  }

  lemma {:induction false} TimesOrdered(reqs: seq<Request>, answers: seq<Answer>, now: real, key: string)
    requires Ordered(reqs, now) && |reqs| == |answers|
    ensures From(AllTimes(reqs), now) && |AllTimes(reqs)| == |reqs|
    ensures From(PassedTimes(reqs, answers, key), now)
  {
    if reqs != [] {
      hide From;
      var at := reqs[0].at;
      TimesOrdered(reqs[1..], answers[1..], at, key);
      PassedFirst(reqs, answers, key);
      FromFirst(at, AllTimes(reqs[1..]), now);
      FromFirst(at, PassedTimes(reqs[1..], answers[1..], key), now);
    } else {
      assert AllTimes(reqs) == [] && PassedTimes(reqs, answers, key) == [];
    }
  }

  /**
   In every run of a limiter whose aggregate starts full, a request passes the
   aggregate exactly when one more charge since each request up to it stays
   within the aggregate burst and rate.
   */
  lemma AggregatePassesIff(l: Limiter, reqs: seq<Request>, now: real, i: nat)
    requires Valid(l, now) && Ordered(reqs, now) && i < |reqs|
    requires l.aggregate == Full(l.aggregate.rate, l.aggregate.capacity, now)
    ensures var verdicts := AggregateVerdicts(Answers(l, reqs, now));
            && |AllTimes(reqs)| == |verdicts| == |reqs|
            && (verdicts[i].Ok? <==> FitsSince(l.aggregate.capacity, l.aggregate.rate, AllTimes(reqs), verdicts, i))
  {
    hide Answers, AllTimes, AggregateVerdicts, Ordered, FitsSince, Feed;
    AggregateCharged(l, reqs, now);
    TimesOrdered(reqs, Answers(l, reqs, now), now, "");
    FullGrantedIff(l.aggregate.rate, l.aggregate.capacity, now, AllTimes(reqs), i);
  }

  /**
   In every run, the request of a new key that passes the aggregate is admitted
   exactly when one more admission since each passed request of the key up to
   it stays within the key's burst and rate.
   */
  lemma KeyAdmittedIff(l: Limiter, reqs: seq<Request>, now: real, key: string, m: nat)
    requires Valid(l, now) && Ordered(reqs, now) && key !in l.buckets
    requires m < |PassedTimes(reqs, Answers(l, reqs, now), key)|
    ensures var answers := Answers(l, reqs, now);
            var times, verdicts := PassedTimes(reqs, answers, key), VerdictsOf(reqs, answers, key);
            && |verdicts| == |times|
            && (verdicts[m].Ok? <==> FitsSince(l.burst, l.rate, times, verdicts, m))
  {
    hide Answers, PassedTimes, VerdictsOf, Ordered, FitsSince, Feed, FedBucket, After;
    KeyIsolation(l, reqs, now, key, now);
    TimesOrdered(reqs, Answers(l, reqs, now), now, key);
    FullGrantedIff(l.rate, l.burst, now, PassedTimes(reqs, Answers(l, reqs, now), key), m);
  }
}
