/** The token bucket limiter of one rule. Token counts are exact: they are scaled by the
    window, so a bucket gains `requests` units per nanosecond and one call costs `window`. */
module RateLimiting {
  import opened Arithmetic
  import opened Strings

  const SweepEvery: nat := 256

  datatype Config = Config(requests: nat, window: nat, burst: nat) {
    predicate Valid() {
      requests >= 1 && window >= 1 && burst >= 1
    }

    function Capacity(): int {
      Times(burst, window)
    }

    /** An idle bucket is full again by the time a sweep may drop it. */
    predicate SweepsFullBuckets() {
      Times(burst, window) <= Times(requests, 2 * window + 1)
    }
  }

  datatype Bucket = Bucket(tokens: int, last: int)

  datatype Answer = Allowed | Refused(wait: int)

  // ----------------------------------------------------------- one bucket --

  function Refilled(cfg: Config, b: Bucket, now: int): int {
    if now <= b.last then b.tokens
    else
      var tokens := b.tokens + Times(cfg.requests, now - b.last);
      if tokens < cfg.Capacity() then tokens else cfg.Capacity()
  }

  /** The bucket after one call at `now`. */
  function Spent(cfg: Config, b: Bucket, now: int): Bucket {
    var tokens := Refilled(cfg, b, now);
    Bucket(if tokens >= cfg.window then tokens - cfg.window else tokens, now)
  }

  /** The answer to that call. */
  function Verdict(cfg: Config, b: Bucket, now: int): Answer
    requires cfg.Valid()
  {
    var tokens := Refilled(cfg, b, now);
    if tokens >= cfg.window then Allowed else Refused(Quotient(cfg.window - tokens, cfg.requests))
  }

  /** A key seen for the first time starts with a full bucket. */
  function Held(cfg: Config, b: Option<Bucket>, now: int): Bucket {
    if b.Some? then b.value else Bucket(cfg.Capacity(), now)
  }

  // ----------------------------------------------------------- the limiter --

  datatype State = State(ops: nat, buckets: map<string, Bucket>)

  datatype Call = Call(key: string, now: int)

  function Swept(cfg: Config, buckets: map<string, Bucket>, now: int): map<string, Bucket> {
    map k | k in buckets && !(buckets[k].last < now - 2 * cfg.window) :: buckets[k]
  }

  function Get(buckets: map<string, Bucket>, key: string): Option<Bucket> {
    if key in buckets then Some(buckets[key]) else None
  }

  function Prepared(cfg: Config, s: State, now: int): map<string, Bucket> {
    if (s.ops + 1) % SweepEvery == 0 then Swept(cfg, s.buckets, now) else s.buckets
  }

  function Step(cfg: Config, s: State, c: Call): State {
    var buckets := Prepared(cfg, s, c.now);
    State(s.ops + 1, buckets[c.key := Spent(cfg, Held(cfg, Get(buckets, c.key), c.now), c.now)])
  }

  function Reply(cfg: Config, s: State, c: Call): Answer
    requires cfg.Valid()
  {
    Verdict(cfg, Held(cfg, Get(Prepared(cfg, s, c.now), c.key), c.now), c.now)
  }

  class Limiter {
    const cfg: Config
    var ops: nat
    var buckets: map<string, Bucket>

    ghost function Abstract(): State
      reads this
    {
      State(ops, buckets)
    }

    constructor (cfg: Config)
      ensures this.cfg == cfg && Abstract() == State(0, map[])
    {
      this.cfg := cfg;
      ops, buckets := 0, map[];
    }

    method Allow(key: string, now: int) returns (allowed: bool, wait: int)
      requires cfg.Valid()
      modifies this
      ensures Abstract() == Step(cfg, old(Abstract()), Call(key, now))
      ensures Reply(cfg, old(Abstract()), Call(key, now)) == if allowed then Allowed else Refused(wait)
      ensures allowed ==> wait == 0
    {
      ops := ops + 1;
      if ops % SweepEvery == 0 {
        Sweep(now);
      }

      TimesIsProduct(cfg.burst, cfg.window);
      var entry := Bucket(cfg.burst * cfg.window, now);
      if key in buckets {
        entry := buckets[key];
      }

      var tokens := entry.tokens;
      var elapsed := now - entry.last;
      if elapsed > 0 {
        TimesIsProduct(cfg.requests, elapsed);
        tokens := tokens + cfg.requests * elapsed;
        if tokens > cfg.burst * cfg.window {
          tokens := cfg.burst * cfg.window;
        }
      }

      if tokens >= cfg.window {
        buckets := buckets[key := Bucket(tokens - cfg.window, now)];
        return true, 0;
      }

      QuotientIsDivision(cfg.window - tokens, cfg.requests);
      buckets := buckets[key := Bucket(tokens, now)];
      return false, (cfg.window - tokens) / cfg.requests;
    }

    method Sweep(now: int)
      modifies this`buckets
      ensures buckets == Swept(cfg, old(buckets), now)
    {
      var horizon := now - 2 * cfg.window;
      var todo := buckets.Keys;
      while todo != {}
        invariant todo <= old(buckets).Keys
        invariant buckets == map k | k in old(buckets) && (k in todo || !(old(buckets)[k].last < horizon)) :: old(buckets)[k]
        decreases |todo|
      {
        var key :| key in todo;
        todo := todo - {key};
        if buckets[key].last < horizon {
          buckets := buckets - {key};
        }
      }
    }
  }

  // ------------------------------------------------------------------ runs --

  /** The calls a limiter has served since it was built, in lock order, each with the answer it
      got and the state it left. */
  datatype Run = Start | Then(before: Run, call: Call, answer: Answer, state: State) {
    function Last(): State {
      if Start? then State(0, map[]) else state
    }

    /** The time of the latest call is not after `now`. */
    predicate Until(now: int) {
      Then? ==> call.now <= now
    }
  }

  function Serve(cfg: Config, run: Run, c: Call): Run
    requires cfg.Valid()
  {
    Then(run, c, Reply(cfg, run.Last(), c), Step(cfg, run.Last(), c))
  }

  /** A run of the limiter with clock readings in order. The limiter reads the clock before
      taking its lock, so the order is a premise and not something the code enforces. */
  ghost predicate IsRun(cfg: Config, run: Run)
    requires cfg.Valid()
  {
    run.Then? ==>
      IsRun(cfg, run.before) && run == Serve(cfg, run.before, run.call) && run.before.Until(run.call.now)
  }

  /** The call times of one key, latest last. */
  datatype Instants = Never | At(before: Instants, now: int)

  function Own(run: Run, key: string): Instants {
    match run
    case Start => Never
    case Then(before, call, _, _) => if call.key == key then At(Own(before, key), call.now) else Own(before, key)
  }

  predicate Ascending(own: Instants) {
    own.At? ==> Ascending(own.before) && (own.before.At? ==> own.before.now <= own.now)
  }

  /** The bucket of a key that only ever saw its own calls, never a sweep. */
  function Private(cfg: Config, own: Instants): Option<Bucket> {
    match own
    case Never => None
    case At(before, now) => Some(Spent(cfg, Held(cfg, Private(cfg, before), now), now))
  }

  function PrivateReply(cfg: Config, own: Instants, now: int): Answer
    requires cfg.Valid()
  {
    Verdict(cfg, Held(cfg, Private(cfg, own), now), now)
  }

  // --------------------------------------------------------- sweeps vanish --

  lemma CapacityCoversOne(cfg: Config)
    requires cfg.Valid()
    ensures cfg.Capacity() >= cfg.window
  {
    TimesGrows(cfg.burst - 1, 0, cfg.window);
  }

  lemma {:induction false} PrivateStaysInRange(cfg: Config, own: Instants)
    requires cfg.Valid() && own.At?
    ensures 0 <= Private(cfg, own).value.tokens <= cfg.Capacity()
    ensures Private(cfg, own).value.last == own.now
  {
    CapacityCoversOne(cfg);
    if own.before.At? {
      PrivateStaysInRange(cfg, own.before);
      if own.now > own.before.now {
        TimesGrows(cfg.requests, 0, own.now - own.before.now);
      }
    }
  }

  lemma IdleBucketIsFull(cfg: Config, b: Bucket, now: int)
    requires cfg.Valid() && cfg.SweepsFullBuckets()
    requires b.tokens >= 0 && now - b.last >= 2 * cfg.window + 1
    ensures Refilled(cfg, b, now) == cfg.Capacity()
  {
    TimesGrows(cfg.requests, 2 * cfg.window + 1, now - b.last);
  }

  /** What the limiter holds for a key against what the key alone would hold: the same
      bucket, or nothing for a bucket idle past the sweep horizon. */
  ghost predicate Agrees(cfg: Config, held: Option<Bucket>, own: Option<Bucket>, now: int) {
    held == own || (held.None? && own.value.tokens >= 0 && own.value.last + 2 * cfg.window + 1 <= now)
  }

  lemma PreparingAgrees(cfg: Config, s: State, key: string, own: Option<Bucket>, now: int, later: int)
    requires Agrees(cfg, Get(s.buckets, key), own, now) && now <= later
    requires own.Some? ==> own.value.tokens >= 0
    ensures Agrees(cfg, Get(Prepared(cfg, s, later), key), own, later)
  {
  }

  lemma AgreeingServesAlike(cfg: Config, held: Option<Bucket>, own: Option<Bucket>, now: int)
    requires cfg.Valid() && cfg.SweepsFullBuckets()
    requires Agrees(cfg, held, own, now)
    ensures Spent(cfg, Held(cfg, held, now), now) == Spent(cfg, Held(cfg, own, now), now)
    ensures Verdict(cfg, Held(cfg, held, now), now) == Verdict(cfg, Held(cfg, own, now), now)
  {
    if held != own {
      IdleBucketIsFull(cfg, own.value, now);
    }
  }

  lemma {:induction false} LimiterAgrees(cfg: Config, run: Run, key: string, now: int)
    requires cfg.Valid() && cfg.SweepsFullBuckets()
    requires IsRun(cfg, run) && run.Until(now)
    ensures Agrees(cfg, Get(Prepared(cfg, run.Last(), now), key), Private(cfg, Own(run, key)), now)
  {
    if run.Then? {
      var c := run.call;
      LimiterAgrees(cfg, run.before, key, c.now);
      if c.key == key {
        AgreeingServesAlike(cfg, Get(Prepared(cfg, run.before.Last(), c.now), key), Private(cfg, Own(run.before, key)), c.now);
      }
      if Own(run, key).At? {
        PrivateStaysInRange(cfg, Own(run, key));
      }
      PreparingAgrees(cfg, run.state, key, Private(cfg, Own(run, key)), c.now, now);
    }
  }

  /** Every answer of the swept, shared limiter is the answer of a private, unswept bucket:
      keys do not influence each other and sweeps are invisible. */
  lemma AnswersDependOnOwnCallsOnly(cfg: Config, run: Run, c: Call)
    requires cfg.Valid() && cfg.SweepsFullBuckets()
    requires IsRun(cfg, run) && run.Until(c.now)
    ensures Reply(cfg, run.Last(), c) == PrivateReply(cfg, Own(run, c.key), c.now)
  {
    LimiterAgrees(cfg, run, c.key, c.now);
    AgreeingServesAlike(cfg, Get(Prepared(cfg, run.Last(), c.now), c.key), Private(cfg, Own(run, c.key)), c.now);
  }

  // -------------------------------------------------------------- the bound --

  function One(b: bool): nat {
    if b then 1 else 0
  }

  /** Calls on a key allowed at a time from `from` to `to`. */
  function AllowedIn(run: Run, key: string, from: int, to: int): nat {
    match run
    case Start => 0
    case Then(before, c, answer, _) =>
      AllowedIn(before, key, from, to) + One(c.key == key && from <= c.now <= to && answer.Allowed?)
  }

  function PrivateAllowed(cfg: Config, own: Instants, from: int, to: int): nat
    requires cfg.Valid()
  {
    match own
    case Never => 0
    case At(before, now) =>
      PrivateAllowed(cfg, before, from, to) + One(from <= now <= to && PrivateReply(cfg, before, now).Allowed?)
  }

  lemma {:induction false} NothingBeforeFrom(cfg: Config, own: Instants, from: int, to: int)
    requires cfg.Valid() && Ascending(own) && (own.At? ==> own.now < from)
    ensures PrivateAllowed(cfg, own, from, to) == 0
  {
    if own.At? {
      NothingBeforeFrom(cfg, own.before, from, to);
    }
  }

  /** Calls allowed plus what is left in the bucket never exceed the capacity plus the refill
      since `from`. */
  lemma {:induction false} Potential(cfg: Config, own: Instants, from: int, to: int)
    requires cfg.Valid() && Ascending(own) && own.At? && from <= own.now <= to
    ensures Times(PrivateAllowed(cfg, own, from, to), cfg.window) + Private(cfg, own).value.tokens
            <= cfg.Capacity() + Times(cfg.requests, own.now - from)
  {
    var before := own.before;
    TimesGrows(cfg.requests, 0, own.now - from);
    if before.At? {
      PrivateStaysInRange(cfg, before);
      if before.now < from {
        NothingBeforeFrom(cfg, before, from, to);
      } else {
        Potential(cfg, before, from, to);
        RefillIsBounded(cfg, Private(cfg, before).value, from, own.now);
      }
    }
  }

  lemma RefillIsBounded(cfg: Config, b: Bucket, from: int, now: int)
    requires from <= b.last <= now
    ensures Refilled(cfg, b, now) + Times(cfg.requests, b.last - from) <= b.tokens + Times(cfg.requests, now - from)
  {
    TimesAdds(cfg.requests, now - b.last, b.last - from);
    TimesGrows(cfg.requests, 0, now - b.last);
  }

  lemma {:induction false} PrivateBound(cfg: Config, own: Instants, from: int, to: int)
    requires cfg.Valid() && Ascending(own) && from <= to
    ensures Times(PrivateAllowed(cfg, own, from, to), cfg.window) <= cfg.Capacity() + Times(cfg.requests, to - from)
  {
    CapacityCoversOne(cfg);
    TimesGrows(cfg.requests, 0, to - from);
    if own.At? {
      if own.now > to {
        PrivateBound(cfg, own.before, from, to);
      } else if own.now < from {
        NothingBeforeFrom(cfg, own, from, to);
      } else {
        Potential(cfg, own, from, to);
        PrivateStaysInRange(cfg, own);
        TimesGrows(cfg.requests, own.now - from, to - from);
      }
    }
  }

  lemma {:induction false} OwnTimesAscend(cfg: Config, run: Run, key: string)
    requires cfg.Valid() && IsRun(cfg, run)
    ensures Ascending(Own(run, key))
    ensures Own(run, key).At? ==> run.Then? && Own(run, key).now <= run.call.now
  {
    if run.Then? {
      OwnTimesAscend(cfg, run.before, key);
    }
  }

  /** Every answer of a run is the one the key's private bucket gives. */
  ghost predicate AnswersLikePrivate(cfg: Config, run: Run)
    requires cfg.Valid()
  {
    run.Then? ==>
      && AnswersLikePrivate(cfg, run.before)
      && run.answer == PrivateReply(cfg, Own(run.before, run.call.key), run.call.now)
  }

  lemma {:induction false} SweptAnswersLikePrivate(cfg: Config, run: Run)
    requires cfg.Valid() && cfg.SweepsFullBuckets() && IsRun(cfg, run)
    ensures AnswersLikePrivate(cfg, run)
  {
    if run.Then? {
      SweptAnswersLikePrivate(cfg, run.before);
      AnswersDependOnOwnCallsOnly(cfg, run.before, run.call);
    }
  }

  lemma {:induction false} CountsLikePrivate(cfg: Config, run: Run, key: string, from: int, to: int)
    requires cfg.Valid() && AnswersLikePrivate(cfg, run)
    ensures AllowedIn(run, key, from, to) == PrivateAllowed(cfg, Own(run, key), from, to)
  {
    if run.Then? {
      CountsLikePrivate(cfg, run.before, key, from, to);
    }
  }

  /** For every key and every interleaving of keys and sweeps, the calls allowed in an interval
      of length T number at most burst + requests * T / window. */
  ghost predicate RateBounded(cfg: Config)
    requires cfg.Valid()
  {
    forall run, key, from, to | IsRun(cfg, run) && from <= to ::
      Times(AllowedIn(run, key, from, to), cfg.window) <= cfg.Capacity() + Times(cfg.requests, to - from)
  }

  ghost predicate SweepsInvisible(cfg: Config)
    requires cfg.Valid()
  {
    forall run | IsRun(cfg, run) :: AnswersLikePrivate(cfg, run)
  }

  // ------------------------------------------------ the condition is exact --

  /** A run followed by the same call n times. */
  function Repeat(cfg: Config, run: Run, c: Call, n: nat): Run
    requires cfg.Valid()
  {
    if n == 0 then run else Serve(cfg, Repeat(cfg, run, c, n - 1), c)
  }

  lemma {:induction false} RepeatIsRun(cfg: Config, run: Run, c: Call, n: nat)
    requires cfg.Valid() && IsRun(cfg, run) && run.Until(c.now)
    ensures IsRun(cfg, Repeat(cfg, run, c, n)) && Repeat(cfg, run, c, n).Until(c.now)
    ensures Repeat(cfg, run, c, n).Last().ops == run.Last().ops + n
  {
    if n > 0 {
      RepeatIsRun(cfg, run, c, n - 1);
    }
  }

  lemma DrainStep(cfg: Config, s: State, c: Call, left: nat)
    requires cfg.Valid() && left < cfg.burst
    requires var held := Get(Prepared(cfg, s, c.now), c.key);
             if left + 1 == cfg.burst then held.None? else held == Some(Bucket(Times(left + 1, cfg.window), c.now))
    ensures Reply(cfg, s, c).Allowed?
    ensures Get(Step(cfg, s, c).buckets, c.key) == Some(Bucket(Times(left, cfg.window), c.now))
  {
    TimesGrows(left, 0, cfg.window);
  }

  /** Calls answered out of a full bucket at one time are allowed until it is empty. */
  lemma {:induction false} BurstDrains(cfg: Config, run: Run, c: Call, n: nat, from: int, to: int)
    requires cfg.Valid() && 1 <= n <= cfg.burst && from <= c.now <= to
    requires c.key !in Prepared(cfg, run.Last(), c.now)
    ensures Get(Repeat(cfg, run, c, n).Last().buckets, c.key) == Some(Bucket(Times(cfg.burst - n, cfg.window), c.now))
    ensures AllowedIn(Repeat(cfg, run, c, n), c.key, from, to) == AllowedIn(run, c.key, from, to) + n
  {
    if n > 1 {
      BurstDrains(cfg, run, c, n - 1, from, to);
    }
    DrainStep(cfg, Repeat(cfg, run, c, n - 1).Last(), c, cfg.burst - n);
  }

  lemma {:induction false} OthersLeaveAlone(cfg: Config, run: Run, c: Call, key: string, n: nat, from: int, to: int)
    requires cfg.Valid() && c.key != key
    requires key in run.Last().buckets && run.Last().buckets[key].last == c.now
    ensures Get(Repeat(cfg, run, c, n).Last().buckets, key) == Some(run.Last().buckets[key])
    ensures AllowedIn(Repeat(cfg, run, c, n), key, from, to) == AllowedIn(run, key, from, to)
  {
    if n > 0 {
      OthersLeaveAlone(cfg, run, c, key, n - 1, from, to);
    }
  }

  function Padding(cfg: Config): nat {
    SweepEvery - 1 - cfg.burst % SweepEvery
  }

  /** Drain "a", then bring the operation count to one short of a sweep. */
  function Drained(cfg: Config): Run
    requires cfg.Valid()
  {
    Repeat(cfg, Repeat(cfg, Start, Call("a", 0), cfg.burst), Call("b", 0), Padding(cfg))
  }

  /** Wait just past the sweep horizon, let the sweep drop the bucket of "a", drain it again. */
  function Overrun(cfg: Config): Run
    requires cfg.Valid()
  {
    Repeat(cfg, Drained(cfg), Call("a", 2 * cfg.window + 1), cfg.burst)
  }

  lemma PaddingReachesSweep(cfg: Config)
    ensures (cfg.burst + Padding(cfg) + 1) % SweepEvery == 0
  {
  }

  lemma DrainedCounts(cfg: Config, to: int)
    requires cfg.Valid() && 0 <= to
    ensures IsRun(cfg, Drained(cfg)) && Drained(cfg).Until(0)
    ensures AllowedIn(Drained(cfg), "a", 0, to) == cfg.burst
    ensures Get(Drained(cfg).Last().buckets, "a") == Some(Bucket(0, 0))
    ensures (Drained(cfg).Last().ops + 1) % SweepEvery == 0
  {
    var a, b, padding := Call("a", 0), Call("b", 0), Padding(cfg);
    var first := Repeat(cfg, Start, a, cfg.burst);
    assert Drained(cfg) == Repeat(cfg, first, b, padding);
    RepeatIsRun(cfg, Start, a, cfg.burst);
    RepeatIsRun(cfg, first, b, padding);
    PaddingReachesSweep(cfg);
    FirstDrains(cfg, a, to);
    OthersLeaveAlone(cfg, first, b, a.key, padding, 0, to);
  }

  lemma FirstDrains(cfg: Config, c: Call, to: int)
    requires cfg.Valid() && c.now == 0 <= to
    ensures
      var run := Repeat(cfg, Start, c, cfg.burst);
      Get(run.Last().buckets, c.key) == Some(Bucket(0, 0)) && AllowedIn(run, c.key, 0, to) == cfg.burst
  {
    BurstDrains(cfg, Start, c, cfg.burst, 0, to);
  }

  lemma OverrunCounts(cfg: Config)
    requires cfg.Valid()
    ensures IsRun(cfg, Overrun(cfg))
    ensures AllowedIn(Overrun(cfg), "a", 0, 2 * cfg.window + 1) == 2 * cfg.burst
  {
    var run, to := Drained(cfg), 2 * cfg.window + 1;
    DrainedCounts(cfg, to);
    assert "a" !in Prepared(cfg, run.Last(), to);
    BurstDrains(cfg, run, Call("a", to), cfg.burst, 0, to);
    RepeatIsRun(cfg, run, Call("a", to), cfg.burst);
  }

  lemma OverrunExceeds(cfg: Config)
    requires cfg.Valid() && !cfg.SweepsFullBuckets()
    ensures Times(2 * cfg.burst, cfg.window) > cfg.Capacity() + Times(cfg.requests, 2 * cfg.window + 1 - 0)
  {
    TimesSplits(cfg.burst, cfg.burst, cfg.window);
  }

  /** The bound holds for every run exactly when an idle bucket refills before a sweep may drop it. */
  lemma RateBoundIsExact(cfg: Config)
    requires cfg.Valid()
    ensures RateBounded(cfg) <==> cfg.SweepsFullBuckets()
  {
    if cfg.SweepsFullBuckets() {
      forall run, key, from, to | IsRun(cfg, run) && from <= to
        ensures Times(AllowedIn(run, key, from, to), cfg.window) <= cfg.Capacity() + Times(cfg.requests, to - from)
      {
        SweptAnswersLikePrivate(cfg, run);
        CountsLikePrivate(cfg, run, key, from, to);
        OwnTimesAscend(cfg, run, key);
        PrivateBound(cfg, Own(run, key), from, to);
      }
    } else {
      var to := 2 * cfg.window + 1;
      OverrunCounts(cfg);
      OverrunExceeds(cfg);
      assert !(Times(AllowedIn(Overrun(cfg), "a", 0, to), cfg.window) <= cfg.Capacity() + Times(cfg.requests, to - 0));
    }
  }

  lemma ExcessIsVisible(cfg: Config, run: Run, key: string, from: int, to: int)
    requires cfg.Valid() && IsRun(cfg, run) && from <= to
    requires Times(AllowedIn(run, key, from, to), cfg.window) > cfg.Capacity() + Times(cfg.requests, to - from)
    ensures !AnswersLikePrivate(cfg, run)
  {
    OwnTimesAscend(cfg, run, key);
    PrivateBound(cfg, Own(run, key), from, to);
    if AnswersLikePrivate(cfg, run) {
      CountsLikePrivate(cfg, run, key, from, to);
    }
  }

  /** The swept limiter decides exactly as an unswept one, for every run, under the same condition. */
  lemma SweepInvisibilityIsExact(cfg: Config)
    requires cfg.Valid()
    ensures SweepsInvisible(cfg) <==> cfg.SweepsFullBuckets()
  {
    if cfg.SweepsFullBuckets() {
      forall run | IsRun(cfg, run)
        ensures AnswersLikePrivate(cfg, run)
      {
        SweptAnswersLikePrivate(cfg, run);
      }
    } else {
      OverrunCounts(cfg);
      OverrunExceeds(cfg);
      ExcessIsVisible(cfg, Overrun(cfg), "a", 0, 2 * cfg.window + 1);
    }
  }

  /** The condition in the configuration's own terms; a burst of at most twice the requests meets it. */
  lemma SweepConditionReads(cfg: Config)
    requires cfg.Valid()
    ensures cfg.SweepsFullBuckets() <==> cfg.burst * cfg.window <= cfg.requests * (2 * cfg.window + 1)
    ensures cfg.burst <= 2 * cfg.requests ==> cfg.SweepsFullBuckets()
  {
    TimesIsProduct(cfg.burst, cfg.window);
    TimesIsProduct(cfg.requests, 2 * cfg.window + 1);
    if cfg.burst <= 2 * cfg.requests {
      TimesSplits(cfg.burst, 2 * cfg.requests - cfg.burst, cfg.window);
      TimesGrows(2 * cfg.requests - cfg.burst, 0, cfg.window);
      TimesSplits(cfg.requests, cfg.requests, cfg.window);
      TimesAdds(cfg.requests, cfg.window, cfg.window);
      TimesGrows(cfg.requests, 2 * cfg.window, 2 * cfg.window + 1);
    }
  }

  /** Out-of-order clock readings break the bound: three calls at the times 10, 0, 10 are
      allowed twice at time 10 by a bucket of one. */
  lemma ClockOrderIsNeeded()
    ensures var cfg := Config(1, 1, 1);
            var run := Serve(cfg, Serve(cfg, Serve(cfg, Start, Call("a", 10)), Call("a", 0)), Call("a", 10));
            cfg.SweepsFullBuckets() && AllowedIn(run, "a", 10, 10) == 2
  {
    var cfg := Config(1, 1, 1);
    TimesIsProduct(1, 1);
    TimesIsProduct(1, 3);
    TimesIsProduct(1, 10);
    var one := Serve(cfg, Start, Call("a", 10));
    var two := Serve(cfg, one, Call("a", 0));
    assert Get(one.Last().buckets, "a") == Some(Bucket(0, 10));
    assert Get(two.Last().buckets, "a") == Some(Bucket(0, 0));
  }

  // ------------------------------------------------- clocks out of order --

  /** A run of the limiter with clock readings in any order. */
  ghost predicate IsServed(cfg: Config, run: Run)
    requires cfg.Valid()
  {
    run.Then? ==> IsServed(cfg, run.before) && run == Serve(cfg, run.before, run.call)
  }

  lemma {:induction false} RunIsServed(cfg: Config, run: Run)
    requires cfg.Valid() && IsRun(cfg, run)
    ensures IsServed(cfg, run)
  {
    if run.Then? {
      RunIsServed(cfg, run.before);
    }
  }

  predicate Continues(run: Run, base: Run) {
    run == base || (run.Then? && Continues(run.before, base))
  }

  /** Calls on a key allowed since `base`, in lock order. */
  function AllowedSince(run: Run, base: Run, key: string): nat {
    if run == base || run.Start? then 0
    else AllowedSince(run.before, base, key) + One(run.call.key == key && run.answer.Allowed?)
  }

  /** How far the clock moved from the call before. */
  function Moved(run: Run): int
    requires run.Then?
  {
    if run.before.Start? then 0 else run.call.now - run.before.call.now
  }

  function Forward(run: Run, base: Run): nat {
    if run == base || run.Start? then 0
    else Forward(run.before, base) + if Moved(run) > 0 then Moved(run) else 0
  }

  function Backward(run: Run, base: Run): nat {
    if run == base || run.Start? then 0
    else Backward(run.before, base) + if Moved(run) < 0 then -Moved(run) else 0
  }

  lemma {:induction false} MovementIsNet(run: Run, base: Run)
    requires Continues(run, base) && base.Then?
    ensures run.Then? && Forward(run, base) == run.call.now - base.call.now + Backward(run, base)
  {
    if run != base {
      MovementIsNet(run.before, base);
    }
  }

  /** What a bucket holds at `now`; one that is not there is full. */
  function Worth(cfg: Config, b: Option<Bucket>, now: int): int {
    if b.Some? then Refilled(cfg, b.value, now) else cfg.Capacity()
  }

  function WorthAfter(cfg: Config, run: Run, key: string): int {
    if run.Start? then cfg.Capacity() else Worth(cfg, Get(run.state.buckets, key), run.call.now)
  }

  predicate InRange(cfg: Config, b: Option<Bucket>) {
    b.Some? ==> 0 <= b.value.tokens <= cfg.Capacity()
  }

  lemma RefillStaysInRange(cfg: Config, b: Bucket, now: int)
    requires InRange(cfg, Some(b))
    ensures b.tokens <= Refilled(cfg, b, now) <= cfg.Capacity()
  {
    if now > b.last {
      TimesGrows(cfg.requests, 0, now - b.last);
    }
  }

  lemma {:induction false} TokensStayInRange(cfg: Config, run: Run, key: string)
    requires cfg.Valid() && IsServed(cfg, run)
    ensures InRange(cfg, Get(run.Last().buckets, key))
  {
    CapacityCoversOne(cfg);
    if run.Then? {
      var s, c := run.before.Last(), run.call;
      TokensStayInRange(cfg, run.before, key);
      if key == c.key {
        RefillStaysInRange(cfg, Held(cfg, Get(Prepared(cfg, s, c.now), key), c.now), c.now);
      }
    }
  }

  /** Time moving from `was` to `now` adds at most the refill of a forward movement. */
  lemma WorthMoves(cfg: Config, b: Option<Bucket>, was: int, now: int)
    requires cfg.Valid() && InRange(cfg, b)
    ensures Worth(cfg, b, now) <= Worth(cfg, b, was) + Times(cfg.requests, if now > was then now - was else 0)
  {
    TimesGrows(cfg.requests, 0, if now > was then now - was else 0);
    if b.Some? {
      RefillStaysInRange(cfg, b.value, was);
      RefillStaysInRange(cfg, b.value, now);
      if now > was && now > b.value.last {
        if was > b.value.last {
          TimesAdds(cfg.requests, now - was, was - b.value.last);
        } else {
          TimesGrows(cfg.requests, now - b.value.last, now - was);
        }
      } else if now > b.value.last {
        TimesGrows(cfg.requests, now - b.value.last, was - b.value.last);
      }
    }
  }

  /** Sweeping a bucket changes nothing about its worth. */
  lemma SweepKeepsWorth(cfg: Config, s: State, key: string, now: int)
    requires cfg.Valid() && cfg.SweepsFullBuckets() && InRange(cfg, Get(s.buckets, key))
    ensures Worth(cfg, Get(Prepared(cfg, s, now), key), now) == Worth(cfg, Get(s.buckets, key), now)
  {
    if key in s.buckets && key !in Prepared(cfg, s, now) {
      IdleBucketIsFull(cfg, s.buckets[key], now);
    }
  }

  /** One call takes its price from the worth of its own bucket and from no other. */
  lemma CallTakesItsPrice(cfg: Config, s: State, c: Call, key: string)
    requires cfg.Valid() && InRange(cfg, Get(s.buckets, key))
    ensures Worth(cfg, Get(Step(cfg, s, c).buckets, key), c.now) + (if c.key == key && Reply(cfg, s, c).Allowed? then cfg.window else 0) ==
            Worth(cfg, Get(Prepared(cfg, s, c.now), key), c.now)
  {
  }

  lemma {:induction false} WorthPays(cfg: Config, run: Run, base: Run, key: string)
    requires cfg.Valid() && cfg.SweepsFullBuckets() && IsServed(cfg, run) && Continues(run, base)
    ensures Times(AllowedSince(run, base, key), cfg.window) + WorthAfter(cfg, run, key) <=
            WorthAfter(cfg, base, key) + Times(cfg.requests, Forward(run, base))
  {
    if run == base {
      TimesIsProduct(cfg.requests, 0);
    } else {
      var before, c := run.before, run.call;
      var b := Get(before.Last().buckets, key);
      WorthPays(cfg, before, base, key);
      TokensStayInRange(cfg, before, key);
      CallTakesItsPrice(cfg, before.Last(), c, key);
      SweepKeepsWorth(cfg, before.Last(), key, c.now);
      if before.Then? {
        WorthMoves(cfg, b, before.call.now, c.now);
      } else {
        TimesIsProduct(cfg.requests, 0);
      }
      TimesAdds(cfg.requests, Forward(before, base), if Moved(run) > 0 then Moved(run) else 0);
    }
  }

  /** With clock readings in any order, the calls allowed on a key since any moment of a run exceed
      the bound of an ordered run by at most the refill of the clock's backward movements. */
  lemma BackwardClockBound(cfg: Config, run: Run, base: Run, key: string)
    requires cfg.Valid() && cfg.SweepsFullBuckets() && IsServed(cfg, run) && Continues(run, base) && base.Then?
    ensures run.Then?
    ensures Times(AllowedSince(run, base, key), cfg.window) <=
            cfg.Capacity() + Times(cfg.requests, run.call.now - base.call.now + Backward(run, base))
  {
    MovementIsNet(run, base);
    WorthPays(cfg, run, base, key);
    BaseIsServed(cfg, run, base);
    TokensStayInRange(cfg, base, key);
    TokensStayInRange(cfg, run, key);
    if key in base.state.buckets {
      RefillStaysInRange(cfg, base.state.buckets[key], base.call.now);
    }
    if key in run.state.buckets {
      RefillStaysInRange(cfg, run.state.buckets[key], run.call.now);
    }
    CapacityCoversOne(cfg);
  }

  lemma {:induction false} BaseIsServed(cfg: Config, run: Run, base: Run)
    requires cfg.Valid() && IsServed(cfg, run) && Continues(run, base)
    ensures IsServed(cfg, base)
  {
    if run != base {
      BaseIsServed(cfg, run.before, base);
    }
  }

  // --------------------------------------------------------------- the wait --

  /** What the key of a call lacks for one token, in scaled units. */
  function Lack(cfg: Config, s: State, c: Call): int {
    cfg.window - Refilled(cfg, Held(cfg, Get(Prepared(cfg, s, c.now), c.key), c.now), c.now)
  }

  /** A bucket at `now` that lacked `deficit` at `since` and has only been refused: still
      filling, or swept after so long that it would have filled. */
  ghost predicate Filling(cfg: Config, buckets: map<string, Bucket>, key: string, since: int, deficit: int, now: int) {
    if key in buckets then
      && since <= buckets[key].last <= now
      && buckets[key].tokens == cfg.window - deficit + Times(cfg.requests, buckets[key].last - since)
      && buckets[key].tokens < cfg.window
    else now - since > 2 * cfg.window
  }

  lemma RefusalStartsFilling(cfg: Config, s: State, c: Call)
    requires cfg.Valid() && Reply(cfg, s, c).Refused?
    ensures Filling(cfg, Step(cfg, s, c).buckets, c.key, c.now, Lack(cfg, s, c), c.now)
  {
    TimesIsProduct(cfg.requests, 0);
  }

  lemma FillingStep(cfg: Config, s: State, key: string, since: int, deficit: int, now: int, c: Call)
    requires cfg.Valid() && since <= now <= c.now
    requires Filling(cfg, s.buckets, key, since, deficit, now)
    requires c.key == key ==> Reply(cfg, s, c).Refused?
    ensures Filling(cfg, Step(cfg, s, c).buckets, key, since, deficit, c.now)
  {
    CapacityCoversOne(cfg);
    if c.key == key && key in Prepared(cfg, s, c.now) {
      var b := s.buckets[key];
      TimesAdds(cfg.requests, c.now - b.last, b.last - since);
      TimesIsProduct(cfg.requests, 0);
    }
  }

  lemma FillingAnswer(cfg: Config, s: State, since: int, deficit: int, now: int, c: Call)
    requires cfg.Valid() && since <= now <= c.now && deficit <= cfg.window
    requires Filling(cfg, s.buckets, c.key, since, deficit, now)
    ensures Reply(cfg, s, c).Allowed? <==> Times(cfg.requests, c.now - since) >= deficit
  {
    CapacityCoversOne(cfg);
    if c.key in Prepared(cfg, s, c.now) {
      var b := s.buckets[c.key];
      TimesAdds(cfg.requests, c.now - b.last, b.last - since);
      TimesIsProduct(cfg.requests, 0);
    } else {
      TimesGrows(cfg.requests, 0, c.now - since);
    }
  }

  /** `run` continues `refused` with any calls of other keys and only refused calls of this one. */
  predicate RefusedSince(refused: Run, run: Run, key: string) {
    run == refused ||
    (run.Then? && RefusedSince(refused, run.before, key) && (run.call.key == key ==> run.answer.Refused?))
  }

  lemma {:induction false} RefusedBucketFills(cfg: Config, refused: Run, run: Run)
    requires cfg.Valid() && IsRun(cfg, run) && refused.Then? && refused.answer.Refused?
    requires RefusedSince(refused, run, refused.call.key)
    ensures IsRun(cfg, refused) && run.Then? && refused.call.now <= run.call.now
    ensures Filling(cfg, run.state.buckets, refused.call.key, refused.call.now,
                    Lack(cfg, refused.before.Last(), refused.call), run.call.now)
    decreases run
  {
    var c, s := refused.call, refused.before.Last();
    if run == refused {
      RefusalStartsFilling(cfg, s, c);
    } else {
      RefusedBucketFills(cfg, refused, run.before);
      FillingStep(cfg, run.before.Last(), c.key, c.now, Lack(cfg, s, c), run.before.call.now, run.call);
    }
  }

  lemma LackInRange(cfg: Config, run: Run, c: Call)
    requires cfg.Valid() && IsRun(cfg, run)
    ensures Lack(cfg, run.Last(), c) <= cfg.window
  {
    var s := run.Last();
    CapacityCoversOne(cfg);
    if c.key in s.buckets {
      RunIsServed(cfg, run);
      TokensStayInRange(cfg, run, c.key);
      if c.now > s.buckets[c.key].last {
        TimesGrows(cfg.requests, 0, c.now - s.buckets[c.key].last);
      }
    }
  }

  lemma WaitArithmetic(requests: nat, deficit: int, elapsed: int)
    requires requests >= 1 && deficit >= 0
    ensures elapsed < Quotient(deficit, requests) ==> Times(requests, elapsed) < deficit
    ensures elapsed > Quotient(deficit, requests) ==> Times(requests, elapsed) >= deficit
  {
    var wait: int := Quotient(deficit, requests);
    QuotientBrackets(deficit, requests);
    if elapsed < wait {
      TimesGrows(requests, elapsed, wait - 1);
      TimesAdds(requests, wait - 1, 1);
      TimesGrows(requests, 1, 1);
    } else if elapsed > wait {
      TimesGrows(requests, wait + 1, elapsed);
    }
  }

  lemma WaitIsQuotient(cfg: Config, s: State, c: Call)
    requires cfg.Valid() && Reply(cfg, s, c).Refused?
    ensures Lack(cfg, s, c) > 0 && Reply(cfg, s, c).wait == Quotient(Lack(cfg, s, c), cfg.requests)
  {
  }

  /** After a refusal, and with no allowed call on the key in between, a later call on the key is
      allowed exactly when the missing tokens have arrived, whatever other calls, refused polls
      and sweeps happened. */
  lemma RetryIsExact(cfg: Config, refused: Run, run: Run, retry: int)
    requires cfg.Valid() && IsRun(cfg, run) && run.Until(retry)
    requires refused.Then? && refused.answer.Refused? && RefusedSince(refused, run, refused.call.key)
    ensures Reply(cfg, run.Last(), Call(refused.call.key, retry)).Allowed? <==>
            Times(cfg.requests, retry - refused.call.now) >= Lack(cfg, refused.before.Last(), refused.call)
  {
    RefusedBucketFills(cfg, refused, run);
    LackInRange(cfg, refused.before, refused.call);
    FillingAnswer(cfg, run.state, refused.call.now, Lack(cfg, refused.before.Last(), refused.call), run.call.now,
                  Call(refused.call.key, retry));
  }

  /** So the reported wait is tight: refused before it is over, allowed as soon as a nanosecond
      past it. */
  lemma WaitIsTight(cfg: Config, refused: Run, run: Run, retry: int)
    requires cfg.Valid() && IsRun(cfg, run) && run.Until(retry)
    requires refused.Then? && refused.answer.Refused? && RefusedSince(refused, run, refused.call.key)
    ensures retry < refused.call.now + refused.answer.wait ==>
              Reply(cfg, run.Last(), Call(refused.call.key, retry)).Refused?
    ensures retry > refused.call.now + refused.answer.wait ==>
              Reply(cfg, run.Last(), Call(refused.call.key, retry)).Allowed?
  {
    RefusedBucketFills(cfg, refused, run);
    WaitIsQuotient(cfg, refused.before.Last(), refused.call);
    RetryIsExact(cfg, refused, run, retry);
    WaitArithmetic(cfg.requests, Lack(cfg, refused.before.Last(), refused.call), retry - refused.call.now);
  }

  // ------------------------------------------------------------- Retry-After --

  const Second: int := 1_000_000_000

  /** Whole seconds, rounded up, at least one. */
  function RetryAfter(wait: int): int {
    var seconds := (wait + Second - 1) / Second;
    if seconds < 1 then 1 else seconds
  }

  /** A client that comes back exactly when Retry-After says is allowed, except in one family:
      the truncated wait is a whole number of seconds and truncation lost a fraction. */
  lemma RetryAfterIsHonoured(cfg: Config, refused: Run, run: Run, retry: int)
    requires cfg.Valid() && IsRun(cfg, run) && run.Until(retry)
    requires refused.Then? && refused.answer.Refused? && RefusedSince(refused, run, refused.call.key)
    requires retry == refused.call.now + RetryAfter(refused.answer.wait) * Second
    ensures var wait := refused.answer.wait;
            Reply(cfg, run.Last(), Call(refused.call.key, retry)).Refused? <==>
            wait > 0 && wait % Second == 0 &&
            Times(cfg.requests, wait) < Lack(cfg, refused.before.Last(), refused.call)
  {
    RefusedBucketFills(cfg, refused, run);
    WaitIsQuotient(cfg, refused.before.Last(), refused.call);
    RetryArithmetic(refused.answer.wait);
    if retry == refused.call.now + refused.answer.wait {
      RetryIsExact(cfg, refused, run, retry);
    } else {
      WaitIsTight(cfg, refused, run, retry);
    }
  }

  lemma RetryArithmetic(wait: int)
    requires wait >= 0
    ensures RetryAfter(wait) * Second >= wait
    ensures RetryAfter(wait) * Second == wait <==> wait > 0 && wait % Second == 0
  {
  }

  /** That family is inhabited: with 7 requests per 10 seconds and a burst of one, the second call
      is told to come back in one second, and is refused again when it does. */
  lemma RetryAfterCanFail()
    ensures
      var cfg := Config(7, 10 * Second, 1);
      var first := Serve(cfg, Start, Call("a", 0));
      var refused := Serve(cfg, first, Call("a", 428_571_428));
      && IsRun(cfg, refused) && first.answer == Allowed && refused.answer == Refused(Second)
      && Reply(cfg, refused.Last(), Call("a", 428_571_428 + RetryAfter(Second) * Second)).Refused?
  {
    var cfg := Config(7, 10 * Second, 1);
    TimesIsProduct(1, 10 * Second);
    TimesIsProduct(7, 428_571_428);
    TimesIsProduct(7, Second);
    var first := Serve(cfg, Start, Call("a", 0));
    assert first.answer == Allowed && Get(first.state.buckets, "a") == Some(Bucket(0, 0));
    var refused := Serve(cfg, first, Call("a", 428_571_428));
    assert Get(refused.state.buckets, "a") == Some(Bucket(2_999_999_996, 428_571_428));
    QuotientIsDivision(7_000_000_004, 7);
    assert refused.answer == Refused(Second);
  }
}
