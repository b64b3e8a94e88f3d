/** brsapi/rate_limiter.py, one lock section at a time.

    The state is first given as a value with one function per section; those functions are what
    the protocol in AdmissionProtocol interleaves. The classes below update the same state in
    place and are proved against the functions.  Clocks are parameters: `now` is the monotonic
    clock, `today` the Tehran calendar day, `toMidnight` the seconds left of that day. */
module RateLimiting {
  import opened Prelude
  import opened Windows

  const FIVE_MINUTES: real := 300.0
  const MAX_SLEEP: real := 10.0
  const DEFAULT_REQUESTS_PER_MINUTE: int := 30

  function Min(a: real, b: real): real { if b < a then b else a }

  function Max(a: real, b: real): real { if b > a then b else a }

  /** A token bucket; its refill rate is always its capacity per minute. */
  datatype BucketState = BucketState(maxTokens: real, tokens: real, lastRefill: real) {
    function Rate(): real { maxTokens / 60.0 }

    function Level(now: real): real {
      Min(maxTokens, tokens + (now - lastRefill) * Rate())
    }

    function Refill(now: real): BucketState {
      this.(tokens := Level(now), lastRefill := now)
    }
  }

  function FreshBucket(requestsPerMinute: int, now: real): BucketState {
    BucketState(requestsPerMinute as real, requestsPerMinute as real, now)
  }

  /** What a global check decides: go on, sleep and look again, or raise. */
  datatype Verdict = Pass | Sleep(seconds: real) | Exhausted | IndexFault

  datatype LimiterState = LimiterState(
    dailyLimit: int, fiveMinLimit: int,
    dailyCount: int, dailyDate: Option<int>,
    window: seq<real>, buckets: map<string, BucketState>)
  {
    function ResetDaily(today: int): LimiterState {
      if dailyDate == Some(today) then this else this.(dailyCount := 0, dailyDate := Some(today))
    }

    function Prune(now: real): LimiterState {
      this.(window := NewerThan(window, now - FIVE_MINUTES))
    }

    /** The wait for the global limits, on an already pruned window.  A limit of zero or less
        makes the code index an empty deque. */
    function WaitTime(now: real, toMidnight: real): Verdict {
      if dailyCount >= dailyLimit then Sleep(Max(toMidnight, 1.0))
      else if |window| >= fiveMinLimit then
        if window == [] then IndexFault
        else if window[0] + FIVE_MINUTES - now > 0.0 then Sleep(window[0] + FIVE_MINUTES - now)
        else Pass
      else Pass
    }

    function RecordRequest(now: real, today: int): LimiterState {
      var reset := ResetDaily(today);
      reset.(dailyCount := reset.dailyCount + 1, window := reset.window + [now])
    }

    function Configure(key: string, requestsPerMinute: int, now: real): LimiterState {
      var limit := requestsPerMinute as real;
      this.(buckets := buckets[key :=
        if key in buckets then buckets[key].Refill(now).(maxTokens := limit)
        else FreshBucket(requestsPerMinute, now)])
    }

    /** The section that checks the daily cap and the five-minute window. */
    function CheckGlobals(now: real, today: int, toMidnight: real, failFast: bool): (LimiterState, Verdict) {
      var reset := ResetDaily(today);
      if failFast && reset.dailyCount >= dailyLimit then (reset, Exhausted)
      else var pruned := reset.Prune(now); (pruned, pruned.WaitTime(now, toMidnight))
    }

    function EnsureBucket(key: string, now: real): (l: LimiterState)
      ensures key in l.buckets
    {
      if key in buckets then this else Configure(key, DEFAULT_REQUESTS_PER_MINUTE, now)
    }

    function WithBucket(key: string, b: BucketState): LimiterState {
      this.(buckets := buckets[key := b])
    }

    /** The bucket section: None when the request was granted and recorded, otherwise the
        seconds to sleep until the deficit is refilled. */
    function TakeTokens(key: string, n: nat, now: real, today: int): (LimiterState, Option<real>) {
      var ready := EnsureBucket(key, now);
      var b := ready.buckets[key].Refill(now);
      if b.maxTokens <= 0.0 then (ready.WithBucket(key, b).RecordRequest(now, today), None)
      else if b.tokens >= n as real then
        (ready.WithBucket(key, b.(tokens := b.tokens - n as real)).RecordRequest(now, today), None)
      else (ready.WithBucket(key, b), Some((n as real - b.tokens) / b.Rate()))
    }

    /** Its part from where the bucket is there and refilled. */
    function Pay(key: string, n: nat, now: real, today: int): (LimiterState, Option<real>)
      requires key in buckets
    {
      var b := buckets[key];
      if b.maxTokens <= 0.0 then (RecordRequest(now, today), None)
      else if b.tokens >= n as real then
        (WithBucket(key, b.(tokens := b.tokens - n as real)).RecordRequest(now, today), None)
      else (this, Some((n as real - b.tokens) / b.Rate()))
    }

    /** The last section, after the sleep and the second check: spends what is there. */
    function ConsumeTokens(key: string, n: nat, now: real, today: int): LimiterState {
      var spent :=
        if key in buckets then
          var b := buckets[key].Refill(now);
          WithBucket(key, b.(tokens := Max(0.0, b.tokens - n as real)))
        else this;
      spent.RecordRequest(now, today)
    }

    /** What status() does to the counters before it reports them. */
    function Observe(now: real, today: int): LimiterState {
      ResetDaily(today).Prune(now)
    }
  }

  function InitialLimiter(dailyLimit: int, fiveMinLimit: int): LimiterState {
    LimiterState(dailyLimit, fiveMinLimit, 0, None, [], map[])
  }

  /** Because the prune drops a stamp exactly five minutes old, a window that is still full
      after it always gives a positive wait: Pass means both limits have room. */
  lemma PassMeansRoom(l: LimiterState, now: real, today: int, toMidnight: real, failFast: bool)
    ensures var (m, verdict) := l.CheckGlobals(now, today, toMidnight, failFast);
            var usedUp := l.ResetDaily(today).dailyCount >= l.dailyLimit;
            var kept := NewerThan(l.window, now - FIVE_MINUTES);
            && (verdict.Pass? <==> !usedUp && |kept| < l.fiveMinLimit)
            && (verdict.Exhausted? <==> usedUp && failFast)
            && (verdict.IndexFault? <==> !usedUp && l.fiveMinLimit <= 0 && kept == [])
            && (verdict.Sleep? ==> verdict.seconds > 0.0)
            && (verdict.Sleep? && usedUp ==> verdict.seconds == Max(toMidnight, 1.0))
            && (verdict.Sleep? && !usedUp ==> kept != [] && verdict.seconds == kept[0] + FIVE_MINUTES - now)
            && m == if verdict.Exhausted? then l.ResetDaily(today) else l.ResetDaily(today).Prune(now)
  {
    NewerThanIsSuffix(l.window, now - FIVE_MINUTES);
  }

  /** The counters after the bucket section: recorded if it granted, untouched if not. */
  lemma TakeCounters(lim: LimiterState, key: string, n: nat, now: real, today: int)
    ensures var (after, wait) := lim.TakeTokens(key, n, now, today);
            && after.dailyLimit == lim.dailyLimit && after.fiveMinLimit == lim.fiveMinLimit
            && if wait.Some? then
                 after.dailyCount == lim.dailyCount && after.dailyDate == lim.dailyDate && after.window == lim.window
               else
                 && after.dailyCount == lim.ResetDaily(today).dailyCount + 1 && after.dailyDate == Some(today)
                 && after.window == lim.window + [now]
  {
  }

  /** The last section always records. */
  lemma ConsumeCounters(lim: LimiterState, key: string, n: nat, now: real, today: int)
    ensures var after := lim.ConsumeTokens(key, n, now, today);
            && after.dailyLimit == lim.dailyLimit && after.fiveMinLimit == lim.fiveMinLimit
            && after.dailyCount == lim.ResetDaily(today).dailyCount + 1 && after.dailyDate == Some(today)
            && after.window == lim.window + [now]
  {
  }

  lemma WithBucketTwice(l: LimiterState, key: string, b: BucketState, c: BucketState)
    ensures l.WithBucket(key, b).WithBucket(key, c) == l.WithBucket(key, c)
  {
    assert l.buckets[key := b][key := c] == l.buckets[key := c];
  }

  /** The bucket section pays from its bucket, created if missing and refilled. */
  lemma TakeWhenReady(lim: LimiterState, key: string, n: nat, now: real, today: int)
    ensures var ready := lim.EnsureBucket(key, now);
            lim.TakeTokens(key, n, now, today)
            == ready.WithBucket(key, ready.buckets[key].Refill(now)).Pay(key, n, now, today)
  {
    var ready := lim.EnsureBucket(key, now);
    var b := ready.buckets[key].Refill(now);
    WithBucketTwice(ready, key, b, b.(tokens := b.tokens - n as real));
  }

  /** The last section from where its bucket is refilled. */
  lemma ConsumeWhenReady(lim: LimiterState, key: string, n: nat, now: real, today: int)
    requires key in lim.buckets
    ensures var b := lim.buckets[key].Refill(now);
            lim.ConsumeTokens(key, n, now, today)
            == lim.WithBucket(key, b).WithBucket(key, b.(tokens := Max(0.0, b.tokens - n as real)))
               .RecordRequest(now, today)
  {
    var b := lim.buckets[key].Refill(now);
    WithBucketTwice(lim, key, b, b.(tokens := Max(0.0, b.tokens - n as real)));
  }

  // ---- The sections field by field ----

  /** The level is the tokens left plus a sixtieth of the capacity for every second since, and never
      above the capacity; refilling stores it with the time. */
  lemma RefillPerMinute(b: BucketState, now: real)
    ensures var grown := b.tokens + (now - b.lastRefill) * (b.maxTokens / 60.0);
            && b.Level(now) == (if grown < b.maxTokens then grown else b.maxTokens)
            && b.Refill(now).tokens == b.Level(now)
            && b.Refill(now).maxTokens == b.maxTokens && b.Refill(now).lastRefill == now
  {
  }

  /** A check enters the day and, unless it rejects, drops the stamps that are five minutes old from
      the front; nothing else of the limiter changes.  The verdict follows what is then there. */
  lemma CheckSection(l: LimiterState, now: real, today: int, toMidnight: real, failFast: bool)
    ensures var (m, verdict) := l.CheckGlobals(now, today, toMidnight, failFast);
            var count := if l.dailyDate == Some(today) then l.dailyCount else 0;
            var dropped := |l.window| - |m.window|;
            && m == l.(dailyDate := Some(today), dailyCount := count, window := m.window)
            && dropped >= 0 && m.window == l.window[dropped..]
            && (verdict.Exhausted? <==> failFast && count >= l.dailyLimit)
            && (verdict.Exhausted? ==> dropped == 0)
            && (!verdict.Exhausted? ==> (forall i :: 0 <= i < dropped ==> l.window[i] <= now - 300.0)
                                        && (m.window != [] ==> m.window[0] > now - 300.0))
            && (verdict.Pass? <==> count < l.dailyLimit && |m.window| < l.fiveMinLimit)
            && (count >= l.dailyLimit && !failFast ==> verdict == Sleep(if toMidnight < 1.0 then 1.0 else toMidnight))
            && (count < l.dailyLimit && |m.window| >= l.fiveMinLimit ==>
                  verdict == if m.window == [] then IndexFault else Sleep(m.window[0] + 300.0 - now))
  {
    NewerThanIsSuffix(l.window, now - FIVE_MINUTES);
  }

  /** The bucket section: a missing category starts full at 30 a minute; an unlimited one is granted
      uncharged; a limited one is charged if its level covers the request, or else the wait is the
      time the rest takes to flow in.  Other buckets stay, and only a grant is counted and stamped. */
  lemma TakeSection(l: LimiterState, key: string, n: nat, now: real, today: int)
    ensures var (m, wait) := l.TakeTokens(key, n, now, today);
            var capacity := if key in l.buckets then l.buckets[key].maxTokens else 30.0;
            var level := if key in l.buckets then l.buckets[key].Level(now) else 30.0;
            var count := if l.dailyDate == Some(today) then l.dailyCount else 0;
            && (wait.None? <==> capacity <= 0.0 || level >= n as real)
            && (wait.Some? ==> wait.value == (n as real - level) / (capacity / 60.0))
            && m.buckets == l.buckets[key := BucketState(
                 capacity, if wait.None? && capacity > 0.0 then level - n as real else level, now)]
            && m.dailyLimit == l.dailyLimit && m.fiveMinLimit == l.fiveMinLimit
            && m.window == (if wait.None? then l.window + [now] else l.window)
            && m.dailyCount == (if wait.None? then count + 1 else l.dailyCount)
            && m.dailyDate == if wait.None? then Some(today) else l.dailyDate
  {
    if key !in l.buckets {
      FreshIsFull(DEFAULT_REQUESTS_PER_MINUTE, now);
    }
    TakeWhenReady(l, key, n, now, today);
  }

  lemma FreshIsFull(requestsPerMinute: int, now: real)
    requires requestsPerMinute >= 0
    ensures FreshBucket(requestsPerMinute, now).Level(now) == requestsPerMinute as real
    ensures FreshBucket(requestsPerMinute, now).Refill(now) == FreshBucket(requestsPerMinute, now)
  {
    var b := FreshBucket(requestsPerMinute, now);
    assert (now - b.lastRefill) * b.Rate() == 0.0;
  }

  /** The last section: the level less the request, but not below zero, in a bucket that is there;
      always counted and stamped. */
  lemma ConsumeSection(l: LimiterState, key: string, n: nat, now: real, today: int)
    ensures var m := l.ConsumeTokens(key, n, now, today);
            var count := if l.dailyDate == Some(today) then l.dailyCount else 0;
            && m == l.(dailyDate := Some(today), dailyCount := count + 1, window := l.window + [now],
                       buckets := m.buckets)
            && (key !in l.buckets ==> m.buckets == l.buckets)
            && (key in l.buckets ==>
                  var level := l.buckets[key].Level(now);
                  m.buckets == l.buckets[key := BucketState(
                    l.buckets[key].maxTokens, if level > n as real then level - n as real else 0.0, now)])
  {
  }

  /** A bucket that is there keeps the level it has under its old limit; a new one is full; the rate
      is the new limit a minute, and nothing else changes. */
  lemma ConfigureSection(l: LimiterState, key: string, requestsPerMinute: int, now: real)
    ensures var m := l.Configure(key, requestsPerMinute, now);
            var limit := requestsPerMinute as real;
            && m == l.(buckets := m.buckets)
            && m.buckets == l.buckets[key := BucketState(
                 limit, if key in l.buckets then l.buckets[key].Level(now) else limit, now)]
            && m.buckets[key].Rate() * 60.0 == limit
  {
  }

  /** status() reports the day's count, or nothing on a new day, and drops the old stamps only. */
  lemma ObserveSection(l: LimiterState, now: real, today: int)
    ensures var m := l.Observe(now, today);
            var dropped := |l.window| - |m.window|;
            && m == l.(dailyDate := Some(today), window := m.window,
                       dailyCount := if l.dailyDate == Some(today) then l.dailyCount else 0)
            && dropped >= 0 && m.window == l.window[dropped..]
            && (forall i :: 0 <= i < dropped ==> l.window[i] <= now - 300.0)
            && (m.window != [] ==> m.window[0] > now - 300.0)
  {
    NewerThanIsSuffix(l.window, now - FIVE_MINUTES);
  }

  /** The dataclass Bucket. */
  class Bucket {
    var maxTokens: real
    var refillRate: real
    var tokens: real
    var lastRefill: real

    ghost predicate Valid() reads this { refillRate == maxTokens / 60.0 }

    ghost function View(): BucketState reads this { BucketState(maxTokens, tokens, lastRefill) }

    constructor (requestsPerMinute: int, now: real)
      ensures Valid() && View() == FreshBucket(requestsPerMinute, now)
    {
      maxTokens, tokens := requestsPerMinute as real, requestsPerMinute as real;
      refillRate, lastRefill := requestsPerMinute as real / 60.0, now;
    }

    method Refill(now: real)
      requires Valid()
      modifies this
      ensures Valid() && View() == old(View()).Refill(now)
    {
      var elapsed := now - lastRefill;
      tokens := Min(maxTokens, tokens + elapsed * refillRate);
      lastRefill := now;
    }

    /** What configure does to a bucket that is there: refilled under its old limit first. */
    method SetLimit(requestsPerMinute: int, now: real)
      requires Valid()
      modifies this
      ensures Valid() && View() == old(View()).Refill(now).(maxTokens := requestsPerMinute as real)
    {
      Refill(now);
      maxTokens := requestsPerMinute as real;
      refillRate := requestsPerMinute as real / 60.0;
    }
  }

  /** The limiter object; its buckets are pairwise distinct objects. */
  class RateLimiter {
    const dailyLimit: int
    const fiveMinLimit: int
    var dailyCount: int
    var dailyDate: Option<int>
    var window: seq<real>
    var buckets: map<string, Bucket>

    ghost predicate Valid()
      reads this, buckets.Values
    {
      && (forall k :: k in buckets ==> buckets[k].Valid())
      && (forall j, k :: j in buckets && k in buckets && j != k ==> buckets[j] != buckets[k])
    }

    ghost function View(): LimiterState
      reads this, buckets.Values
    {
      LimiterState(dailyLimit, fiveMinLimit, dailyCount, dailyDate, window,
                   map k | k in buckets :: buckets[k].View())
    }

    constructor (dailyLimit: int, fiveMinLimit: int)
      ensures Valid() && View() == InitialLimiter(dailyLimit, fiveMinLimit)
    {
      this.dailyLimit, this.fiveMinLimit := dailyLimit, fiveMinLimit;
      dailyCount, dailyDate, window, buckets := 0, None, [], map[];
    }

    method ResetDailyIfNeeded(today: int)
      requires Valid()
      modifies this`dailyCount, this`dailyDate
      ensures Valid() && View() == old(View()).ResetDaily(today)
    {
      if dailyDate != Some(today) {
        dailyCount, dailyDate := 0, Some(today);
      }
    }

    method PruneWindow(now: real)
      requires Valid()
      modifies this`window
      ensures Valid() && View() == old(View()).Prune(now)
    {
      var cutoff := now - FIVE_MINUTES;
      while window != [] && window[0] <= cutoff
        invariant NewerThan(window, cutoff) == old(NewerThan(window, cutoff))
        decreases |window|
      {
        window := window[1..];
      }
    }

    method RecordRequest(now: real, today: int)
      requires Valid()
      modifies this`dailyCount, this`dailyDate, this`window
      ensures Valid() && View() == old(View()).RecordRequest(now, today)
    {
      ResetDailyIfNeeded(today);
      dailyCount := dailyCount + 1;
      window := window + [now];
    }

    /** status(): the counters it reports are those of the day and window at the call. */
    method Status(now: real, today: int) returns (count: int, inWindow: nat)
      requires Valid()
      modifies this`dailyCount, this`dailyDate, this`window
      ensures Valid() && View() == old(View()).Observe(now, today)
      ensures count == dailyCount && inWindow == |window|
    {
      ResetDailyIfNeeded(today);
      PruneWindow(now);
      count, inWindow := dailyCount, |window|;
    }

    method Configure(key: string, requestsPerMinute: int, now: real)
      requires Valid()
      modifies this`buckets, buckets.Values
      ensures Valid() && fresh(buckets.Values - old(buckets.Values))
      ensures View() == old(View()).Configure(key, requestsPerMinute, now)
    {
      if key in buckets {
        Reconfigure(key, requestsPerMinute, now);
      } else {
        AddBucket(key, requestsPerMinute, now);
      }
    }

    method Reconfigure(key: string, requestsPerMinute: int, now: real)
      requires Valid() && key in buckets
      modifies buckets[key]
      ensures Valid() && View() == old(View()).Configure(key, requestsPerMinute, now)
    {
      buckets[key].SetLimit(requestsPerMinute, now);
      assert forall k :: k in buckets && k != key ==> buckets[k].View() == old(buckets[k].View());
      assert View().buckets == old(View()).Configure(key, requestsPerMinute, now).buckets;
    }

    method AddBucket(key: string, requestsPerMinute: int, now: real)
      requires Valid() && key !in buckets
      modifies this`buckets
      ensures Valid() && key in buckets && fresh(buckets[key]) && buckets == old(buckets)[key := buckets[key]]
      ensures View() == old(View()).Configure(key, requestsPerMinute, now)
    {
      var bucket := new Bucket(requestsPerMinute, now);
      buckets := buckets[key := bucket];
      assert View().buckets == old(View()).Configure(key, requestsPerMinute, now).buckets;
    }

    /** The bucket of the category, created with the default limit if missing, and refilled. */
    method ReadyBucket(key: string, now: real)
      requires Valid()
      modifies this`buckets, buckets.Values
      ensures Valid() && key in buckets && fresh(buckets.Values - old(buckets.Values))
      ensures var ready := old(View()).EnsureBucket(key, now);
              View() == ready.WithBucket(key, ready.buckets[key].Refill(now))
    {
      if key !in buckets {
        AddBucket(key, DEFAULT_REQUESTS_PER_MINUTE, now);
      }
      RefillBucket(key, now);
    }

    /** Lines 260-269 and, the same code again, 306-315. */
    method CheckGlobals(now: real, today: int, toMidnight: real, failFast: bool) returns (verdict: Verdict)
      requires Valid()
      modifies this`dailyCount, this`dailyDate, this`window
      ensures Valid() && (View(), verdict) == old(View()).CheckGlobals(now, today, toMidnight, failFast)
    {
      ResetDailyIfNeeded(today);
      if failFast && dailyCount >= dailyLimit {
        return Exhausted;
      }
      PruneWindow(now);
      if dailyCount >= dailyLimit {
        return Sleep(Max(toMidnight, 1.0));
      }
      if |window| >= fiveMinLimit {
        if window == [] {
          return IndexFault;
        }
        var wait := window[0] + FIVE_MINUTES - now;
        if wait > 0.0 {
          return Sleep(wait);
        }
      }
      return Pass;
    }

    /** Lines 274-293. */
    method TakeTokens(key: string, n: nat, now: real, today: int) returns (wait: Option<real>)
      requires Valid()
      modifies this, buckets.Values
      ensures Valid() && fresh(buckets.Values - old(buckets.Values))
      ensures (View(), wait) == old(View()).TakeTokens(key, n, now, today)
    {
      TakeWhenReady(View(), key, n, now, today);
      ReadyBucket(key, now);
      wait := PayOrWait(key, n, now, today);
    }

    /** Charges the refilled bucket and records the request, or says how long to wait. */
    method PayOrWait(key: string, n: nat, now: real, today: int) returns (wait: Option<real>)
      requires Valid() && key in buckets
      modifies this`dailyCount, this`dailyDate, this`window, buckets[key]
      ensures Valid() && (View(), wait) == old(View()).Pay(key, n, now, today)
    {
      var bucket := buckets[key];
      assert bucket.View() == View().buckets[key];
      if bucket.maxTokens <= 0.0 {
        RecordRequest(now, today);
        return None;
      }
      if bucket.tokens >= n as real {
        Charge(key, bucket.tokens - n as real, now, today);
        return None;
      }
      return Some((n as real - bucket.tokens) / bucket.refillRate);
    }

    /** Lines 318-324. */
    method ConsumeTokens(key: string, n: nat, now: real, today: int)
      requires Valid()
      modifies this`dailyCount, this`dailyDate, this`window, buckets.Values
      ensures Valid() && View() == old(View()).ConsumeTokens(key, n, now, today)
    {
      if key in buckets {
        ConsumeWhenReady(View(), key, n, now, today);
        RefillBucket(key, now);
        assert buckets[key].View() == View().buckets[key];
        Charge(key, Max(0.0, buckets[key].tokens - n as real), now, today);
      } else {
        RecordRequest(now, today);
      }
    }

    /** Leaves `tokens` in the bucket and records the request. */
    method Charge(key: string, tokens: real, now: real, today: int)
      requires Valid() && key in buckets
      modifies this`dailyCount, this`dailyDate, this`window, buckets[key]
      ensures Valid() && View() == old(View())
        .WithBucket(key, old(View()).buckets[key].(tokens := tokens)).RecordRequest(now, today)
    {
      SetTokens(key, tokens);
      RecordRequest(now, today);
    }

    method RefillBucket(key: string, now: real)
      requires Valid() && key in buckets
      modifies buckets[key]
      ensures Valid() && View() == old(View()).WithBucket(key, old(View()).buckets[key].Refill(now))
    {
      buckets[key].Refill(now);
      assert View().buckets == old(View().WithBucket(key, View().buckets[key].Refill(now))).buckets;
    }

    method SetTokens(key: string, tokens: real)
      requires Valid() && key in buckets
      modifies buckets[key]
      ensures Valid() && View() == old(View()).WithBucket(key, old(View()).buckets[key].(tokens := tokens))
    {
      buckets[key].tokens := tokens;
      assert View().buckets == old(View().WithBucket(key, View().buckets[key].(tokens := tokens))).buckets;
    }
  }
}
