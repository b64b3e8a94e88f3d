/** Exactly when acquires of one category stay within the token-bucket bound: with nothing to ask
    for, or one task whose requests fit the bucket.

    Two tasks that sleep for the same deficit both spend the refill; and a request larger than the
    bucket sleeps for a deficit the capacity cuts off, and is then let through. */
module DebtWitness {
  import opened Prelude
  import opened Windows
  import opened RateLimiting
  import opened AdmissionProtocol
  import opened TokenBuckets

  /** N idle tasks, nothing granted yet, and a category of m tokens a minute. */
  ghost predicate Starts(s: State, key: string, tasks: nat, m: nat) {
    Initial(s) && |s.tasks| == tasks && Sound(s, key) && BucketAt(s, key).maxTokens == m as real
  }

  /** From s, a run a and then a stretch b of at most n tokens a request breaks the bound. */
  ghost predicate Breaks(s: State, key: string, n: nat) {
    exists a, b ::
      && Legal(s, a) && Fits(a, key, n) && Legal(Run(s, a), b) && Fits(b, key, n)
      && !GrantedWithin(Run(s, a), Run(Run(s, a), b), key, 0.0)
  }

  /** Every stretch of every run stays within capacity plus refill. */
  ghost predicate BoundHolds(key: string, tasks: nat, m: nat, n: nat) {
    forall s :: Starts(s, key, tasks, m) ==> !Breaks(s, key, n)
  }

  /** With N tasks, a capacity of m and requests of at most n tokens. */
  lemma BoundHoldsIff(key: string, tasks: nat, m: nat, n: nat)
    requires m >= 1
    ensures BoundHolds(key, tasks, m, n) <==> tasks == 0 || n == 0 || (tasks == 1 && n <= m)
  {
    var s := Start(key, tasks, m);
    if tasks == 0 || n == 0 {
      forall s | Starts(s, key, tasks, m) ensures !Breaks(s, key, n) {
        NothingSpentNothingBroken(s, key, n);
      }
    } else if tasks == 1 && n <= m {
      forall s | Starts(s, key, tasks, m) ensures !Breaks(s, key, n) {
        LoneTaskKeepsBound(s, key, n);
      }
    } else {
      StartStarts(key, tasks, m);
      if tasks >= 2 {
        OverlapForgivesDebt(key, tasks, m, n);
      } else {
        OversizeOutgrowsBucket(key, tasks, m, n);
      }
    }
  }

  // ---- Within the bound ----

  /** Nobody asks for any token of the category, or nobody asks at all. */
  ghost predicate Silent(s: State, key: string, n: nat) {
    && (s.tasks == [] || n == 0)
    && (forall i :: 0 <= i < |s.tasks| && !s.tasks[i].Idle? && s.tasks[i].r.key == key ==> s.tasks[i].r.tokens == 0)
    && (forall g :: g in s.log && g.key == key ==> g.tokens == 0)
  }

  lemma SilentStep(s: State, key: string, n: nat, l: Label)
    requires Silent(s, key, n) && Enabled(s, l) && FitsOne(l, key, n)
    ensures Silent(Next(s, l), key, n)
  {
  }

  lemma {:induction false} SilentRun(s: State, key: string, n: nat, ls: seq<Label>)
    requires Silent(s, key, n) && Sound(s, key) && Legal(s, ls) && Fits(ls, key, n)
    ensures Silent(Run(s, ls), key, n) && Sound(Run(s, ls), key)
    decreases |ls|
  {
    if ls != [] {
      assert FitsOne(ls[0], key, n);
      SilentStep(s, key, n, ls[0]);
      StepBalances(s, key, ls[0]);
      SilentRun(Next(s, ls[0]), key, n, ls[1..]);
    }
  }

  lemma {:induction false} NothingSpent(log: seq<Grant>, key: string)
    requires forall g :: g in log && g.key == key ==> g.tokens == 0
    ensures Spent(log, key) == 0.0
  {
    if log != [] {
      NothingSpent(log[..|log| - 1], key);
    }
  }

  lemma NothingSpentNothingBroken(s: State, key: string, n: nat)
    requires Initial(s) && Sound(s, key) && (s.tasks == [] || n == 0)
    ensures !Breaks(s, key, n)
  {
    forall a, b | Legal(s, a) && Fits(a, key, n) && Legal(Run(s, a), b) && Fits(b, key, n)
      ensures GrantedWithin(Run(s, a), Run(Run(s, a), b), key, 0.0)
    {
      SilentRun(s, key, n, a);
      SilentStretch(Run(s, a), key, n, b);
    }
  }

  lemma SilentStretch(s: State, key: string, n: nat, ls: seq<Label>)
    requires Silent(s, key, n) && Sound(s, key) && Legal(s, ls) && Fits(ls, key, n)
    ensures GrantedWithin(s, Run(s, ls), key, 0.0)
  {
    SilentRun(s, key, n, ls);
    NothingSpent(s.log, key);
    NothingSpent(Run(s, ls).log, key);
    TimePasses(s, ls);
    NothingGrantedIsWithin(s, Run(s, ls), key);
  }

  lemma {:induction false} TimePasses(s: State, ls: seq<Label>)
    requires Legal(s, ls)
    ensures s.now <= Run(s, ls).now
    decreases |ls|
  {
    if ls != [] {
      TimePasses(Next(s, ls[0]), ls[1..]);
    }
  }

  lemma NothingGrantedIsWithin(s: State, t: State, key: string)
    requires Spent(s.log, key) == Spent(t.log, key) && s.now <= t.now && BucketAt(s, key).maxTokens > 0.0
    ensures GrantedWithin(s, t, key, 0.0)
  {
    RefillIsNonNegative(t.now - s.now, BucketAt(s, key));
  }

  lemma RefillIsNonNegative(seconds: real, b: BucketState)
    requires seconds >= 0.0 && b.maxTokens > 0.0
    ensures seconds * b.Rate() >= 0.0
  {
  }

  lemma LoneTaskKeepsBound(s: State, key: string, n: nat)
    requires Initial(s) && |s.tasks| == 1 && Sound(s, key) && n as real <= BucketAt(s, key).maxTokens
    ensures !Breaks(s, key, n)
  {
    forall a, b | Legal(s, a) && Fits(a, key, n) && Legal(Run(s, a), b) && Fits(b, key, n)
      ensures GrantedWithin(Run(s, a), Run(Run(s, a), b), key, 0.0)
    {
      CoveredRun(s, key, a, n);
      FitsMeansNoConfigure(a, key, n);
      RunBalances(s, key, a);
      LoneTokenBucketBound(Run(s, a), key, b, n);
    }
  }

  // ---- Beyond it ----

  /** A full bucket and limits that do not matter. */
  ghost function Start(key: string, tasks: nat, m: nat): State {
    State(LimiterState(m + 3, m + 3, 0, Some(0), [], map[key := FreshBucket(m, 0.0)]),
          seq(tasks, i => Idle), 0.0, 0, 1.0, 0.0 - FIVE_MINUTES, [])
  }

  lemma StartStarts(key: string, tasks: nat, m: nat)
    requires m >= 1
    ensures Starts(Start(key, tasks, m), key, tasks, m)
  {
  }

  lemma BreaksAfter(s: State, l: Label, key: string, n: nat)
    requires Enabled(s, l) && FitsOne(l, key, n) && Breaks(Next(s, l), key, n)
    ensures Breaks(s, key, n)
  {
    var t := Next(s, l);
    var a, b :| Legal(t, a) && Fits(a, key, n) && Legal(Run(t, a), b) && Fits(b, key, n)
                && !GrantedWithin(Run(t, a), Run(Run(t, a), b), key, 0.0);
    assert ([l] + a)[1..] == a;
    assert Legal(s, [l] + a) && Run(s, [l] + a) == Run(t, a) && Fits([l] + a, key, n);
  }

  /** Today's count and the window have room for k more requests. */
  predicate Roomy(s: State, k: nat) {
    && s.lim.dailyDate == Some(s.today)
    && s.lim.dailyCount + k < s.lim.dailyLimit && |s.lim.window| + k < s.lim.fiveMinLimit
  }

  lemma CheckLets(s: State, i: nat, k: nat)
    requires Roomy(s, k) && (Enabled(s, Check(i)) || Enabled(s, Recheck(i)))
    ensures var r := s.tasks[i].r;
            var checking := s.tasks[i].Checking?;
            var t := Next(s, if checking then Check(i) else Recheck(i));
            && t.tasks == s.tasks[i := if checking then Armed(r) else Rearmed(r)]
            && t.log == s.log && t.now == s.now && t.today == s.today && t.lim.buckets == s.lim.buckets && Roomy(t, k)
  {
    var r := s.tasks[i].r;
    PassMeansRoom(s.lim, s.now, s.today, s.toMidnight, r.failFast);
    NewerThanIsSuffix(s.lim.window, s.now - FIVE_MINUTES);
  }

  /** The bucket of m tokens a minute holds `tokens` right now. */
  predicate Holds(s: State, key: string, m: nat, tokens: real) {
    key in s.lim.buckets && s.lim.buckets[key] == BucketState(m as real, tokens, s.now)
  }

  lemma LevelNow(b: BucketState, now: real)
    requires b.lastRefill == now && b.tokens <= b.maxTokens
    ensures b.Level(now) == b.tokens
  {
    assert (now - now) * b.Rate() == 0.0;
  }

  /** Task i asks for tokens of the category and gets past the check. */
  lemma Asks(s: State, i: nat, r: Request, k: nat, n: nat) returns (t: State)
    requires Roomy(s, k) && i < |s.tasks| && s.tasks[i].Idle? && r.tokens <= n
    ensures t.tasks == s.tasks[i := Armed(r)]
    ensures t.log == s.log && t.now == s.now && t.today == s.today && t.lim.buckets == s.lim.buckets && Roomy(t, k)
    ensures Breaks(t, r.key, n) ==> Breaks(s, r.key, n)
    ensures forall end, spent :: CanSpend(t, r.key, n, end, spent) ==> CanSpend(s, r.key, n, end, spent)
  {
    var asking := Next(s, Begin(i, r));
    CheckLets(asking, i, k);
    t := Next(asking, Check(i));
    if Breaks(t, r.key, n) {
      BreaksAfter(asking, Check(i), r.key, n);
      BreaksAfter(s, Begin(i, r), r.key, n);
    }
    forall end, spent | CanSpend(t, r.key, n, end, spent) ensures CanSpend(s, r.key, n, end, spent) {
      SpendsAfter(asking, Check(i), r.key, n, end, spent);
      SpendsAfter(s, Begin(i, r), r.key, n, end, spent);
    }
  }

  // ---- A request larger than the bucket ----

  lemma OversizeOutgrowsBucket(key: string, tasks: nat, m: nat, n: nat)
    requires tasks >= 1 && n > m >= 1
    ensures Breaks(Start(key, tasks, m), key, n)
  {
    var s, r := Start(key, tasks, m), Request(key, n, true);
    var armed := Asks(s, 0, r, 0, n);
    LevelNow(s.lim.buckets[key], 0.0);
    TakeCounters(armed.lim, key, n, 0.0, 0);
    TakeCharges(armed.lim, key, n, 0.0, 0);
    var asleep := Next(armed, Take(0));
    SleepsPastCapacity(asleep, key, m, n);
    BreaksAfter(armed, Take(0), key, n);
  }

  lemma SleepsPastCapacity(s: State, key: string, m: nat, n: nat)
    requires s.tasks != [] && s.tasks[0].Rechecking? && s.tasks[0].r == Request(key, n, true) && n > m
    requires Roomy(s, 0) && key in s.lim.buckets && s.lim.buckets[key].maxTokens == m as real
    ensures Breaks(s, key, n)
  {
    var wait := Max(0.0, s.tasks[0].wake - s.now);
    var awake := Next(s, Tick(wait, s.today, 1.0));
    CheckLets(awake, 0, 0);
    var rearmed := Next(awake, Recheck(0));
    ConsumeBreaks(rearmed, key, m, n);
    BreaksAfter(awake, Recheck(0), key, n);
    BreaksAfter(s, Tick(wait, s.today, 1.0), key, n);
  }

  lemma ConsumeBreaks(s: State, key: string, m: nat, n: nat)
    requires s.tasks != [] && s.tasks[0] == Rearmed(Request(key, n, true)) && n > m
    requires key in s.lim.buckets && s.lim.buckets[key].maxTokens == m as real
    ensures Breaks(s, key, n)
  {
    var t, r := Next(s, Consume(0)), s.tasks[0].r;
    SumsAppend(s.log, Grant(s.now, s.today, key, n, Forgiven(s, r)), key);
    assert (t.now - s.now) * BucketAt(s, key).Rate() == 0.0;
    assert Legal(s, []) && Run(s, []) == s && Fits([], key, n);
    assert Legal(t, []) && Run(t, []) == t;
    assert Legal(s, [Consume(0)]) && Run(s, [Consume(0)]) == t && Fits([Consume(0)], key, n);
  }

  // ---- Overlapping requests ----

  /** Some fitting run from s ends at the given time with the given tokens granted in all. */
  ghost predicate CanSpend(s: State, key: string, n: nat, end: real, spent: real) {
    exists ls :: Legal(s, ls) && Fits(ls, key, n) && Run(s, ls).now == end && Spent(Run(s, ls).log, key) == spent
  }

  lemma SpendsAfter(s: State, l: Label, key: string, n: nat, end: real, spent: real)
    requires Enabled(s, l) && FitsOne(l, key, n) && CanSpend(Next(s, l), key, n, end, spent)
    ensures CanSpend(s, key, n, end, spent)
  {
    var t := Next(s, l);
    var ls :| Legal(t, ls) && Fits(ls, key, n) && Run(t, ls).now == end && Spent(Run(t, ls).log, key) == spent;
    assert ([l] + ls)[1..] == ls;
    assert Legal(s, [l] + ls) && Run(s, [l] + ls) == Run(t, ls) && Fits([l] + ls, key, n);
  }

  /** One task drains the bucket; two more requests then sleep the same sixty seconds over m and
      both are granted: m + 2 tokens where capacity and refill come to m + 1. */
  lemma OverlapForgivesDebt(key: string, tasks: nat, m: nat, n: nat)
    requires tasks >= 2 && m >= 1 && n >= 1
    ensures Breaks(Start(key, tasks, m), key, n)
  {
    var s := Start(key, tasks, m);
    var end, spent := 60.0 / m as real, m as real + 2.0;
    Drains(s, key, m, n, m);
    var ls :| Legal(s, ls) && Fits(ls, key, n) && Run(s, ls).now == end && Spent(Run(s, ls).log, key) == spent;
    SixtyOverM(m);
    assert Legal(s, []) && Run(s, []) == s && Fits([], key, n);
    assert !GrantedWithin(Run(s, []), Run(Run(s, []), ls), key, 0.0);
  }

  lemma SixtyOverM(m: nat)
    requires m >= 1
    ensures (60.0 / m as real) * (m as real / 60.0) == 1.0
    ensures 1.0 / (m as real / 60.0) == 60.0 / m as real
  {
  }

  ghost predicate PairIdle(s: State) { |s.tasks| >= 2 && s.tasks[0].Idle? && s.tasks[1].Idle? }

  lemma {:induction false} Drains(s: State, key: string, m: nat, n: nat, k: nat)
    requires m >= 1 && n >= 1 && k <= m && PairIdle(s) && Roomy(s, k) && Holds(s, key, m, k as real)
    ensures CanSpend(s, key, n, s.now + 60.0 / m as real, Spent(s.log, key) + k as real + 2.0)
    decreases k
  {
    if k == 0 {
      BothSleep(s, key, m, n);
    } else {
      var r, end, spent := Request(key, 1, true), s.now + 60.0 / m as real, Spent(s.log, key) + k as real + 2.0;
      var armed := Asks(s, 0, r, k, n);
      LevelNow(s.lim.buckets[key], s.now);
      TakeCounters(armed.lim, key, 1, s.now, s.today);
      TakeCharges(armed.lim, key, 1, s.now, s.today);
      var t := Next(armed, Take(0));
      SumsAppend(s.log, Grant(s.now, s.today, key, 1, 0.0), key);
      Drains(t, key, m, n, k - 1);
      SpendsAfter(armed, Take(0), key, n, end, spent);
    }
  }

  /** On an empty bucket task i goes to sleep until the next token. */
  lemma Sleeps(s: State, i: nat, key: string, m: nat, n: nat) returns (t: State)
    requires m >= 1 && n >= 1 && i < |s.tasks| && s.tasks[i].Idle? && Roomy(s, 0) && Holds(s, key, m, 0.0)
    ensures t.tasks == s.tasks[i := Rechecking(Request(key, 1, true), s.now + 60.0 / m as real)]
    ensures t.log == s.log && t.now == s.now && t.today == s.today && Roomy(t, 0) && Holds(t, key, m, 0.0)
    ensures forall end, spent :: CanSpend(t, key, n, end, spent) ==> CanSpend(s, key, n, end, spent)
  {
    var r := Request(key, 1, true);
    var armed := Asks(s, i, r, 0, n);
    LevelNow(s.lim.buckets[key], s.now);
    SixtyOverM(m);
    TakeCounters(armed.lim, key, 1, s.now, s.today);
    TakeCharges(armed.lim, key, 1, s.now, s.today);
    TakeWaits(armed.lim, key, m, s.now, s.today);
    t := Next(armed, Take(i));
    forall end, spent | CanSpend(t, key, n, end, spent) ensures CanSpend(s, key, n, end, spent) {
      SpendsAfter(armed, Take(i), key, n, end, spent);
    }
  }

  lemma TakeWaits(lim: LimiterState, key: string, m: nat, now: real, today: int)
    requires m >= 1 && key in lim.buckets && lim.buckets[key] == BucketState(m as real, 0.0, now)
    ensures lim.TakeTokens(key, 1, now, today).1 == Some(60.0 / m as real)
  {
    LevelNow(lim.buckets[key], now);
    SixtyOverM(m);
  }

  lemma BothSleep(s: State, key: string, m: nat, n: nat)
    requires m >= 1 && n >= 1 && PairIdle(s) && Roomy(s, 0) && Holds(s, key, m, 0.0)
    ensures CanSpend(s, key, n, s.now + 60.0 / m as real, Spent(s.log, key) + 2.0)
  {
    var one := Sleeps(s, 0, key, m, n);
    var both := Sleeps(one, 1, key, m, n);
    BothWake(both, key, n, 60.0 / m as real);
  }

  lemma BothWake(s: State, key: string, n: nat, wait: real)
    requires |s.tasks| >= 2 && wait >= 0.0 && Roomy(s, 0)
    requires s.tasks[0] == s.tasks[1] == Rechecking(Request(key, 1, true), s.now + wait)
    ensures CanSpend(s, key, n, s.now + wait, Spent(s.log, key) + 2.0)
  {
    var awake := Next(s, Tick(wait, s.today, 1.0));
    CheckLets(awake, 0, 0);
    var one := Next(awake, Recheck(0));
    CheckLets(one, 1, 0);
    var both := Next(one, Recheck(1));
    BothConsume(both, key, n);
    SpendsAfter(one, Recheck(1), key, n, s.now + wait, Spent(s.log, key) + 2.0);
    SpendsAfter(awake, Recheck(0), key, n, s.now + wait, Spent(s.log, key) + 2.0);
    SpendsAfter(s, Tick(wait, s.today, 1.0), key, n, s.now + wait, Spent(s.log, key) + 2.0);
  }

  lemma BothConsume(s: State, key: string, n: nat)
    requires |s.tasks| >= 2 && s.tasks[0] == s.tasks[1] == Rearmed(Request(key, 1, true))
    ensures CanSpend(s, key, n, s.now, Spent(s.log, key) + 2.0)
  {
    var r := s.tasks[0].r;
    var one := Next(s, Consume(0));
    var both := Next(one, Consume(1));
    SumsAppend(s.log, Grant(s.now, s.today, key, 1, Forgiven(s, r)), key);
    SumsAppend(one.log, Grant(s.now, s.today, key, 1, Forgiven(one, r)), key);
    assert Legal(both, []) && Run(both, []) == both && Fits([], key, n);
    SpendsAfter(one, Consume(1), key, n, s.now, Spent(s.log, key) + 2.0);
    SpendsAfter(s, Consume(0), key, n, s.now, Spent(s.log, key) + 2.0);
  }
}
