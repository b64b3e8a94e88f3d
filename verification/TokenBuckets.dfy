/** Layer three of acquire: the per-category token bucket under interleaving.

    For any number of tasks, tokens granted between two points of a run are at most the capacity
    plus the refill over that time plus what the clamp at zero forgave.  With one task and
    requests no larger than the bucket the clamp never bites; with two it can. */
module TokenBuckets {
  import opened Prelude
  import opened RateLimiting
  import opened AdmissionProtocol

  /** The bucket a request for the category would meet: acquire creates a missing one full. */
  function BucketAt(s: State, key: string): BucketState {
    if key in s.lim.buckets then s.lim.buckets[key] else FreshBucket(DEFAULT_REQUESTS_PER_MINUTE, s.now)
  }

  function Level(s: State, key: string): real { BucketAt(s, key).Level(s.now) }

  function Spent(log: seq<Grant>, key: string): real {
    if log == [] then 0.0
    else Spent(log[..|log| - 1], key)
         + (if log[|log| - 1].key == key then log[|log| - 1].tokens as real else 0.0)
  }

  function Written(log: seq<Grant>, key: string): real {
    if log == [] then 0.0
    else Written(log[..|log| - 1], key)
         + (if log[|log| - 1].key == key then log[|log| - 1].forgiven else 0.0)
  }

  lemma SumsAppend(log: seq<Grant>, g: Grant, key: string)
    ensures Spent(log + [g], key) == Spent(log, key) + (if g.key == key then g.tokens as real else 0.0)
    ensures Written(log + [g], key) == Written(log, key) + (if g.key == key then g.forgiven else 0.0)
  {
    assert (log + [g])[..|log|] == log;
  }

  /** A limited bucket that is not in debt; and a task past its bucket sleep left its bucket behind. */
  ghost predicate Sound(s: State, key: string) {
    && BucketAt(s, key).maxTokens > 0.0
    && BucketAt(s, key).tokens >= 0.0
    && BucketAt(s, key).lastRefill <= s.now
    && TasksHaveBuckets(s)
  }

  ghost predicate TasksHaveBuckets(s: State) {
    forall i :: 0 <= i < |s.tasks| && (s.tasks[i].Rechecking? || s.tasks[i].Rearmed?)
      ==> s.tasks[i].r.key in s.lim.buckets
  }

  lemma LevelGrows(b: BucketState, now: real, dt: real)
    requires b.maxTokens >= 0.0 && dt >= 0.0
    ensures b.Level(now) <= b.Level(now + dt) <= b.Level(now) + dt * b.Rate()
  {
    assert now + dt - b.lastRefill == (now - b.lastRefill) + dt;
    ProductAdds(now - b.lastRefill, dt, b.Rate());
    ProductIsNonNegative(dt, b.Rate());
  }

  lemma LevelNonNegative(b: BucketState, now: real)
    requires b.maxTokens >= 0.0 && b.tokens >= 0.0 && b.lastRefill <= now
    ensures 0.0 <= b.Level(now) <= b.maxTokens
  {
    var elapsed, rate := now - b.lastRefill, b.Rate();
    ProductIsNonNegative(elapsed, rate);
    assert b.Level(now) == Min(b.maxTokens, b.tokens + elapsed * rate);
  }

  /** At the instant of a refill the level is what is there, up to the capacity. */
  lemma LevelAtRefill(b: BucketState, now: real)
    requires b.lastRefill == now
    ensures b.Level(now) == Min(b.maxTokens, b.tokens)
  {
    ProductIsZero(now - b.lastRefill, b.Rate());
  }

  lemma RefillKeepsLevel(b: BucketState, now: real)
    ensures b.Refill(now).Level(now) == b.Level(now) && b.Refill(now).Rate() == b.Rate()
  {
    LevelAtRefill(b.Refill(now), now);
  }

  /** A refilled bucket that paid x from its level holds exactly the rest. */
  lemma SpendKeepsLevel(b: BucketState, now: real, x: real)
    requires 0.0 <= x
    ensures b.Refill(now).(tokens := b.Level(now) - x).Level(now) == b.Level(now) - x
  {
    LevelAtRefill(b.Refill(now).(tokens := b.Level(now) - x), now);
  }

  ghost predicate Balance(granted: real, before: real, after: real, seconds: real, rate: real, forgiven: real) {
    granted + after <= before + seconds * rate + forgiven
  }

  lemma BalanceAdds(g: real, h: real, x: real, y: real, z: real, a: real, b: real, rate: real, e: real, f: real)
    requires Balance(g, x, y, a, rate, e) && Balance(h, y, z, b, rate, f)
    ensures Balance(g + h, x, z, a + b, rate, e + f)
  {
    ProductAdds(a, b, rate);
  }

  /** One step, as a balance of level, grants, refill and forgiven debt. */
  ghost predicate Balanced(s: State, t: State, key: string) {
    && BucketAt(t, key).maxTokens == BucketAt(s, key).maxTokens
    && s.now <= t.now
    && Balance(Spent(t.log, key) - Spent(s.log, key), Level(s, key), Level(t, key),
               t.now - s.now, BucketAt(s, key).Rate(), Written(t.log, key) - Written(s.log, key))
  }

  /** An instantaneous step that grants `paid + forgiven` tokens and charges `paid`. */
  lemma ChargeBalances(s: State, t: State, key: string, paid: real, forgiven: real)
    requires BucketAt(t, key).maxTokens == BucketAt(s, key).maxTokens && t.now == s.now
    requires Level(t, key) == Level(s, key) - paid
    requires Spent(t.log, key) == Spent(s.log, key) + paid + forgiven
    requires Written(t.log, key) == Written(s.log, key) + forgiven
    ensures Balanced(s, t, key)
  {
    ProductIsZero(t.now - s.now, BucketAt(s, key).Rate());
  }

  /** Time passing without grants. */
  lemma WaitingBalances(s: State, t: State, key: string, dt: real)
    requires BucketAt(t, key).maxTokens == BucketAt(s, key).maxTokens && t.now == s.now + dt && dt >= 0.0
    requires t.log == s.log && Level(t, key) <= Level(s, key) + dt * BucketAt(s, key).Rate()
    ensures Balanced(s, t, key)
  {
    assert t.now - s.now == dt;
  }

  /** A missing bucket counts as full at any time. */
  lemma MissingIsFull(s: State, key: string)
    requires key !in s.lim.buckets
    ensures Level(s, key) == DEFAULT_REQUESTS_PER_MINUTE as real
  {
    RefillKeepsLevel(BucketAt(s, key), s.now);
  }

  lemma TickBalances(s: State, key: string, dt: real, day: int, left: real)
    requires Sound(s, key) && Enabled(s, Tick(dt, day, left))
    ensures var t := Next(s, Tick(dt, day, left)); Sound(t, key) && Balanced(s, t, key)
  {
    var t := Next(s, Tick(dt, day, left));
    if key in s.lim.buckets {
      LevelGrows(BucketAt(s, key), s.now, dt);
    } else {
      MissingIsFull(s, key);
      MissingIsFull(t, key);
      ProductIsNonNegative(dt, BucketAt(s, key).Rate());
    }
    WaitingBalances(s, t, key, dt);
  }

  /** What the bucket section leaves in the buckets: its own one refilled and, if it granted,
      charged; the others as they were. */
  lemma TakeCharges(lim: LimiterState, key: string, n: nat, now: real, today: int)
    ensures var b := if key in lim.buckets then lim.buckets[key] else FreshBucket(DEFAULT_REQUESTS_PER_MINUTE, now);
            var (after, wait) := lim.TakeTokens(key, n, now, today);
            && (b.maxTokens > 0.0 ==>
                 && (wait.None? <==> b.Level(now) >= n as real)
                 && after.buckets == lim.buckets[key := b.Refill(now).(tokens :=
                      b.Level(now) - (if wait.None? then n as real else 0.0))])
            && (forall k :: k != key ==> (k in after.buckets <==> k in lim.buckets))
            && (forall k :: k != key && k in lim.buckets ==> after.buckets[k] == lim.buckets[k])
            && key in after.buckets
  {
  }

  /** A step at the same instant that may grant r, fully paid. */
  lemma PaidGrantBalances(s: State, t: State, key: string, r: Request, granted: bool)
    requires Sound(s, key) && TasksHaveBuckets(t) && t.now == s.now
    requires t.log == if granted then s.log + [Grant(s.now, s.today, r.key, r.tokens, 0.0)] else s.log
    requires if r.key == key then
               && (granted ==> r.tokens as real <= Level(s, key))
               && key in t.lim.buckets
               && t.lim.buckets[key] == BucketAt(s, key).Refill(s.now).(tokens :=
                    Level(s, key) - (if granted then r.tokens as real else 0.0))
             else BucketAt(t, key) == BucketAt(s, key)
    ensures Sound(t, key) && Balanced(s, t, key)
  {
    SumsAppend(s.log, Grant(s.now, s.today, r.key, r.tokens, 0.0), key);
    LevelNonNegative(BucketAt(s, key), s.now);
    var paid := if r.key == key && granted then r.tokens as real else 0.0;
    PaidLevel(s, t, key, r.key == key, paid);
    ChargeBalances(s, t, key, paid, 0.0);
  }

  /** The bucket after a step that paid from it, or left it alone. */
  lemma PaidLevel(s: State, t: State, key: string, own: bool, paid: real)
    requires Sound(s, key) && TasksHaveBuckets(t) && t.now == s.now
    requires 0.0 <= paid <= Level(s, key)
    requires if own then
               && key in t.lim.buckets
               && t.lim.buckets[key] == BucketAt(s, key).Refill(s.now).(tokens := Level(s, key) - paid)
             else paid == 0.0 && BucketAt(t, key) == BucketAt(s, key)
    ensures Sound(t, key) && Level(t, key) == Level(s, key) - paid
    ensures BucketAt(t, key).maxTokens == BucketAt(s, key).maxTokens
  {
    if own {
      SpendKeepsLevel(BucketAt(s, key), s.now, paid);
    }
  }

  lemma TakeBalances(s: State, key: string, i: nat)
    requires Sound(s, key) && Enabled(s, Take(i))
    ensures var t := Next(s, Take(i)); Sound(t, key) && Balanced(s, t, key)
  {
    var r := s.tasks[i].r;
    TakeCharges(s.lim, r.key, r.tokens, s.now, s.today);
    PaidGrantBalances(s, Next(s, Take(i)), key, r, s.lim.TakeTokens(r.key, r.tokens, s.now, s.today).1.None?);
  }

  lemma ConsumeBalances(s: State, key: string, i: nat)
    requires Sound(s, key) && Enabled(s, Consume(i))
    ensures var t := Next(s, Consume(i)); Sound(t, key) && Balanced(s, t, key)
  {
    if s.tasks[i].r.key == key {
      ConsumePays(s, key, i);
    } else {
      ConsumeElsewhere(s, key, i);
    }
  }

  lemma ConsumeElsewhere(s: State, key: string, i: nat)
    requires Sound(s, key) && Enabled(s, Consume(i)) && s.tasks[i].r.key != key
    ensures var t := Next(s, Consume(i)); Sound(t, key) && Balanced(s, t, key)
  {
    var r, t := s.tasks[i].r, Next(s, Consume(i));
    SumsAppend(s.log, Grant(s.now, s.today, r.key, r.tokens, Forgiven(s, r)), key);
    ConsumeCharges(s.lim, r.key, r.tokens, s.now, s.today);
    assert BucketAt(t, key) == BucketAt(s, key);
    ChargeBalances(s, t, key, 0.0, 0.0);
  }

  /** What the category pays for a request is its level or the request, whichever is less; the rest
      is forgiven. */
  lemma ConsumePaid(s: State, key: string, i: nat) returns (paid: real)
    requires Sound(s, key) && Enabled(s, Consume(i)) && s.tasks[i].r.key == key
    ensures var t := Next(s, Consume(i));
            && 0.0 <= paid <= Level(s, key) && Forgiven(s, s.tasks[i].r) == s.tasks[i].r.tokens as real - paid
            && key in t.lim.buckets && TasksHaveBuckets(t)
            && t.lim.buckets[key] == BucketAt(s, key).Refill(s.now).(tokens := Level(s, key) - paid)
  {
    LevelNonNegative(BucketAt(s, key), s.now);
    ConsumeCharges(s.lim, key, s.tasks[i].r.tokens, s.now, s.today);
    paid := Min(Level(s, key), s.tasks[i].r.tokens as real);
  }

  lemma ConsumePays(s: State, key: string, i: nat)
    requires Sound(s, key) && Enabled(s, Consume(i)) && s.tasks[i].r.key == key
    ensures var t := Next(s, Consume(i)); Sound(t, key) && Balanced(s, t, key)
  {
    var r, t := s.tasks[i].r, Next(s, Consume(i));
    var paid := ConsumePaid(s, key, i);
    SumsAppend(s.log, Grant(s.now, s.today, key, r.tokens, Forgiven(s, r)), key);
    PaidLevel(s, t, key, true, paid);
    ChargeBalances(s, t, key, paid, Forgiven(s, r));
  }

  /** What the last section leaves in the buckets: its own refilled and charged down to zero. */
  lemma ConsumeCharges(lim: LimiterState, key: string, n: nat, now: real, today: int)
    ensures var after := lim.ConsumeTokens(key, n, now, today);
            after.buckets ==
              if key in lim.buckets then
                var b := lim.buckets[key];
                lim.buckets[key := b.Refill(now).(tokens := Max(0.0, b.Level(now) - n as real))]
              else lim.buckets
  {
  }

  lemma StepBalances(s: State, key: string, l: Label)
    requires Sound(s, key) && Enabled(s, l)
    requires l.Configure? ==> l.key != key
    ensures Sound(Next(s, l), key) && Balanced(s, Next(s, l), key)
  {
    match l
    case Tick(dt, day, left) => TickBalances(s, key, dt, day, left);
    case Take(i) => TakeBalances(s, key, i);
    case Consume(i) => ConsumeBalances(s, key, i);
    case _ =>
      assert BucketAt(Next(s, l), key) == BucketAt(s, key);
      ChargeBalances(s, Next(s, l), key, 0.0, 0.0);
  }

  lemma BalancedTransitive(s: State, m: State, t: State, key: string)
    requires Balanced(s, m, key) && Balanced(m, t, key)
    ensures Balanced(s, t, key)
  {
    BalanceAdds(
      Spent(m.log, key) - Spent(s.log, key), Spent(t.log, key) - Spent(m.log, key),
      Level(s, key), Level(m, key), Level(t, key),
      m.now - s.now, t.now - m.now, BucketAt(s, key).Rate(),
      Written(m.log, key) - Written(s.log, key), Written(t.log, key) - Written(m.log, key));
  }

  /** Between s and t the category was granted at most its capacity, the refill over that time
      and `slack` tokens more. */
  ghost predicate GrantedWithin(s: State, t: State, key: string, slack: real) {
    Spent(t.log, key) - Spent(s.log, key)
    <= BucketAt(s, key).maxTokens + (t.now - s.now) * BucketAt(s, key).Rate() + slack
  }

  lemma BalancedBound(s: State, t: State, key: string)
    requires Sound(s, key) && Sound(t, key) && Balanced(s, t, key)
    ensures GrantedWithin(s, t, key, Written(t.log, key) - Written(s.log, key))
  {
    LevelNonNegative(BucketAt(s, key), s.now);
    LevelNonNegative(BucketAt(t, key), t.now);
  }

  lemma {:induction false} RunBalances(s: State, key: string, ls: seq<Label>)
    requires Sound(s, key) && Legal(s, ls)
    requires forall l :: l in ls && l.Configure? ==> l.key != key
    ensures Sound(Run(s, ls), key) && Balanced(s, Run(s, ls), key)
    decreases |ls|
  {
    if ls == [] {
      ProductIsZero(s.now - s.now, BucketAt(s, key).Rate());
    } else {
      StepBalances(s, key, ls[0]);
      RunBalances(Next(s, ls[0]), key, ls[1..]);
      BalancedTransitive(s, Next(s, ls[0]), Run(s, ls), key);
    }
  }

  /** Tokens granted along any stretch of a run, for any number of tasks. */
  lemma TokensGrantedAreBounded(s: State, key: string, ls: seq<Label>)
    requires Sound(s, key) && Legal(s, ls)
    requires forall l :: l in ls && l.Configure? ==> l.key != key
    ensures GrantedWithin(s, Run(s, ls), key, Written(Run(s, ls).log, key) - Written(s.log, key))
  {
    RunBalances(s, key, ls);
    BalancedBound(s, Run(s, ls), key);
  }

  // ---- Non-overlapping acquires ----

  /** No configure() of the category, and its requests ask for at most n tokens. */
  ghost predicate Fits(ls: seq<Label>, key: string, n: nat) {
    forall k :: 0 <= k < |ls| ==> FitsOne(ls[k], key, n)
  }

  predicate FitsOne(l: Label, key: string, n: nat) {
    match l
    case Configure(k, _) => k != key
    case Begin(_, r) => r.key == key ==> r.tokens <= n
    case _ => true
  }

  /** At most one task; if it asks for this category, then for no more than the bucket holds, and
      if it slept for the bucket, the deficit is refilled when it wakes. */
  ghost predicate Covered(s: State, key: string) {
    && |s.tasks| <= 1
    && (forall g :: g in s.log && g.key == key ==> g.forgiven == 0.0)
    && (s.tasks != [] ==> TaskCovered(s, key, s.tasks[0]))
  }

  ghost predicate TaskCovered(s: State, key: string, t: Task) {
    (!t.Idle? && t.r.key == key) ==>
      match t
      case Rechecking(r, wake) => key in s.lim.buckets && BucketAt(s, key).Level(wake) >= r.tokens as real
      case Rearmed(r) => key in s.lim.buckets && Level(s, key) >= r.tokens as real
      case _ => t.r.tokens as real <= BucketAt(s, key).maxTokens
  }

  lemma SleepCoversDeficit(b: BucketState, now: real, n: real)
    requires b.maxTokens > 0.0 && b.Level(now) < n <= b.maxTokens
    ensures b.Refill(now).Level(now + (n - b.Level(now)) / b.Rate()) == n
  {
    var rate, deficit := b.Rate(), n - b.Level(now);
    assert (deficit / rate) * rate == deficit;
    assert now + deficit / rate - now == deficit / rate;
  }

  lemma CoveredTake(s: State, key: string)
    requires Sound(s, key) && Covered(s, key) && Enabled(s, Take(0))
    ensures Covered(Next(s, Take(0)), key)
  {
    var r, b := s.tasks[0].r, BucketAt(s, key);
    TakeCharges(s.lim, r.key, r.tokens, s.now, s.today);
    if r.key == key && b.Level(s.now) < r.tokens as real {
      SleepCoversDeficit(b, s.now, r.tokens as real);
    }
  }

  lemma CoveredRecheck(s: State, key: string)
    requires Sound(s, key) && Covered(s, key) && Enabled(s, Recheck(0))
    ensures Covered(Next(s, Recheck(0)), key)
  {
    var r, wake := s.tasks[0].r, s.tasks[0].wake;
    PassMeansRoom(s.lim, s.now, s.today, s.toMidnight, r.failFast);
    var (_, verdict) := s.lim.CheckGlobals(s.now, s.today, s.toMidnight, r.failFast);
    if r.key == key {
      LevelGrows(BucketAt(s, key), wake, s.now - wake);
      if verdict.Sleep? {
        LevelGrows(BucketAt(s, key), wake, s.now + Min(verdict.seconds, MAX_SLEEP) - wake);
      }
    }
  }

  lemma CoveredStep(s: State, key: string, l: Label, n: nat)
    requires Sound(s, key) && Covered(s, key) && Enabled(s, l) && FitsOne(l, key, n)
    requires n as real <= BucketAt(s, key).maxTokens
    ensures Covered(Next(s, l), key)
  {
    match l
    case Tick(dt, _, _) =>
      if s.tasks != [] && s.tasks[0].Rearmed? && s.tasks[0].r.key == key {
        LevelGrows(BucketAt(s, key), s.now, dt);
      }
    case Take(i) => CoveredTake(s, key);
    case Recheck(i) => CoveredRecheck(s, key);
    case _ =>
  }

  lemma {:induction false} CoveredRun(s: State, key: string, ls: seq<Label>, n: nat)
    requires Sound(s, key) && Covered(s, key) && Legal(s, ls) && Fits(ls, key, n)
    requires n as real <= BucketAt(s, key).maxTokens
    ensures Covered(Run(s, ls), key)
    decreases |ls|
  {
    if ls != [] {
      assert FitsOne(ls[0], key, n);
      CoveredStep(s, key, ls[0], n);
      StepBalances(s, key, ls[0]);
      CoveredRun(Next(s, ls[0]), key, ls[1..], n);
    }
  }

  lemma {:induction false} NothingWritten(log: seq<Grant>, key: string)
    requires forall g :: g in log && g.key == key ==> g.forgiven == 0.0
    ensures Written(log, key) == 0.0
  {
    if log != [] {
      NothingWritten(log[..|log| - 1], key);
    }
  }

  lemma FitsMeansNoConfigure(ls: seq<Label>, key: string, n: nat)
    requires Fits(ls, key, n)
    ensures forall l :: l in ls && l.Configure? ==> l.key != key
  {
    forall l | l in ls && l.Configure? ensures l.key != key {
      var k :| 0 <= k < |ls| && ls[k] == l;
      assert FitsOne(ls[k], key, n);
    }
  }

  /** Non-overlapping acquires of requests that fit: over any stretch of a run, at most the
      capacity plus the refill, grants after a deficit sleep included; the clamp never bites. */
  lemma LoneTokenBucketBound(s: State, key: string, ls: seq<Label>, n: nat)
    requires Covered(s, key) && Sound(s, key) && Legal(s, ls) && Fits(ls, key, n)
    requires n as real <= BucketAt(s, key).maxTokens
    ensures GrantedWithin(s, Run(s, ls), key, 0.0)
    ensures forall g :: g in Run(s, ls).log && g.key == key ==> g.forgiven == 0.0
  {
    CoveredRun(s, key, ls, n);
    FitsMeansNoConfigure(ls, key, n);
    TokensGrantedAreBounded(s, key, ls);
    NothingWritten(s.log, key);
    NothingWritten(Run(s, ls).log, key);
  }
}
