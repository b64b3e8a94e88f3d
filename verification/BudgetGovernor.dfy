/** The object side of brsapi/budget.py: the Redis commands, the gate, the reservation and its
    release, and the cooldown after an HTTP 302. */
module BudgetGovernor {
  import opened Prelude
  import opened RateLimiting
  import opened LoneAcquire
  import opened SharedWindow
  import opened ReservationProtocol

  /** The two fields of _BlockState the decisions depend on; a cleared block is BlockState(0, 0). */
  datatype BlockState = BlockState(blockedUntil: real, count: nat) {
    predicate Blocks(now: real) { now < blockedUntil }

    function Hit(now: real, cooldown: real): BlockState { BlockState(now + cooldown, count + 1) }

    function Answered(now: real): BlockState {
      if !Blocks(now) && count > 0 then BlockState(0.0, 0) else this
    }
  }

  /** The day counters kept by the Redis server; every method is one atomic command. */
  class RedisStore {
    var keys: map<int, int>

    constructor () ensures keys == map[] { keys := map[]; }

    method Get(day: int) returns (n: int)
      ensures n == At(keys, day) && n == if day in keys then keys[day] else 0
    {
      n := if day in keys then keys[day] else 0;
    }

    method IncrBy(day: int, n: int) returns (value: int)
      modifies this
      ensures keys == Plus(old(keys), day, n) && value == At(keys, day)
      ensures keys == old(keys)[day := n + if day in old(keys) then old(keys)[day] else 0] && value == keys[day]
    {
      value := (if day in keys then keys[day] else 0) + n;
      keys := keys[day := value];
    }

    method Delete(day: int)
      modifies this
      ensures keys == old(keys) - {day}
    {
      keys := keys - {day};
    }

    /** _RESERVE_DAILY_LUA: -1 and no change when the limit would be passed. */
    method EvalReserve(day: int, n: nat, limit: int) returns (value: int)
      modifies this
      ensures At(old(keys), day) + n > limit ==> value == -1 && keys == old(keys)
      ensures At(old(keys), day) + n <= limit ==>
                value == At(old(keys), day) + n && keys == Plus(old(keys), day, n)
    {
      var current := Get(day);
      if current + n > limit {
        return -1;
      }
      value := IncrBy(day, n);
    }
  }

  class BudgetGovernor {
    const dailyLimit: int
    const fiveMinLimit: int
    const warnPct: nat
    const softPct: nat
    const hasEval: bool
    const cooldown: real
    var block: BlockState
    var warnedOn: Option<int>

    constructor (dailyLimit: int, fiveMinLimit: int, warnPct: nat, softPct: nat, hasEval: bool, cooldown: real)
      ensures block == BlockState(0.0, 0) && warnedOn == None
      ensures this.dailyLimit == dailyLimit && this.fiveMinLimit == fiveMinLimit
      ensures this.warnPct == warnPct && this.softPct == softPct
      ensures this.hasEval == hasEval && this.cooldown == cooldown
    {
      this.dailyLimit, this.fiveMinLimit, this.warnPct, this.softPct := dailyLimit, fiveMinLimit, warnPct, softPct;
      this.hasEval, this.cooldown := hasEval, cooldown;
      block, warnedOn := BlockState(0.0, 0), None;
    }

    method Report302(now: real)
      modifies this`block
      ensures block == old(block).Hit(now, cooldown)
    {
      block := BlockState(now + cooldown, block.count + 1);
    }

    method ReportOk(now: real)
      modifies this`block
      ensures block == old(block).Answered(now)
    {
      if !(now < block.blockedUntil) && block.count > 0 {
        block := BlockState(0.0, 0);
      }
    }

    /** _gate_daily_usage: warns once a day, sheds non-critical load. */
    method GateDailyUsage(used: int, critical: bool, today: int) returns (open: bool)
      modifies this`warnedOn
      ensures open <==> TierOpen(dailyLimit, warnPct, softPct, used, critical)
      ensures open <==> dailyLimit <= 0 || critical
                        || used * 100 / dailyLimit < warnPct || used * 100 / dailyLimit < softPct
      ensures warnedOn == if dailyLimit > 0 && used * 100 / dailyLimit >= warnPct then Some(today) else old(warnedOn)
    {
      if dailyLimit <= 0 {
        return true;
      }
      var pct := used * 100 / dailyLimit;
      if pct < warnPct {
        return true;
      }
      if warnedOn != Some(today) {
        warnedOn := Some(today);
      }
      return !(pct >= softPct && !critical);
    }

    /** Whether a fail-fast caller that finds this usage passes the gate and gets its reservation. */
    ghost predicate Reserves(used: int, n: nat, critical: bool) {
      && GateOpen(dailyLimit, warnPct, softPct, used, critical)
      && used + n <= dailyLimit && (hasEval ==> used + n >= 0)
    }

    /** _reserve_daily together with the caller's test of its result. */
    method ReserveDaily(redis: RedisStore, n: nat, today: int) returns (reserved: bool)
      modifies redis
      ensures var value := At(old(redis.keys), today) + n;
              && (reserved <==> value <= dailyLimit && (hasEval ==> value >= 0))
              && redis.keys == if value <= dailyLimit || !hasEval then Plus(old(redis.keys), today, n)
                               else old(redis.keys)
    {
      if hasEval {
        var value := redis.EvalReserve(today, n, dailyLimit);
        return 0 <= value <= dailyLimit;
      }
      var value := redis.IncrBy(today, n);
      return value <= dailyLimit;
    }

    /** _release_daily with nobody in between its two commands. */
    method ReleaseDaily(redis: RedisStore, n: nat, today: int)
      modifies redis
      ensures n == 0 ==> redis.keys == old(redis.keys)
      ensures var left := At(old(redis.keys), today) - n;
              n > 0 ==> At(redis.keys, today) == if left <= 0 then 0 else left
      ensures forall day :: day != today ==> At(redis.keys, day) == At(old(redis.keys), day)
    {
      if n == 0 {
        return;
      }
      var remaining := redis.IncrBy(today, 0 - n);
      if remaining <= 0 {
        redis.Delete(today);
      }
    }

    /** The part of acquire before the five-minute window: for a fail-fast call the gates and the
        reservation.  The plain INCRBY counts a request it refuses. */
    method PassGates(redis: RedisStore, n: nat, critical: bool, failFast: bool, today: int) returns (reserved: bool)
      modifies redis, this`warnedOn
      ensures reserved <==> failFast && Reserves(At(old(redis.keys), today), n, critical)
      ensures var used := At(old(redis.keys), today);
              redis.keys == if reserved || (failFast && RefusedYetCounted(used, n, critical))
                            then Plus(old(redis.keys), today, n) else old(redis.keys)
    {
      if !failFast {
        return false;
      }
      var used := redis.Get(today);
      if used >= dailyLimit {
        return false;
      }
      var open := GateDailyUsage(used, critical, today);
      if !open {
        return false;
      }
      reserved := ReserveDaily(redis, n, today);
    }

    /** A request that gets past the gate and is refused its reservation, but was counted: without
        the script, or with a counter so far below zero that the script's answer reads as -1. */
    ghost predicate RefusedYetCounted(used: int, n: nat, critical: bool) {
      && GateOpen(dailyLimit, warnPct, softPct, used, critical) && !Reserves(used, n, critical)
      && (!hasEval || used + n <= dailyLimit)
    }

    /** The shared window has room for one more stamp. */
    ghost predicate StampRoom(stamps: SortedSet, clock: Clock)
      reads stamps, clock
    {
      |Above(stamps.members, clock.Wall() - FIVE_MINUTES)| < fiveMinLimit
    }

    /** The part after it: the shared window, the limiter, and the stamp of a granted request. */
    method PassWindows(stamps: SortedSet, lim: RateLimiter, clock: Clock, category: string, n: nat, failFast: bool,
                       late: nat -> real)
      returns (granted: bool)
      requires lim.Valid() && Steady(lim.View(), clock.now) && fiveMinLimit >= 1 && (forall k :: late(k) >= 0.0)
      modifies stamps, lim, lim.buckets.Values, clock
      ensures lim.Valid()
      ensures granted <==> !failFast || old(StampRoom(stamps, clock) && OpenToday(lim, clock))
      ensures granted ==> Served(lim, clock, category, n)
      ensures !granted ==> clock.now == old(clock.now) && Unspent(lim, clock)
      ensures stamps.members ==
                Above(old(stamps.members), clock.Wall() - FIVE_MINUTES) + (if granted then [clock.Wall()] else [])
    {
      ghost var all := stamps.members;
      var passed := EnforceFirst(stamps, lim, clock, failFast, late);
      if !passed {
        return false;
      }
      granted := GrantAndStamp(stamps, lim, clock, category, n, failFast, late, all, old(clock.Today()));
    }

    /** The shared window; the limiter is not touched. */
    method EnforceFirst(stamps: SortedSet, lim: RateLimiter, clock: Clock, failFast: bool, late: nat -> real)
      returns (passed: bool)
      requires lim.Valid() && Steady(lim.View(), clock.now) && fiveMinLimit >= 1 && (forall k :: late(k) >= 0.0)
      modifies stamps, clock
      ensures lim.Valid() && lim.View() == old(lim.View()) && Steady(lim.View(), clock.now)
      ensures clock.now >= old(clock.now) && old(clock.Today()) <= clock.Today()
      ensures failFast ==> clock.now == old(clock.now)
      ensures passed <==> !failFast || old(StampRoom(stamps, clock))
      ensures stamps.members == Above(old(stamps.members), clock.Wall() - FIVE_MINUTES)
    {
      passed := EnforceAlone(stamps, fiveMinLimit, clock, failFast, late);
      DaysPass(old(clock.Wall()), clock.Wall());
    }

    /** acquire of the limiter, and the stamp if it grants; `all` is the set as the call found it and
        `start` the day it began on. */
    method GrantAndStamp(stamps: SortedSet, lim: RateLimiter, clock: Clock, category: string, n: nat, failFast: bool,
                         late: nat -> real, ghost all: seq<real>, ghost start: int)
      returns (granted: bool)
      requires lim.Valid() && Steady(lim.View(), clock.now) && (forall k :: late(k) >= 0.0)
      requires stamps.members == Above(all, clock.Wall() - FIVE_MINUTES) && start <= clock.Today()
      modifies stamps, lim, lim.buckets.Values, clock
      ensures lim.Valid() && clock.now >= old(clock.now)
      ensures granted <==> !failFast || old(OpenToday(lim, clock))
      ensures granted ==> ServedAs(old(lim.View()), start, lim.View(), clock.Today(), clock.now, category, n)
      ensures !granted ==> TurnedAway(lim, clock)
      ensures stamps.members ==
                Above(all, clock.Wall() - FIVE_MINUTES) + (if granted then [clock.Wall()] else [])
    {
      ghost var looked, l, day := clock.Wall(), lim.View(), clock.Today();
      var sleeps;
      granted, sleeps := AcquireAlone(lim, clock, category, n, failFast, late);
      if granted {
        ServedFrom(l, start, day, lim.View(), clock.Today(), clock.now, category, n);
        StampNow(stamps, clock, all, looked);
      }
    }

    /** The stamp of a request granted after the look at `looked`. */
    method StampNow(stamps: SortedSet, clock: Clock, ghost all: seq<real>, ghost looked: real)
      requires stamps.members == Above(all, looked - FIVE_MINUTES) && looked <= clock.Wall()
      modifies stamps
      ensures stamps.members == Above(all, clock.Wall() - FIVE_MINUTES) + [clock.Wall()]
    {
      AboveTwice(all, looked - FIVE_MINUTES, clock.Wall() - FIVE_MINUTES);
      RecordUsed(stamps, clock.Wall());
    }

    /** Everything a call of acquire is granted for: no block and, if it is fail-fast, the gates, a
        reservation, room in the shared window and a day the limiter has not used up. */
    ghost predicate Welcome(redis: RedisStore, stamps: SortedSet, lim: RateLimiter, clock: Clock,
                            n: nat, critical: bool, failFast: bool)
      reads this, redis, stamps, lim, lim.buckets.Values, clock
    {
      && !block.Blocks(clock.Wall())
      && (failFast ==>
            && Reserves(At(redis.keys, clock.Today()), n, critical)
            && StampRoom(stamps, clock) && OpenToday(lim, clock))
    }

    /** acquire on Redis, undisturbed, from the block to the stamp.  Only a fail-fast call touches
        the day's counter.  With the script and a counter that is not negative, a rejected request
        leaves it as it found it; the plain INCRBY counts a request rejected at the boundary. */
    method Acquire(redis: RedisStore, stamps: SortedSet, lim: RateLimiter, clock: Clock,
                   category: string, n: nat, critical: bool, failFast: bool, late: nat -> real)
      returns (granted: bool)
      requires lim.Valid() && Steady(lim.View(), clock.now) && fiveMinLimit >= 1 && (forall k :: late(k) >= 0.0)
      modifies redis, stamps, lim, lim.buckets.Values, clock, this`warnedOn
      ensures lim.Valid() && (granted <==> old(Welcome(redis, stamps, lim, clock, n, critical, failFast)))
      ensures forall day :: day != old(clock.Today()) || !failFast ==> At(redis.keys, day) == At(old(redis.keys), day)
      ensures failFast ==>
                var used := old(At(redis.keys, clock.Today()));
                var counted := old(!block.Blocks(clock.Wall())) && RefusedYetCounted(used, n, critical);
                var after := At(redis.keys, old(clock.Today()));
                && (granted ==> after == used + n)
                && (!granted && used >= 0 ==> after == used + (if counted then n else 0))
      ensures granted ==> Served(lim, clock, category, n)
      ensures !granted ==> clock.now == old(clock.now) && Unspent(lim, clock)
      ensures granted ==> stamps.members == Above(old(stamps.members), clock.Wall() - FIVE_MINUTES) + [clock.Wall()]
      ensures !granted ==> NoNewStamp(stamps, clock)
    {
      if clock.Wall() < block.blockedUntil {
        return false;
      }
      var reserved := PassGates(redis, n, critical, failFast, clock.Today());
      if failFast && !reserved {
        return false;
      }
      granted := GrantOrRelease(redis, stamps, lim, clock, category, n, failFast, late);
    }

    /** The part of acquire after the reservation, which a rejected fail-fast call gives back. */
    method GrantOrRelease(redis: RedisStore, stamps: SortedSet, lim: RateLimiter, clock: Clock,
                          category: string, n: nat, failFast: bool, late: nat -> real)
      returns (granted: bool)
      requires lim.Valid() && Steady(lim.View(), clock.now) && fiveMinLimit >= 1 && (forall k :: late(k) >= 0.0)
      modifies redis, stamps, lim, lim.buckets.Values, clock
      ensures lim.Valid() && (granted <==> !failFast || old(StampRoom(stamps, clock) && OpenToday(lim, clock)))
      ensures granted || !failFast ==> redis.keys == old(redis.keys)
      ensures forall day :: day != old(clock.Today()) ==> At(redis.keys, day) == At(old(redis.keys), day)
      ensures !granted && n == 0 ==> redis.keys == old(redis.keys)
      ensures var left := old(At(redis.keys, clock.Today())) - n;
              !granted && n > 0 ==> At(redis.keys, old(clock.Today())) == if left <= 0 then 0 else left
      ensures granted ==> Served(lim, clock, category, n)
      ensures !granted ==> clock.now == old(clock.now) && Unspent(lim, clock)
      ensures stamps.members ==
                Above(old(stamps.members), clock.Wall() - FIVE_MINUTES) + (if granted then [clock.Wall()] else [])
    {
      granted := PassWindows(stamps, lim, clock, category, n, failFast, late);
      if !granted && failFast {
        ReleaseDaily(redis, n, clock.Today());
      }
    }
  }

  /** No stamp was added. */
  twostate predicate NoNewStamp(stamps: SortedSet, clock: Clock)
    reads stamps, clock
  {
    stamps.members == old(stamps.members) || stamps.members == Above(old(stamps.members), clock.Wall() - FIVE_MINUTES)
  }

  /** The limiter is as it was, but for the reset a new day brings. */
  twostate predicate Unspent(lim: RateLimiter, clock: Clock)
    reads lim, lim.buckets.Values, clock
  {
    lim.View() == old(lim.View()) || lim.View() == old(lim.View()).ResetDaily(clock.Today())
  }

  // ---- The cooldown over a whole run of one process ----

  /** What reaches the governor, in time order. */
  datatype Signal = Got302(at: real) | GotOk(at: real) | Asked(at: real)

  ghost predicate InOrder(signals: seq<Signal>) {
    forall i, j :: 0 <= i <= j < |signals| ==> signals[i].at <= signals[j].at
  }

  function Heard(block: BlockState, signal: Signal, cooldown: real): BlockState {
    match signal
    case Got302(now) => block.Hit(now, cooldown)
    case GotOk(now) => block.Answered(now)
    case Asked(_) => block
  }

  function HeardAll(block: BlockState, signals: seq<Signal>, cooldown: real): BlockState {
    if signals == [] then block
    else Heard(HeardAll(block, signals[..|signals| - 1], cooldown), signals[|signals| - 1], cooldown)
  }

  /** After a 302 the block lasts at least until its cooldown is over. */
  lemma {:induction false} BlockOutlastsCooldown(block: BlockState, signals: seq<Signal>, cooldown: real,
                                                 i: nat, until: real)
    requires InOrder(signals) && i < |signals| && signals[i].Got302?
    requires until == signals[i].at + cooldown
    requires signals[|signals| - 1].at < until
    ensures HeardAll(block, signals, cooldown).blockedUntil >= until
  {
    var last := |signals| - 1;
    if i < last {
      assert signals[last - 1].at <= signals[last].at;
      BlockOutlastsCooldown(block, signals[..last], cooldown, i, until);
      assert signals[i].at <= signals[last].at;
    }
  }

  /** No acquire that begins within the cooldown after a reported 302 gets past the block,
      whatever 200s and further 302s are reported in between. */
  lemma CooldownRejects(block: BlockState, signals: seq<Signal>, cooldown: real, i: nat, now: real)
    requires InOrder(signals + [Asked(now)])
    requires i < |signals| && signals[i].Got302? && now < signals[i].at + cooldown
    ensures HeardAll(block, signals, cooldown).Blocks(now)
  {
    var all := signals + [Asked(now)];
    assert all[|signals| - 1].at <= all[|signals|].at;
    assert forall j, k :: 0 <= j <= k < |signals| ==> all[j].at <= all[k].at;
    assert forall j :: 0 <= j < |signals| ==> all[j] == signals[j];
    BlockOutlastsCooldown(block, signals, cooldown, i, signals[i].at + cooldown);
  }

  /** And once no 302 is younger than the cooldown, a 200 clears the record. */
  lemma {:induction false} OkClearsAfterCooldown(block: BlockState, signals: seq<Signal>, cooldown: real, now: real)
    requires block.blockedUntil <= now && 0.0 <= now
    requires forall k :: 0 <= k < |signals| && signals[k].Got302? ==> signals[k].at + cooldown <= now
    ensures HeardAll(block, signals, cooldown).blockedUntil <= now
    ensures HeardAll(block, signals + [GotOk(now)], cooldown).count == 0
  {
    if signals != [] {
      OkClearsAfterCooldown(block, signals[..|signals| - 1], cooldown, now);
    }
    assert (signals + [GotOk(now)])[..|signals|] == signals;
  }
}
