/** RateLimiter.acquire as one undisturbed call: it always comes back.

    Every sleep of the two global loops lasts at most ten seconds (plus whatever the event loop
    adds), and their number is bounded before the call by the time to midnight, the size of the
    window and the age of its newest entry. */
module LoneAcquire {
  import opened Prelude
  import opened Windows
  import opened RateLimiting

  const DAY: real := 86400.0

  /** The monotonic clock, and the Tehran wall clock a constant offset away from it. */
  class Clock {
    var now: real
    const offset: real

    constructor (now: real, offset: real)
      ensures this.now == now && this.offset == offset
    {
      this.now, this.offset := now, offset;
    }

    function Wall(): real reads this { now + offset }

    function Today(): int reads this { DayAt(now + offset) }

    function ToMidnight(): real reads this { UntilMidnight(now + offset) }

    /** asyncio.sleep: wakes no earlier than asked, `late` seconds after that. */
    method Sleep(seconds: real, late: real)
      requires seconds >= 0.0 && late >= 0.0
      modifies this
      ensures now == old(now) + seconds + late
    {
      now := now + seconds + late;
    }
  }

  function DayAt(wall: real): int { (wall / DAY).Floor }

  function UntilMidnight(wall: real): real { (DayAt(wall) + 1) as real * DAY - wall }

  lemma MidnightIsAhead(wall: real)
    ensures 0.0 < UntilMidnight(wall) <= DAY
  {
  }

  /** Midnight is when the next day begins, and days are 86400 seconds long. */
  lemma MidnightBeginsNextDay(wall: real, seconds: real)
    requires 0.0 <= seconds
    ensures DayAt(wall + UntilMidnight(wall)) == DayAt(wall) + 1
    ensures seconds < UntilMidnight(wall) <==> DayAt(wall + seconds) == DayAt(wall)
    ensures DayAt(wall + 86400.0) == DayAt(wall) + 1
  {
    assert (wall + 86400.0) / DAY == wall / DAY + 1.0;
  }

  /** Today's count is not used up. */
  predicate DayRoom(l: LimiterState, wall: real) { l.ResetDaily(DayAt(wall)).dailyCount < l.dailyLimit }

  /** Both limits have room for one more request. */
  ghost predicate HasRoom(l: LimiterState, now: real, wall: real) {
    DayRoom(l, wall) && |NewerThan(l.window, now - FIVE_MINUTES)| < l.fiveMinLimit
  }

  function Tens(seconds: real): nat { if seconds <= 0.0 then 0 else (seconds / MAX_SLEEP).Floor }

  /** Sleeps still possible while today's count is used up. */
  function DaySleeps(l: LimiterState, wall: real): nat {
    if l.ResetDaily(DayAt(wall)).dailyCount >= l.dailyLimit then 1 + Tens(UntilMidnight(wall)) else 0
  }

  /** Sleeps still possible while the window is full: a short one expires an entry, a long one
      takes ten seconds off the age of the newest. */
  function WindowSleeps(l: LimiterState, now: real): nat {
    var kept := NewerThan(l.window, now - FIVE_MINUTES);
    if kept == [] then 0 else |kept| + Tens(kept[|kept| - 1] + FIVE_MINUTES - now)
  }

  function SleepBound(l: LimiterState, now: real, wall: real): nat {
    DaySleeps(l, wall) + WindowSleeps(l, now)
  }

  ghost predicate Steady(l: LimiterState, now: real) {
    && l.dailyLimit >= 1 && l.fiveMinLimit >= 1
    && Ascending(l.window) && (l.window != [] ==> l.window[|l.window| - 1] <= now)
  }

  /** A bound a caller can read off: a day of ten-second sleeps, the window, and half an hour's worth. */
  lemma SleepBoundIsSmall(l: LimiterState, now: real, wall: real)
    requires Steady(l, now)
    ensures SleepBound(l, now, wall) <= 8641 + |l.window| + 30
  {
    NewerThanIsSuffix(l.window, now - FIVE_MINUTES);
    MidnightIsAhead(wall);
  }

  lemma DayPasses(l: LimiterState, wall: real, slept: real)
    requires l.dailyLimit >= 1 && l.ResetDaily(DayAt(wall)).dailyCount >= l.dailyLimit
    requires slept >= Min(Max(UntilMidnight(wall), 1.0), MAX_SLEEP)
    ensures DaySleeps(l.ResetDaily(DayAt(wall)), wall + slept) < DaySleeps(l, wall)
  {
    MidnightIsAhead(wall);
    if DayAt(wall + slept) == DayAt(wall) {
      assert UntilMidnight(wall + slept) == UntilMidnight(wall) - slept;
    }
  }

  lemma DayStaysOpen(l: LimiterState, wall: real, slept: real)
    requires l.dailyLimit >= 1 && l.ResetDaily(DayAt(wall)).dailyCount < l.dailyLimit && slept >= 0.0
    ensures DaySleeps(l.ResetDaily(DayAt(wall)), wall + slept) == DaySleeps(l, wall) == 0
  {
  }

  /** Time passing never adds window sleeps, and a sleep the window asked for takes one away. */
  lemma WindowAges(l: LimiterState, now: real, slept: real)
    requires Steady(l, now) && slept >= 0.0
    ensures var m := l.Prune(now);
            && WindowSleeps(m, now + slept) <= WindowSleeps(l, now)
            && ((m.window != [] && slept >= Min(m.window[0] + FIVE_MINUTES - now, MAX_SLEEP))
                ==> WindowSleeps(m, now + slept) < WindowSleeps(l, now))
  {
    var kept := NewerThan(l.window, now - FIVE_MINUTES);
    NewerThanIsSuffix(l.window, now - FIVE_MINUTES);
    assert now + slept - FIVE_MINUTES == now - FIVE_MINUTES + slept;
    if kept != [] {
      KeptAges(kept, now, slept);
    }
  }

  lemma KeptAges(kept: seq<real>, now: real, slept: real)
    requires kept != [] && Ascending(kept) && slept >= 0.0
    ensures var later := NewerThan(kept, now + slept - FIVE_MINUTES);
            var before := |kept| + Tens(kept[|kept| - 1] + FIVE_MINUTES - now);
            var after := if later == [] then 0 else |later| + Tens(later[|later| - 1] + FIVE_MINUTES - (now + slept));
            && after <= before
            && (slept >= Min(kept[0] + FIVE_MINUTES - now, MAX_SLEEP) ==> after < before)
  {
    var later := NewerThan(kept, now + slept - FIVE_MINUTES);
    NewerThanIsSuffix(kept, now + slept - FIVE_MINUTES);
    if later != [] {
      assert later[|later| - 1] == kept[|kept| - 1];
      TensShrink(kept[|kept| - 1] + FIVE_MINUTES - now, slept);
      assert kept[0] <= kept[|kept| - 1];
    }
  }

  lemma TensShrink(left: real, slept: real)
    requires slept >= 0.0
    ensures Tens(left - slept) <= Tens(left)
    ensures slept >= MAX_SLEEP && left > MAX_SLEEP ==> Tens(left - slept) < Tens(left)
  {
  }

  lemma PruneKeepsSteady(l: LimiterState, now: real, later: real)
    requires Steady(l, now) && now <= later
    ensures Steady(l.Prune(now), later)
  {
    NewerThanIsSuffix(l.window, now - FIVE_MINUTES);
  }

  lemma RoomStays(l: LimiterState, now: real, later: real, offset: real)
    requires Steady(l, now) && now <= later
    requires l.dailyCount < l.dailyLimit && |l.window| < l.fiveMinLimit
    ensures HasRoom(l, later, later + offset)
  {
    NewerThanIsSuffix(l.window, later - FIVE_MINUTES);
  }

  lemma DaySleepHelps(l: LimiterState, now: real, offset: real, slept: real)
    requires Steady(l, now)
    requires l.ResetDaily(DayAt(now + offset)).dailyCount >= l.dailyLimit
    requires slept >= Min(Max(UntilMidnight(now + offset), 1.0), MAX_SLEEP)
    ensures var m := l.ResetDaily(DayAt(now + offset)).Prune(now);
            SleepBound(m, now + slept, now + slept + offset) < SleepBound(l, now, now + offset)
  {
    var wall := now + offset;
    MidnightIsAhead(wall);
    WindowAges(l, now, slept);
    DayPasses(l, wall, slept);
    assert now + slept + offset == wall + slept;
    var m := l.ResetDaily(DayAt(wall)).Prune(now);
    assert WindowSleeps(m, now + slept) == WindowSleeps(l.Prune(now), now + slept);
    assert DaySleeps(m, wall + slept) == DaySleeps(l.ResetDaily(DayAt(wall)), wall + slept);
  }

  lemma WindowSleepHelps(l: LimiterState, now: real, offset: real, slept: real)
    requires Steady(l, now)
    requires l.ResetDaily(DayAt(now + offset)).dailyCount < l.dailyLimit
    requires var kept := NewerThan(l.window, now - FIVE_MINUTES);
             kept != [] && slept >= Min(kept[0] + FIVE_MINUTES - now, MAX_SLEEP) && slept >= 0.0
    ensures var m := l.ResetDaily(DayAt(now + offset)).Prune(now);
            SleepBound(m, now + slept, now + slept + offset) < SleepBound(l, now, now + offset)
  {
    var wall := now + offset;
    WindowAges(l, now, slept);
    DayStaysOpen(l, wall, slept);
    assert now + slept + offset == wall + slept;
    var m := l.ResetDaily(DayAt(wall)).Prune(now);
    assert WindowSleeps(m, now + slept) == WindowSleeps(l.Prune(now), now + slept);
    assert DaySleeps(m, wall + slept) == DaySleeps(l.ResetDaily(DayAt(wall)), wall + slept);
  }

  /** One sleep the check asked for, however late its wake-up, lowers the bound. */
  lemma SleepHelps(l: LimiterState, m: LimiterState, verdict: Verdict, now: real, offset: real, failFast: bool,
                   late: real)
    requires Steady(l, now) && late >= 0.0 && verdict.Sleep?
    requires (m, verdict) == l.CheckGlobals(now, DayAt(now + offset), UntilMidnight(now + offset), failFast)
    ensures var later := now + Min(verdict.seconds, MAX_SLEEP) + late;
            && verdict.seconds > 0.0 && Steady(m, later)
            && SleepBound(m, later, later + offset) < SleepBound(l, now, now + offset)
  {
    var slept := Min(verdict.seconds, MAX_SLEEP) + late;
    PassMeansRoom(l, now, DayAt(now + offset), UntilMidnight(now + offset), failFast);
    PruneKeepsSteady(l, now, now + slept);
    assert now + slept == now + Min(verdict.seconds, MAX_SLEEP) + late;
    if l.ResetDaily(DayAt(now + offset)).dailyCount >= l.dailyLimit {
      DaySleepHelps(l, now, offset, slept);
    } else {
      WindowSleepHelps(l, now, offset, slept);
    }
  }

  ghost function Bound(lim: RateLimiter, clock: Clock): nat
    reads lim, lim.buckets.Values, clock
  {
    SleepBound(lim.View(), clock.now, clock.now + clock.offset)
  }

  ghost predicate Ready(lim: RateLimiter, clock: Clock)
    reads lim, lim.buckets.Values, clock
  {
    HasRoom(lim.View(), clock.now, clock.now + clock.offset)
  }

  ghost predicate OpenToday(lim: RateLimiter, clock: Clock)
    reads lim, lim.buckets.Values, clock
  {
    DayRoom(lim.View(), clock.now + clock.offset)
  }

  /** The call was turned away at once, and only the day's reset was applied. */
  twostate predicate TurnedAway(lim: RateLimiter, clock: Clock)
    reads lim, lim.buckets.Values, clock
  {
    clock.now == old(clock.now) && lim.View() == old(lim.View()).ResetDaily(clock.Today())
  }

  // ---- What waiting carries over ----

  /** The requests counted for a day. */
  ghost function CountOn(l: LimiterState, day: int): int { if l.dailyDate == Some(day) then l.dailyCount else 0 }

  ghost predicate NotAhead(l: LimiterState, day: int) { l.dailyDate.Some? ==> l.dailyDate.value <= day }

  /** From l on day `start` to m, now: the buckets are the same, and so are the counts of this and
      later days and the stamps younger than five minutes. */
  ghost predicate Carried(l: LimiterState, start: int, m: LimiterState, day: int, now: real) {
    && m.buckets == l.buckets && start <= day
    && (NotAhead(l, start) ==> NotAhead(m, day) && forall d :: d >= day ==> CountOn(m, d) == CountOn(l, d))
    && forall c :: c >= now - FIVE_MINUTES ==> NewerThan(m.window, c) == NewerThan(l.window, c)
  }

  lemma CarriedOn(l: LimiterState, start: int, m: LimiterState, day: int, now: real,
                  k: LimiterState, later: int, reached: real)
    requires Carried(l, start, m, day, now) && Carried(m, day, k, later, reached) && now <= reached
    ensures Carried(l, start, k, later, reached)
  {
  }

  lemma DaysPass(wall: real, later: real)
    requires wall <= later
    ensures DayAt(wall) <= DayAt(later)
  {
  }

  lemma CheckCarries(l: LimiterState, m: LimiterState, verdict: Verdict, now: real, offset: real, failFast: bool,
                     later: real)
    requires (m, verdict) == l.CheckGlobals(now, DayAt(now + offset), UntilMidnight(now + offset), failFast)
    requires now <= later
    ensures Carried(l, DayAt(now + offset), m, DayAt(later + offset), later)
  {
    DaysPass(now + offset, later + offset);
    forall c | c >= later - FIVE_MINUTES ensures NewerThan(m.window, c) == NewerThan(l.window, c) {
      NewerThanTwice(l.window, now - FIVE_MINUTES, c);
    }
  }

  /** A sleep lasts what the check asked for, ten seconds at most, and what the wake-up is late. */
  ghost predicate SleptFor(verdict: Verdict, seconds: real, late: real) {
    if verdict.Sleep? then
      verdict.seconds > 0.0 && seconds == (if verdict.seconds < 10.0 then verdict.seconds else 10.0) + late
    else seconds == 0.0
  }

  /** One turn of a global loop: check, and sleep at most ten seconds if the check says so. */
  method CheckOrSleep(lim: RateLimiter, clock: Clock, failFast: bool, late: real) returns (verdict: Verdict)
    requires lim.Valid() && Steady(lim.View(), clock.now) && late >= 0.0
    modifies lim`dailyCount, lim`dailyDate, lim`window, clock
    ensures lim.Valid()
    ensures clock.now >= old(clock.now) && SleptFor(verdict, clock.now - old(clock.now), late)
    ensures Turned(old(lim.View()), old(clock.now), lim.View(), clock.now, clock.offset, failFast, verdict)
  {
    ghost var l, now := lim.View(), clock.now;
    verdict := lim.CheckGlobals(clock.now, clock.Today(), clock.ToMidnight(), failFast);
    ghost var m := lim.View();
    CheckTurns(l, m, verdict, now, clock.offset, failFast, late);
    SleepIfAsked(lim, clock, verdict, late);
  }

  lemma CheckTurns(l: LimiterState, m: LimiterState, verdict: Verdict, now: real, offset: real, failFast: bool,
                   late: real)
    requires Steady(l, now) && late >= 0.0
    requires (m, verdict) == l.CheckGlobals(now, DayAt(now + offset), UntilMidnight(now + offset), failFast)
    ensures verdict.Sleep? ==> verdict.seconds > 0.0
    ensures Turned(l, now, m, WakeAt(verdict, now, late), offset, failFast, verdict)
  {
    CheckDecides(l, m, verdict, now, offset, failFast, late);
    CheckCarries(l, m, verdict, now, offset, failFast, WakeAt(verdict, now, late));
  }

  /** When the turn is over. */
  ghost function WakeAt(verdict: Verdict, now: real, late: real): real {
    if verdict.Sleep? then now + Min(verdict.seconds, MAX_SLEEP) + late else now
  }

  /** What one turn decides and leaves, from l at `now` to m at `later`. */
  ghost predicate Turned(l: LimiterState, now: real, m: LimiterState, later: real, offset: real, failFast: bool,
                         verdict: Verdict) {
    && Steady(m, later) && (verdict.Pass? || verdict.Sleep? || verdict.Exhausted?)
    && (HasRoom(l, now, now + offset) ==> verdict.Pass?)
    && (verdict.Pass? ==> m.dailyCount < m.dailyLimit && |m.window| < m.fiveMinLimit)
    && (verdict.Pass? ==> m.dailyDate == Some(DayAt(later + offset)))
    && (verdict.Sleep? ==> SleepBound(m, later, later + offset) < SleepBound(l, now, now + offset))
    && (verdict.Exhausted? <==> failFast && !DayRoom(l, now + offset))
    && (verdict.Exhausted? ==> m == l.ResetDaily(DayAt(now + offset)))
    && (DayRoom(l, now + offset) ==> DayRoom(m, later + offset))
    && Carried(l, DayAt(now + offset), m, DayAt(later + offset), later)
  }

  method SleepIfAsked(lim: RateLimiter, clock: Clock, verdict: Verdict, late: real)
    requires late >= 0.0 && lim.Valid() && (verdict.Sleep? ==> verdict.seconds > 0.0)
    modifies clock
    ensures lim.Valid() && lim.View() == old(lim.View())
    ensures clock.now == WakeAt(verdict, old(clock.now), late)
    ensures clock.now >= old(clock.now) && SleptFor(verdict, clock.now - old(clock.now), late)
  {
    if verdict.Sleep? {
      clock.Sleep(Min(verdict.seconds, MAX_SLEEP), late);
    }
  }

  lemma CheckDecides(l: LimiterState, m: LimiterState, verdict: Verdict, now: real, offset: real, failFast: bool,
                     late: real)
    requires Steady(l, now) && late >= 0.0
    requires (m, verdict) == l.CheckGlobals(now, DayAt(now + offset), UntilMidnight(now + offset), failFast)
    ensures Steady(m, now)
    ensures verdict.Pass? <==> HasRoom(l, now, now + offset)
    ensures verdict.Pass? ==> m.dailyCount < m.dailyLimit && |m.window| < m.fiveMinLimit
    ensures m.dailyDate == Some(DayAt(now + offset))
    ensures verdict.Pass? || verdict.Sleep? || verdict.Exhausted?
    ensures verdict.Exhausted? <==> failFast && !DayRoom(l, now + offset)
    ensures verdict.Exhausted? ==> m == l.ResetDaily(DayAt(now + offset))
    ensures forall wall :: DayRoom(l, now + offset) ==> DayRoom(m, wall)
    ensures verdict.Sleep? ==>
              var later := now + Min(verdict.seconds, MAX_SLEEP) + late;
              && verdict.seconds > 0.0 && Steady(m, later)
              && SleepBound(m, later, later + offset) < SleepBound(l, now, now + offset)
  {
    PassMeansRoom(l, now, DayAt(now + offset), UntilMidnight(now + offset), failFast);
    PruneKeepsSteady(l, now, now);
    if verdict.Sleep? {
      SleepHelps(l, m, verdict, now, offset, failFast, late);
    }
  }

  /** After so many sleeps the last turn of a loop that began with l at `start` decided this. */
  ghost predicate Looped(l: LimiterState, start: real, m: LimiterState, now: real, offset: real, failFast: bool,
                         verdict: Verdict, sleeps: nat) {
    && Steady(m, now) && now >= start && (verdict.Pass? || verdict.Sleep? || verdict.Exhausted?)
    && sleeps + (if verdict.Sleep? then 1 + SleepBound(m, now, now + offset) else 0)
       <= SleepBound(l, start, start + offset)
    && (HasRoom(l, start, start + offset) ==> verdict.Pass? && sleeps == 0 && now == start)
    && (verdict.Pass? ==> m.dailyCount < m.dailyLimit && |m.window| < m.fiveMinLimit)
    && (verdict.Pass? ==> m.dailyDate == Some(DayAt(now + offset)))
    && (verdict.Exhausted? <==> failFast && !DayRoom(l, start + offset))
    && (verdict.Exhausted? ==> now == start && m == l.ResetDaily(DayAt(start + offset)))
    && (DayRoom(l, start + offset) ==> DayRoom(m, now + offset))
    && Carried(l, DayAt(start + offset), m, DayAt(now + offset), now)
  }

  lemma FirstTurn(l: LimiterState, start: real, m: LimiterState, now: real, offset: real, failFast: bool,
                  verdict: Verdict)
    requires Turned(l, start, m, now, offset, failFast, verdict) && now >= start && (!verdict.Sleep? ==> now == start)
    ensures Looped(l, start, m, now, offset, failFast, verdict, 0)
  {
  }

  lemma NextTurn(l: LimiterState, start: real, m: LimiterState, now: real, offset: real, failFast: bool,
                 before: Verdict, sleeps: nat, k: LimiterState, later: real, verdict: Verdict)
    requires Looped(l, start, m, now, offset, failFast, before, sleeps) && before.Sleep?
    requires Turned(m, now, k, later, offset, failFast, verdict) && later >= now
    ensures Looped(l, start, k, later, offset, failFast, verdict, sleeps + 1)
  {
    CarriedOn(l, DayAt(start + offset), m, DayAt(now + offset), now, k, DayAt(later + offset), later);
  }

  /** The loop at lines 259-271 and again at 305-316. */
  method WaitForGlobals(lim: RateLimiter, clock: Clock, failFast: bool, late: nat -> real)
    returns (passed: bool, sleeps: nat)
    requires lim.Valid() && Steady(lim.View(), clock.now)
    requires forall k :: late(k) >= 0.0
    modifies lim`dailyCount, lim`dailyDate, lim`window, clock
    ensures lim.Valid() && Steady(lim.View(), clock.now) && clock.now >= old(clock.now)
    ensures passed <==> !failFast || old(OpenToday(lim, clock))
    ensures !passed ==> TurnedAway(lim, clock)
    ensures passed ==> lim.dailyCount < lim.dailyLimit && |lim.window| < lim.fiveMinLimit
    ensures passed ==> lim.dailyDate == Some(clock.Today())
    ensures sleeps <= old(Bound(lim, clock))
    ensures old(Ready(lim, clock)) ==> passed && sleeps == 0 && clock.now == old(clock.now)
    ensures Carried(old(lim.View()), old(clock.Today()), lim.View(), clock.Today(), clock.now)
  {
    var verdict;
    verdict, sleeps := LoopUntilDecided(lim, clock, failFast, late);
    passed := verdict.Pass?;
  }

  method LoopUntilDecided(lim: RateLimiter, clock: Clock, failFast: bool, late: nat -> real)
    returns (verdict: Verdict, sleeps: nat)
    requires lim.Valid() && Steady(lim.View(), clock.now) && forall k :: late(k) >= 0.0
    modifies lim`dailyCount, lim`dailyDate, lim`window, clock
    ensures lim.Valid() && !verdict.Sleep?
    ensures Looped(old(lim.View()), old(clock.now), lim.View(), clock.now, clock.offset, failFast, verdict, sleeps)
  {
    ghost var l, start := lim.View(), clock.now;
    sleeps := 0;
    verdict := CheckOrSleep(lim, clock, failFast, late(0));
    FirstTurn(l, start, lim.View(), clock.now, clock.offset, failFast, verdict);
    while verdict.Sleep?
      invariant lim.Valid() && Steady(lim.View(), clock.now)
      invariant Looped(l, start, lim.View(), clock.now, clock.offset, failFast, verdict, sleeps)
      decreases SleepBound(l, start, start + clock.offset) - sleeps
    {
      verdict := TurnAgain(lim, clock, failFast, late(sleeps + 1), l, start, verdict, sleeps);
      sleeps := sleeps + 1;
    }
  }

  /** One more turn of a loop that began with l at `start`. */
  method TurnAgain(lim: RateLimiter, clock: Clock, failFast: bool, late: real,
                   ghost l: LimiterState, ghost start: real, ghost before: Verdict, ghost sleeps: nat)
    returns (verdict: Verdict)
    requires lim.Valid() && late >= 0.0 && before.Sleep?
    requires Looped(l, start, lim.View(), clock.now, clock.offset, failFast, before, sleeps)
    modifies lim`dailyCount, lim`dailyDate, lim`window, clock
    ensures lim.Valid() && Steady(lim.View(), clock.now)
    ensures Looped(l, start, lim.View(), clock.now, clock.offset, failFast, verdict, sleeps + 1)
  {
    ghost var m, now := lim.View(), clock.now;
    verdict := CheckOrSleep(lim, clock, failFast, late);
    NextTurn(l, start, m, now, clock.offset, failFast, before, sleeps, lim.View(), clock.now, verdict);
  }

  // ---- What a granted request leaves behind ----

  /** What the bucket of the category holds at an instant, going by the buckets of before: 30 if it
      was missing, else what it had and a sixtieth of its capacity a second, up to the capacity. */
  ghost function LevelAt(was: map<string, BucketState>, key: string, at: real): real {
    if key !in was then 30.0
    else
      var grown := was[key].tokens + (at - was[key].lastRefill) * (was[key].maxTokens / 60.0);
      if grown < was[key].maxTokens then grown else was[key].maxTokens
  }

  ghost function CapacityOf(was: map<string, BucketState>, key: string): real {
    if key in was then was[key].maxTokens else 30.0
  }

  /** The buckets after a grant at `at`: the category's holds its level of that instant less the
      request, or the level itself if it has no limit; a request within the capacity is covered by
      the level; the other buckets are as they were. */
  ghost predicate Charged(was: map<string, BucketState>, after: map<string, BucketState>, key: string, n: nat,
                          at: real) {
    var capacity, level := CapacityOf(was, key), LevelAt(was, key, at);
    && after == was[key := BucketState(
         capacity, if capacity <= 0.0 then level else if level > n as real then level - n as real else 0.0, at)]
    && (capacity > 0.0 && n as real <= capacity ==> level >= n as real)
  }

  /** How long the bucket makes a request wait: not at all if its level covers it, else at least
      until the deficit has flowed in. */
  ghost predicate Waited(was: map<string, BucketState>, key: string, n: nat, from: real, at: real, sleeps: nat) {
    var capacity, level := CapacityOf(was, key), LevelAt(was, key, from);
    if capacity <= 0.0 || level >= n as real then sleeps == 0 && at == from
    else sleeps == 1 && at - from >= (n as real - level) / (capacity / 60.0)
  }

  /** The limiter counted one more request today and stamped it now. */
  ghost predicate CountedOnce(l: LimiterState, start: int, m: LimiterState, day: int, now: real) {
    && m.dailyDate == Some(day)
    && (NotAhead(l, start) ==> m.dailyCount == CountOn(l, day) + 1)
    && NewerThan(m.window, now - FIVE_MINUTES) == NewerThan(l.window, now - FIVE_MINUTES) + [now]
  }

  /** The request is the newest stamp, and both limits are met. */
  ghost predicate Recorded(m: LimiterState, day: int, now: real) {
    && Steady(m, now) && m.dailyDate == Some(day) && m.dailyCount <= m.dailyLimit
    && m.window != [] && m.window[|m.window| - 1] == now && |m.window| <= m.fiveMinLimit
  }

  /** All a grant does, from l on the day the call began to m, now: recorded within both limits,
      counted once, and paid from the bucket. */
  ghost predicate ServedAs(l: LimiterState, start: int, m: LimiterState, day: int, now: real, key: string, n: nat) {
    Recorded(m, day, now) && CountedOnce(l, start, m, day, now) && Charged(l.buckets, m.buckets, key, n, now)
  }

  twostate predicate Served(lim: RateLimiter, clock: Clock, key: string, n: nat)
    reads lim, lim.buckets.Values, clock
  {
    ServedAs(old(lim.View()), old(clock.Today()), lim.View(), clock.Today(), clock.now, key, n)
  }

  /** acquire(key, n) with nobody else in the limiter.  It is granted exactly if it may block or
      today's count is not used up, after at most Bound global sleeps and one for the bucket; the
      limits hold exactly, the bucket pays, and a rejected call is turned away at once. */
  method AcquireAlone(lim: RateLimiter, clock: Clock, key: string, n: nat, failFast: bool, late: nat -> real)
    returns (granted: bool, sleeps: nat)
    requires lim.Valid() && Steady(lim.View(), clock.now)
    requires forall k :: late(k) >= 0.0
    modifies lim, lim.buckets.Values, clock
    ensures lim.Valid()
    ensures clock.now >= old(clock.now)
    ensures granted <==> !failFast || old(OpenToday(lim, clock))
    ensures !granted ==> TurnedAway(lim, clock)
    ensures sleeps <= old(Bound(lim, clock)) + 1
    ensures granted ==> Served(lim, clock, key, n)
  {
    ghost var l, start := lim.View(), clock.Today();
    granted, sleeps := WaitForGlobals(lim, clock, failFast, late);
    if !granted {
      return;
    }
    ghost var m, day, now := lim.View(), clock.Today(), clock.now;
    var more := PayBucket(lim, clock, key, n, failFast, late);
    DaysPass(now + clock.offset, clock.now + clock.offset);
    ServedLater(l, start, m, day, now, lim.View(), clock.Today(), clock.now, key, n);
    sleeps := sleeps + more;
  }

  /** Being served after a wait is being served from the start of it. */
  lemma ServedLater(l: LimiterState, start: int, m: LimiterState, day: int, now: real,
                    k: LimiterState, later: int, at: real, key: string, n: nat)
    requires Carried(l, start, m, day, now) && ServedAs(m, day, k, later, at, key, n) && day <= later && now <= at
    ensures ServedAs(l, start, k, later, at, key, n)
  {
  }

  /** Time that passes before the call does not matter to what it does. */
  lemma ServedFrom(l: LimiterState, start: int, later: int, m: LimiterState, day: int, now: real, key: string, n: nat)
    requires start <= later && ServedAs(l, later, m, day, now, key, n)
    ensures ServedAs(l, start, m, day, now, key, n)
  {
  }

  /** acquire from its third layer on, with room under both limits. */
  method PayBucket(lim: RateLimiter, clock: Clock, key: string, n: nat, failFast: bool, late: nat -> real)
    returns (sleeps: nat)
    requires lim.Valid() && Steady(lim.View(), clock.now)
    requires lim.dailyCount < lim.dailyLimit && |lim.window| < lim.fiveMinLimit
    requires lim.dailyDate == Some(clock.Today())
    requires forall k :: late(k) >= 0.0
    modifies lim, lim.buckets.Values, clock
    ensures lim.Valid() && clock.now >= old(clock.now)
    ensures Served(lim, clock, key, n)
    ensures Waited(old(lim.View()).buckets, key, n, old(clock.now), clock.now, sleeps)
  {
    ghost var l, now, today := lim.View(), clock.now, clock.Today();
    var wait := lim.TakeTokens(key, n, clock.now, clock.Today());
    if wait.None? {
      TakeServes(l, lim.View(), key, n, now, today);
      return 0;
    }
    sleeps := PayLater(lim, clock, key, n, failFast, wait.value, late, l);
  }

  /** The sleeping case, after a bucket section that began with l. */
  method PayLater(lim: RateLimiter, clock: Clock, key: string, n: nat, failFast: bool, wait: real, late: nat -> real,
                  ghost l: LimiterState)
    returns (sleeps: nat)
    requires lim.Valid() && Steady(l, clock.now) && l.dailyDate == Some(clock.Today())
    requires l.dailyCount < l.dailyLimit && |l.window| < l.fiveMinLimit
    requires (lim.View(), Some(wait)) == l.TakeTokens(key, n, clock.now, clock.Today())
    requires forall k :: late(k) >= 0.0
    modifies lim, lim.buckets.Values, clock
    ensures lim.Valid() && clock.now >= old(clock.now)
    ensures ServedAs(l, old(clock.Today()), lim.View(), clock.Today(), clock.now, key, n)
    ensures Waited(l.buckets, key, n, old(clock.now), clock.now, sleeps)
  {
    ghost var m, now, today := lim.View(), clock.now, clock.Today();
    TakeKeeps(l, m, wait, key, n, now, today);
    sleeps := SleepAndConsume(lim, clock, key, n, failFast, wait, late);
    SleepServes(l, m, wait, key, n, now, today, lim.View(), clock.Today(), clock.now);
  }

  /** What the last section leaves of m, now: counted once, and the bucket charged what it holds,
      down to zero. */
  ghost predicate Consumed(m: LimiterState, start: int, k: LimiterState, day: int, now: real, key: string, n: nat) {
    && key in m.buckets && Recorded(k, day, now) && CountedOnce(m, start, k, day, now)
    && var level := LevelAt(m.buckets, key, now);
       k.buckets == m.buckets[key := BucketState(
         m.buckets[key].maxTokens, if level > n as real then level - n as real else 0.0, now)]
  }

  /** The rest of acquire after the bucket section asked for a sleep: undisturbed, the second check
      passes at once, and the bucket pays what it holds by then. */
  method SleepAndConsume(lim: RateLimiter, clock: Clock, key: string, n: nat, failFast: bool,
                         wait: real, late: nat -> real)
    returns (sleeps: nat)
    requires lim.Valid() && Steady(lim.View(), clock.now)
    requires lim.dailyCount < lim.dailyLimit && |lim.window| < lim.fiveMinLimit
    requires lim.dailyDate == Some(clock.Today())
    requires key in lim.buckets && forall k :: late(k) >= 0.0
    modifies lim, lim.buckets.Values, clock
    ensures lim.Valid()
    ensures sleeps == 1 && clock.now >= old(clock.now) && clock.now - old(clock.now) >= wait
    ensures Consumed(old(lim.View()), old(clock.Today()), lim.View(), clock.Today(), clock.now, key, n)
  {
    ghost var l, start := lim.View(), clock.Today();
    sleeps := PassAgain(lim, clock, failFast, wait, late);
    ghost var m := lim.View();
    ConsumeWithRoom(lim, clock, key, n);
    ConsumedLater(l, start, m, clock.Today(), clock.now, lim.View(), key, n);
  }

  lemma ConsumedLater(l: LimiterState, start: int, m: LimiterState, day: int, now: real, k: LimiterState,
                      key: string, n: nat)
    requires Carried(l, start, m, day, now) && Consumed(m, day, k, day, now, key, n)
    ensures Consumed(l, start, k, day, now, key, n)
  {
  }

  /** The deficit sleep and the second check, which finds the room that was there. */
  method PassAgain(lim: RateLimiter, clock: Clock, failFast: bool, wait: real, late: nat -> real)
    returns (sleeps: nat)
    requires lim.Valid() && Steady(lim.View(), clock.now)
    requires lim.dailyCount < lim.dailyLimit && |lim.window| < lim.fiveMinLimit
    requires lim.dailyDate == Some(clock.Today()) && forall k :: late(k) >= 0.0
    modifies lim`dailyCount, lim`dailyDate, lim`window, clock
    ensures lim.Valid() && Steady(lim.View(), clock.now)
    ensures lim.dailyCount < lim.dailyLimit && |lim.window| < lim.fiveMinLimit
    ensures sleeps == 1 && clock.now >= old(clock.now) && clock.now - old(clock.now) >= wait
    ensures Carried(old(lim.View()), old(clock.Today()), lim.View(), clock.Today(), clock.now)
  {
    ghost var l, start, asleep := lim.View(), clock.Today(), clock.now;
    clock.Sleep(Max(wait, 0.0), late(0));
    RoomStays(l, asleep, clock.now, clock.offset);
    DaysPass(asleep + clock.offset, clock.now + clock.offset);
    var granted, more := WaitForGlobals(lim, clock, failFast, late);
    sleeps := 1 + more;
    CarriedFrom(l, start, clock.Today(), lim.View(), clock.now);
  }

  /** Time that passes before a wait begins does not matter to what is carried over. */
  lemma CarriedFrom(l: LimiterState, start: int, later: int, m: LimiterState, now: real)
    requires Carried(l, later, m, later, now) && start <= later
    ensures Carried(l, start, m, later, now)
  {
  }

  method ConsumeWithRoom(lim: RateLimiter, clock: Clock, key: string, n: nat)
    requires lim.Valid() && Steady(lim.View(), clock.now) && key in lim.buckets
    requires lim.dailyCount < lim.dailyLimit && |lim.window| < lim.fiveMinLimit
    modifies lim`dailyCount, lim`dailyDate, lim`window, lim.buckets.Values
    ensures lim.Valid() && Consumed(old(lim.View()), clock.Today(), lim.View(), clock.Today(), clock.now, key, n)
  {
    ghost var l := lim.View();
    lim.ConsumeTokens(key, n, clock.now, clock.Today());
    ConsumeServes(l, lim.View(), key, n, clock.now, clock.Today());
  }

  lemma ConsumeServes(l: LimiterState, m: LimiterState, key: string, n: nat, now: real, today: int)
    requires m == l.ConsumeTokens(key, n, now, today) && key in l.buckets && Steady(l, now)
    requires l.dailyCount < l.dailyLimit && |l.window| < l.fiveMinLimit
    ensures Consumed(l, today, m, today, now, key, n)
  {
    ConsumeSection(l, key, n, now, today);
    LevelIs(l.buckets, key, now);
    RecordedNow(l, m, now, today);
  }

  /** Appending the stamp of now keeps the window in order and counts once. */
  lemma RecordedNow(l: LimiterState, m: LimiterState, now: real, today: int)
    requires Steady(l, now) && m.window == l.window + [now] && m.dailyDate == Some(today)
    requires m.dailyCount == CountOn(l, today) + 1 && m.dailyLimit == l.dailyLimit && m.fiveMinLimit == l.fiveMinLimit
    requires l.dailyCount < l.dailyLimit && |l.window| < l.fiveMinLimit
    ensures Recorded(m, today, now) && CountedOnce(l, today, m, today, now)
  {
    AscendingAppend(l.window, now);
    NewerThanAppend(l.window, now, now - FIVE_MINUTES);
  }

  lemma LevelIs(was: map<string, BucketState>, key: string, at: real)
    ensures key in was ==> was[key].Level(at) == LevelAt(was, key, at)
  {
    if key in was {
      RefillPerMinute(was[key], at);
    }
  }

  /** A bucket section that grants serves the request at once. */
  lemma TakeServes(l: LimiterState, m: LimiterState, key: string, n: nat, now: real, today: int)
    requires (m, None) == l.TakeTokens(key, n, now, today) && Steady(l, now) && l.dailyDate == Some(today)
    requires l.dailyCount < l.dailyLimit && |l.window| < l.fiveMinLimit
    ensures ServedAs(l, today, m, today, now, key, n) && Waited(l.buckets, key, n, now, now, 0)
  {
    TakeSection(l, key, n, now, today);
    LevelIs(l.buckets, key, now);
    RecordedNow(l, m, now, today);
  }

  /** One that asks for a sleep leaves the counters as they were. */
  lemma TakeKeeps(l: LimiterState, m: LimiterState, wait: real, key: string, n: nat, now: real, today: int)
    requires (m, Some(wait)) == l.TakeTokens(key, n, now, today)
    ensures m == l.(buckets := m.buckets) && key in m.buckets
  {
    TakeCounters(l, key, n, now, today);
  }

  /** And it only brings its bucket up to now. */
  lemma TakeWaits(l: LimiterState, m: LimiterState, wait: real, key: string, n: nat, now: real, today: int)
    requires (m, Some(wait)) == l.TakeTokens(key, n, now, today)
    ensures m == l.(buckets := Refilled(l.buckets, key, now))
    ensures CapacityOf(l.buckets, key) > 0.0 && LevelAt(l.buckets, key, now) < n as real
    ensures wait == (n as real - LevelAt(l.buckets, key, now)) / (CapacityOf(l.buckets, key) / 60.0)
  {
    TakeSection(l, key, n, now, today);
    LevelIs(l.buckets, key, now);
  }

  /** The buckets with the category's brought up to an instant. */
  ghost function Refilled(was: map<string, BucketState>, key: string, at: real): map<string, BucketState> {
    was[key := BucketState(CapacityOf(was, key), LevelAt(was, key, at), at)]
  }

  /** A refill in between does not change what a bucket holds later. */
  lemma LevelComposes(was: map<string, BucketState>, key: string, from: real, at: real)
    requires CapacityOf(was, key) > 0.0 && from <= at
    ensures LevelAt(Refilled(was, key, from), key, at) == LevelAt(was, key, at)
  {
    var rate := CapacityOf(was, key) / 60.0;
    ProductIsNonNegative(at - from, rate);
    if key in was {
      ProductAdds(from - was[key].lastRefill, at - from, rate);
      assert (from - was[key].lastRefill) + (at - from) == at - was[key].lastRefill;
    }
  }

  /** After a sleep of the deficit over the rate, or longer, the level covers a request that fits. */
  lemma DeficitFlowsIn(was: map<string, BucketState>, key: string, n: nat, from: real, at: real)
    requires CapacityOf(was, key) > 0.0 && LevelAt(was, key, from) < n as real <= CapacityOf(was, key)
    requires at - from >= (n as real - LevelAt(was, key, from)) / (CapacityOf(was, key) / 60.0)
    ensures from <= at && LevelAt(was, key, at) >= n as real
  {
    var rate, deficit := CapacityOf(was, key) / 60.0, n as real - LevelAt(was, key, from);
    EnoughTime(at - from, deficit, rate);
    LevelComposes(was, key, from, at);
  }

  lemma EnoughTime(seconds: real, deficit: real, rate: real)
    requires rate > 0.0 && deficit >= 0.0 && seconds >= deficit / rate
    ensures seconds >= 0.0 && seconds * rate >= deficit
  {
    assert (deficit / rate) * rate == deficit;
    ProductIsNonNegative(seconds - deficit / rate, rate);
    ProductAdds(deficit / rate, seconds - deficit / rate, rate);
    assert deficit / rate + (seconds - deficit / rate) == seconds;
    assert deficit / rate >= 0.0;
  }

  /** Both bucket sections together charge the level of the grant. */
  lemma SleepServes(l: LimiterState, m: LimiterState, wait: real, key: string, n: nat, from: real, today: int,
                    k: LimiterState, day: int, at: real)
    requires (m, Some(wait)) == l.TakeTokens(key, n, from, today) && from <= at && at - from >= wait
    requires Consumed(m, today, k, day, at, key, n)
    ensures ServedAs(l, today, k, day, at, key, n) && Waited(l.buckets, key, n, from, at, 1)
  {
    TakeWaits(l, m, wait, key, n, from, today);
    LevelComposes(l.buckets, key, from, at);
    SameKey(l.buckets, m.buckets, k.buckets, key);
    if n as real <= CapacityOf(l.buckets, key) {
      DeficitFlowsIn(l.buckets, key, n, from, at);
    }
  }

  lemma SameKey(a: map<string, BucketState>, b: map<string, BucketState>, c: map<string, BucketState>, key: string)
    requires key in b && key in c && b == a[key := b[key]] && c == b[key := c[key]]
    ensures c == a[key := c[key]]
  {
  }
}
