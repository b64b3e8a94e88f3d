/** The two limiters that check and record inside one lock section: the crawler's in z.py and the
    collector's in backtest_collector.py.  Since no other thread gets between check and record,
    their limits are exact for any number of threads; a label is one pass through the section. */
module ThreadLimiters {
  import opened Windows

  // ---- z.py ----

  const MIN_DELAY: real := 5.0

  datatype Verdict = Granted(count: int) | DailyLimitExceeded | Wait(seconds: real) | IndexFault

  datatype Slots = Slots(
    dailyLimit: int, burstLimit: int, burstWindow: real,
    day: int, requestsToday: int, recent: seq<real>, lastRequest: real)
  {
    function NewDay(today: int): Slots {
      if day != today then this.(day := today, requestsToday := 0, recent := []) else this
    }

    /** The lock section of acquire_slot.  It reads the clock three times: on entry, for the
        deque and for the last request. */
    function Acquire(now: real, queued: real, stamped: real, today: int): (Slots, Verdict) {
      var s := NewDay(today);
      if s.requestsToday >= dailyLimit then (s, DailyLimitExceeded)
      else
        var kept := s.(recent := NewerThan(s.recent, now - burstWindow));
        if |kept.recent| >= burstLimit then
          if kept.recent == [] then (kept, IndexFault)
          else kept.AfterWait(kept.recent[0] + burstWindow - now + 0.5, queued, stamped)
        else kept.AfterWait(
          if now - lastRequest < MIN_DELAY then MIN_DELAY - (now - lastRequest) else 0.0, queued, stamped)
    }

    function AfterWait(wait: real, queued: real, stamped: real): (Slots, Verdict) {
      if wait <= 0.0 then
        (this.(recent := recent + [queued], lastRequest := stamped, requestsToday := requestsToday + 1),
         Granted(requestsToday + 1))
      else (this, Wait(wait))
    }

    function Refund(): Slots {
      if requestsToday > 0 then this.(requestsToday := requestsToday - 1) else this
    }
  }

  class CrawlerLimiter {
    const dailyLimit: int
    const burstLimit: int
    const burstWindow: real
    var day: int
    var requestsToday: int
    var recent: seq<real>
    var lastRequest: real

    ghost function View(): Slots reads this {
      Slots(dailyLimit, burstLimit, burstWindow, day, requestsToday, recent, lastRequest)
    }

    constructor (dailyLimit: int, burstLimit: int, burstWindow: real, day: int, requestsToday: int)
      ensures View() == Slots(dailyLimit, burstLimit, burstWindow, day, requestsToday, [], 0.0)
    {
      this.dailyLimit, this.burstLimit, this.burstWindow := dailyLimit, burstLimit, burstWindow;
      this.day, this.requestsToday := day, requestsToday;
      recent, lastRequest := [], 0.0;
    }

    method TryAcquire(now: real, queued: real, stamped: real, today: int) returns (verdict: Verdict)
      modifies this
      ensures (View(), verdict) == old(View()).Acquire(now, queued, stamped, today)
    {
      if day != today {
        day, requestsToday, recent := today, 0, [];
      }
      if requestsToday >= dailyLimit {
        return DailyLimitExceeded;
      }
      ghost var all := recent;
      while recent != [] && recent[0] <= now - burstWindow
        invariant NewerThan(recent, now - burstWindow) == NewerThan(all, now - burstWindow)
        invariant View() == old(View()).NewDay(today).(recent := recent)
        decreases |recent|
      {
        recent := recent[1..];
      }
      var wait := 0.0;
      if |recent| >= burstLimit {
        if recent == [] {
          return IndexFault;
        }
        wait := recent[0] + burstWindow - now + 0.5;
      } else {
        var elapsed := now - lastRequest;
        if elapsed < MIN_DELAY {
          wait := MIN_DELAY - elapsed;
        }
      }
      if wait <= 0.0 {
        recent := recent + [queued];
        lastRequest := stamped;
        requestsToday := requestsToday + 1;
        return Granted(requestsToday);
      }
      return Wait(wait);
    }

    method RefundSlot()
      modifies this`requestsToday
      ensures View() == old(View()).Refund()
    {
      if requestsToday > 0 {
        requestsToday := requestsToday - 1;
      }
    }
  }

  /** One pass through a lock section, by any thread. */
  datatype Pass = Try(now: real, queued: real, stamped: real, today: int) | GiveBack(at: real)

  /** The limiter with what happened so far: when each grant was made, on which day it and each
      effective refund was booked, and the last clock reading. */
  datatype Crawl = Crawl(slots: Slots, times: seq<real>, grantDays: seq<int>, refundDays: seq<int>, clock: real)

  /** Clock and calendar never go back. */
  predicate Possible(c: Crawl, p: Pass) {
    match p
    case Try(now, queued, stamped, today) => c.clock <= now <= queued <= stamped && c.slots.day <= today
    case GiveBack(at) => c.clock <= at
  }

  function Happen(c: Crawl, p: Pass): Crawl {
    match p
    case Try(now, queued, stamped, today) =>
      var (slots, verdict) := c.slots.Acquire(now, queued, stamped, today);
      if verdict.Granted? then
        Crawl(slots, c.times + [queued], c.grantDays + [today], c.refundDays, stamped)
      else c.(slots := slots, clock := stamped)
    case GiveBack(at) =>
      c.(slots := c.slots.Refund(), clock := at,
         refundDays := if c.slots.requestsToday > 0 then c.refundDays + [c.slots.day] else c.refundDays)
  }

  ghost predicate History(c: Crawl, ps: seq<Pass>)
    decreases |ps|
  {
    ps == [] || (Possible(c, ps[0]) && History(Happen(c, ps[0]), ps[1..]))
  }

  ghost function After(c: Crawl, ps: seq<Pass>): Crawl
    decreases |ps|
  {
    if ps == [] then c else After(Happen(c, ps[0]), ps[1..])
  }

  function CountDay(days: seq<int>, day: int): nat {
    if days == [] then 0
    else CountDay(days[..|days| - 1], day) + (if days[|days| - 1] == day then 1 else 0)
  }

  lemma CountDayAppend(days: seq<int>, d: int, day: int)
    ensures CountDay(days + [d], day) == CountDay(days, day) + (if d == day then 1 else 0)
  {
    assert (days + [d])[..|days|] == days;
  }

  function DailyCap(c: Crawl): nat { if c.slots.dailyLimit >= 0 then c.slots.dailyLimit else 0 }

  /** The day's grants stay covered by its count and its refunds. */
  ghost predicate DaysCovered(c: Crawl) {
    && c.slots.requestsToday >= 0
    && CountDay(c.grantDays, c.slots.day) <= c.slots.requestsToday + CountDay(c.refundDays, c.slots.day)
    && (forall day :: day > c.slots.day ==> CountDay(c.grantDays, day) == 0)
    && (forall day :: CountDay(c.grantDays, day) <= DailyCap(c) + CountDay(c.refundDays, day))
  }

  /** The grants are apart and in order. */
  ghost predicate GrantsApart(c: Crawl) {
    && Ascending(c.times) && Spread(c.times, 1, MIN_DELAY)
    && (c.times != [] ==> c.times[|c.times| - 1] <= c.slots.lastRequest <= c.clock)
  }

  ghost predicate CrawlInv(c: Crawl) { GrantsApart(c) && DaysCovered(c) }

  /** A grant comes only when the last request is MIN_DELAY old: a full burst always waits. */
  lemma GrantMeansSpaced(s: Slots, now: real, queued: real, stamped: real, today: int)
    ensures var (after, verdict) := s.Acquire(now, queued, stamped, today);
            && (verdict.Granted? ==>
                 && now - s.lastRequest >= MIN_DELAY && after.lastRequest == stamped
                 && s.NewDay(today).requestsToday < s.dailyLimit
                 && after.requestsToday == s.NewDay(today).requestsToday + 1)
            && (!verdict.Granted? ==>
                 after.lastRequest == s.lastRequest && after.requestsToday == s.NewDay(today).requestsToday)
            && after.day == today && after.dailyLimit == s.dailyLimit
  {
    NewerThanIsSuffix(s.NewDay(today).recent, now - s.burstWindow);
  }

  /** The section decided: a new day starts empty; with the day's limit reached nothing else happens;
      otherwise the stamps as old as the window leave, and the call is granted exactly if the burst
      has room and the last request is five seconds old.  If not, the wait is half a second past the
      moment the oldest stamp leaves a full burst, or the rest of the five seconds. */
  lemma AcquireIff(s: Slots, now: real, queued: real, stamped: real, today: int)
    ensures var (m, verdict) := s.Acquire(now, queued, stamped, today);
            var count := if s.day == today then s.requestsToday else 0;
            var was := if s.day == today then s.recent else [];
            var kept := NewerThan(was, now - s.burstWindow);
            && (verdict == DailyLimitExceeded <==> count >= s.dailyLimit)
            && (verdict.Granted? <==> count < s.dailyLimit && |kept| < s.burstLimit && now - s.lastRequest >= 5.0)
            && (verdict.Granted? ==> verdict.count == count + 1)
            && (count < s.dailyLimit && |kept| >= s.burstLimit ==>
                  verdict == if kept == [] then IndexFault else Wait(kept[0] + s.burstWindow - now + 0.5))
            && (count < s.dailyLimit && |kept| < s.burstLimit && now - s.lastRequest < 5.0 ==>
                  verdict == Wait(5.0 - (now - s.lastRequest)))
            && m == s.(day := today, requestsToday := if verdict.Granted? then count + 1 else count,
                       recent := if verdict == DailyLimitExceeded then was
                                 else if verdict.Granted? then kept + [queued] else kept,
                       lastRequest := if verdict.Granted? then stamped else s.lastRequest)
  {
    NewerThanIsSuffix(s.NewDay(today).recent, now - s.burstWindow);
  }

  /** A refund gives one of today's requests back if there is one, and touches nothing else. */
  lemma RefundGivesOneBack(s: Slots)
    ensures s.Refund() == s.(requestsToday := if s.requestsToday >= 1 then s.requestsToday - 1 else s.requestsToday)
  {
  }

  lemma SpacedGrant(c: Crawl, p: Pass)
    requires GrantsApart(c) && Possible(c, p) && p.Try?
    ensures GrantsApart(Happen(c, p))
  {
    GrantMeansSpaced(c.slots, p.now, p.queued, p.stamped, p.today);
    if Happen(c, p).times != c.times {
      AscendingAppend(c.times, p.queued);
      var d := Happen(c, p).times;
      forall i, j | 0 <= i <= j < |d| && j - i >= 1 ensures d[j] - d[i] >= MIN_DELAY {
        if j < |c.times| {
          assert c.times[j] - c.times[i] >= MIN_DELAY;
        } else {
          assert c.times[i] <= c.times[|c.times| - 1];
        }
      }
    }
  }

  lemma TryCovers(c: Crawl, p: Pass)
    requires DaysCovered(c) && Possible(c, p) && p.Try?
    ensures DaysCovered(Happen(c, p)) && DailyCap(Happen(c, p)) == DailyCap(c)
  {
    var d := Happen(c, p);
    forall day
      ensures CountDay(d.grantDays, day) <= DailyCap(c) + CountDay(c.refundDays, day)
      ensures day > p.today ==> CountDay(d.grantDays, day) == 0
    {
      assert CountDay(c.grantDays, day) <= DailyCap(c) + CountDay(c.refundDays, day);
      TryBooks(c, p, day);
    }
    TryBooks(c, p, p.today);
  }

  /** A try books at most its grant, on the day of the call, and only below the limit. */
  lemma TryBooks(c: Crawl, p: Pass, day: int)
    requires p.Try? && c.slots.day <= p.today && c.slots.requestsToday >= 0
    requires CountDay(c.grantDays, c.slots.day) <= c.slots.requestsToday + CountDay(c.refundDays, c.slots.day)
    requires p.today > c.slots.day ==> CountDay(c.grantDays, p.today) == 0
    ensures var d := Happen(c, p);
            && d.slots.day == p.today && d.refundDays == c.refundDays && d.slots.requestsToday >= 0
            && (day != p.today ==> CountDay(d.grantDays, day) == CountDay(c.grantDays, day))
            && (day == p.today ==> CountDay(d.grantDays, day) <= d.slots.requestsToday + CountDay(c.refundDays, day))
            && (d.grantDays != c.grantDays ==> d.slots.requestsToday <= c.slots.dailyLimit)
            && d.slots.dailyLimit == c.slots.dailyLimit
  {
    GrantMeansSpaced(c.slots, p.now, p.queued, p.stamped, p.today);
    CountDayAppend(c.grantDays, p.today, day);
  }

  lemma GiveBackCovers(c: Crawl, p: Pass)
    requires DaysCovered(c) && Possible(c, p) && p.GiveBack?
    ensures DaysCovered(Happen(c, p)) && DailyCap(Happen(c, p)) == DailyCap(c)
  {
    forall day ensures CountDay(c.refundDays, day) <= CountDay(Happen(c, p).refundDays, day) {
      RefundBooks(c, p, day);
    }
    RefundBooks(c, p, c.slots.day);
  }

  /** A refund takes from the count what it adds to the refunds of the day. */
  lemma RefundBooks(c: Crawl, p: Pass, day: int)
    requires p.GiveBack? && c.slots.requestsToday >= 0
    ensures var d := Happen(c, p);
            && CountDay(c.refundDays, day) <= CountDay(d.refundDays, day)
            && d.slots.requestsToday >= 0
            && (day == c.slots.day ==> d.slots.requestsToday + CountDay(d.refundDays, day)
                                       == c.slots.requestsToday + CountDay(c.refundDays, day))
  {
    CountDayAppend(c.refundDays, c.slots.day, day);
  }

  lemma PassKeepsInv(c: Crawl, p: Pass)
    requires CrawlInv(c) && Possible(c, p)
    ensures CrawlInv(Happen(c, p)) && DailyCap(Happen(c, p)) == DailyCap(c)
  {
    if p.Try? {
      SpacedGrant(c, p);
      TryCovers(c, p);
    } else {
      GiveBackCovers(c, p);
    }
  }

  lemma {:induction false} HistoryKeepsInv(c: Crawl, ps: seq<Pass>)
    requires CrawlInv(c) && History(c, ps)
    ensures CrawlInv(After(c, ps)) && DailyCap(After(c, ps)) == DailyCap(c)
    decreases |ps|
  {
    if ps != [] {
      PassKeepsInv(c, ps[0]);
      HistoryKeepsInv(Happen(c, ps[0]), ps[1..]);
    }
  }

  /** A limiter as constructed, with the count loaded from its state file. */
  ghost predicate JustStarted(c: Crawl) {
    c.times == [] && c.grantDays == [] && c.refundDays == [] && c.slots.requestsToday >= 0
  }

  function Times(m: nat, d: real): real { if m == 0 then 0.0 else Times(m - 1, d) + d }

  lemma {:induction false} TimesIsProduct(m: nat, d: real)
    ensures Times(m, d) == m as real * d
  {
    if m > 0 {
      TimesIsProduct(m - 1, d);
      OneMore((m - 1) as real, d);
    }
  }

  lemma OneMore(x: real, d: real)
    ensures (x + 1.0) * d == x * d + d
  {
  }

  /** Stamps a delay apart are m delays apart m places on. */
  lemma {:induction false} SpreadScales(ts: seq<real>, m: nat, d: real)
    requires Ascending(ts) && Spread(ts, 1, d) && d >= 0.0
    ensures Spread(ts, m, Times(m, d))
  {
    if m > 0 {
      SpreadScales(ts, m - 1, d);
      forall i, j | 0 <= i <= j < |ts| && j - i >= m ensures ts[j] - ts[i] >= Times(m, d) {
        assert ts[j - 1] - ts[i] >= Times(m - 1, d);
        assert ts[j] - ts[j - 1] >= d;
      }
    }
  }

  /** Even across the midnight clear, grants are MIN_DELAY apart, so any window of m delays or
      less holds at most m; and a day has at most the limit plus that day's refunds. */
  lemma CrawlerKeepsItsLimits(c: Crawl, ps: seq<Pass>, m: nat, window: real, from: real, day: int)
    requires JustStarted(c) && History(c, ps)
    requires 0.0 < window <= m as real * MIN_DELAY
    ensures var d := After(c, ps);
            && Spread(d.times, 1, MIN_DELAY)
            && CountIn(d.times, from, from + window) <= m
            && CountDay(d.grantDays, day) <= DailyCap(c) + CountDay(d.refundDays, day)
  {
    HistoryKeepsInv(c, ps);
    SpacedWindow(After(c, ps).times, m, window, from);
  }

  /** Stamps MIN_DELAY apart leave room for m in a window of m delays. */
  lemma SpacedWindow(ts: seq<real>, m: nat, window: real, from: real)
    requires Ascending(ts) && Spread(ts, 1, MIN_DELAY) && 0.0 < window <= m as real * MIN_DELAY
    ensures CountIn(ts, from, from + window) <= m
  {
    SpreadScales(ts, m, MIN_DELAY);
    TimesIsProduct(m, MIN_DELAY);
    SpreadNarrows(ts, m, Times(m, MIN_DELAY), window);
    SpreadBoundsCount(ts, m, window, from);
  }

  lemma SpreadNarrows(ts: seq<real>, m: nat, wide: real, width: real)
    requires Spread(ts, m, wide) && width <= wide
    ensures Spread(ts, m, width)
  {
  }

  /** The published rule, two requests in ten seconds, follows from the spacing alone. */
  lemma TwoPerTenSeconds(c: Crawl, ps: seq<Pass>, from: real)
    requires JustStarted(c) && History(c, ps)
    ensures CountIn(After(c, ps).times, from, from + 10.0) <= 2
  {
    CrawlerKeepsItsLimits(c, ps, 2, 10.0, from, 0);
  }

  // ---- backtest_collector.py ----

  /** The list comprehension that keeps the requests younger than the window. */
  function Younger(ts: seq<real>, now: real, window: real): seq<real> {
    if ts == [] then []
    else (if now - ts[0] < window then [ts[0]] else []) + Younger(ts[1..], now, window)
  }

  /** On an ascending list the filter is the prune of the other limiters. */
  lemma {:induction false} YoungerIsPrune(ts: seq<real>, now: real, window: real)
    requires Ascending(ts)
    ensures Younger(ts, now, window) == NewerThan(ts, now - window)
  {
    if ts != [] {
      AscendingRest(ts);
      YoungerIsPrune(ts[1..], now, window);
      if ts[0] > now - window {
        AllYounger(ts[1..], now, window, ts[0]);
        assert [ts[0]] + ts[1..] == ts;
      } else {
        assert [] + Younger(ts[1..], now, window) == Younger(ts[1..], now, window);
      }
    }
  }

  lemma AscendingRest(ts: seq<real>)
    requires ts != [] && Ascending(ts)
    ensures Ascending(ts[1..]) && (ts[1..] != [] ==> ts[0] <= ts[1..][0])
  {
    forall i, j | 0 <= i <= j < |ts[1..]| ensures ts[1..][i] <= ts[1..][j] {
      assert ts[i + 1] <= ts[j + 1];
    }
  }

  /** Filtering the next element moves it from the list to what is kept. */
  lemma YoungerStep(kept: seq<real>, all: seq<real>, i: nat, now: real, window: real)
    requires i < |all|
    ensures kept + Younger(all[i..], now, window)
         == (if now - all[i] < window then kept + [all[i]] else kept) + Younger(all[i + 1..], now, window)
  {
    assert all[i..][0] == all[i] && all[i..][1..] == all[i + 1..];
  }

  lemma AllYounger(ts: seq<real>, now: real, window: real, first: real)
    requires Ascending(ts) && first > now - window && (ts != [] ==> first <= ts[0])
    ensures NewerThan(ts, now - window) == ts
  {
  }

  /** The lock section of wait_if_needed. */
  function TryAt(requests: seq<real>, now: real, limit: int, window: real): (seq<real>, Verdict) {
    var kept := Younger(requests, now, window);
    if |kept| < limit then (kept + [now], Granted(|kept| + 1))
    else if kept == [] then (kept, IndexFault)
    else (kept, Wait(window - (now - kept[0]) + 0.1))
  }

  /** The filter keeps exactly the requests younger than the window. */
  lemma {:induction false} YoungerKeeps(ts: seq<real>, now: real, window: real, x: real)
    ensures multiset(Younger(ts, now, window))[x] == if now - x < window then multiset(ts)[x] else 0
  {
    if ts != [] {
      YoungerKeeps(ts[1..], now, window, x);
      assert ts == [ts[0]] + ts[1..];
    }
  }

  /** The section decided: granted and noted exactly with room among the younger requests; otherwise
      a tenth of a second past the moment the oldest of them leaves. */
  lemma TryIff(requests: seq<real>, now: real, limit: int, window: real)
    ensures var (after, verdict) := TryAt(requests, now, limit, window);
            var kept := Younger(requests, now, window);
            && (verdict.Granted? <==> |kept| < limit)
            && (verdict.Granted? ==> after == kept + [now])
            && (!verdict.Granted? ==> after == kept)
            && (|kept| >= limit ==>
                  verdict == if kept == [] then IndexFault else Wait(window - (now - kept[0]) + 0.1))
  {
  }

  class WindowLimiter {
    const maxRequests: int
    const windowSeconds: real
    var requests: seq<real>

    constructor (maxRequests: int, windowSeconds: real)
      ensures requests == [] && this.maxRequests == maxRequests && this.windowSeconds == windowSeconds
    {
      this.maxRequests, this.windowSeconds := maxRequests, windowSeconds;
      requests := [];
    }

    method KeepYounger(all: seq<real>, now: real) returns (kept: seq<real>)
      ensures kept == Younger(all, now, windowSeconds)
    {
      kept := [];
      for i := 0 to |all|
        invariant kept + Younger(all[i..], now, windowSeconds) == Younger(all, now, windowSeconds)
      {
        YoungerStep(kept, all, i, now, windowSeconds);
        if now - all[i] < windowSeconds {
          kept := kept + [all[i]];
        }
      }
    }

    /** The lock section of wait_if_needed: granted, or the seconds to sleep before trying again. */
    method TryOnce(now: real) returns (verdict: Verdict)
      modifies this
      ensures (requests, verdict) == TryAt(old(requests), now, maxRequests, windowSeconds)
    {
      requests := KeepYounger(requests, now);
      if |requests| < maxRequests {
        requests := requests + [now];
        return Granted(|requests|);
      }
      if requests == [] {
        return IndexFault;
      }
      return Wait(windowSeconds - (now - requests[0]) + 0.1);
    }
  }

  /** Grant times and the list after trying at each of the given instants. */
  function Tries(instants: seq<real>, limit: int, window: real): (seq<real>, seq<real>) {
    if instants == [] then ([], [])
    else
      var now := instants[|instants| - 1];
      var (granted, requests) := Tries(instants[..|instants| - 1], limit, window);
      var (after, verdict) := TryAt(requests, now, limit, window);
      (if verdict.Granted? then granted + [now] else granted, after)
  }

  function AtLeastZero(n: int): nat { if n >= 0 then n else 0 }

  /** The list is the suffix of all grants newer than the last cutoff. */
  ghost predicate WindowKept(granted: seq<real>, requests: seq<real>, now: real, limit: int, window: real) {
    && Ascending(granted) && Spread(granted, AtLeastZero(limit), window)
    && (granted != [] ==> granted[|granted| - 1] <= now)
    && requests == NewerThan(granted, now - window)
  }

  lemma FilterKeepsWindow(granted: seq<real>, requests: seq<real>, before: real, now: real, limit: int, window: real)
    requires WindowKept(granted, requests, before, limit, window) && before <= now
    ensures WindowKept(granted, Younger(requests, now, window), now, limit, window)
  {
    NewerThanIsSuffix(granted, before - window);
    NewerThanTwice(granted, before - window, now - window);
    YoungerIsPrune(requests, now, window);
  }

  lemma TryKeepsWindow(granted: seq<real>, requests: seq<real>, before: real, now: real, limit: int, window: real)
    requires WindowKept(granted, requests, before, limit, window) && before <= now && window > 0.0
    ensures var (after, verdict) := TryAt(requests, now, limit, window);
            WindowKept(if verdict.Granted? then granted + [now] else granted, after, now, limit, window)
  {
    FilterKeepsWindow(granted, requests, before, now, limit, window);
    if |Younger(requests, now, window)| < limit {
      GrantKeepsWindow(granted, Younger(requests, now, window), now, limit, window);
    }
  }

  lemma GrantKeepsWindow(granted: seq<real>, kept: seq<real>, now: real, limit: int, window: real)
    requires WindowKept(granted, kept, now, limit, window) && |kept| < limit && window > 0.0
    ensures WindowKept(granted + [now], kept + [now], now, limit, window)
  {
    AscendingAppend(granted, now);
    NewerThanAppend(granted, now, now - window);
    SpreadAppend(granted, now, limit, window);
  }

  lemma {:induction false} TriesKeepWindow(instants: seq<real>, limit: int, window: real)
    requires Ascending(instants) && window > 0.0 && instants != []
    ensures var (granted, requests) := Tries(instants, limit, window);
            WindowKept(granted, requests, instants[|instants| - 1], limit, window)
  {
    var last := |instants| - 1;
    if last == 0 {
      assert instants[..0] == [];
      TryKeepsWindow([], [], instants[0], instants[0], limit, window);
    } else {
      var init := instants[..last];
      TriesKeepWindow(init, limit, window);
      var (granted, requests) := Tries(init, limit, window);
      TryKeepsWindow(granted, requests, init[last - 1], instants[last], limit, window);
    }
  }

  /** For any number of threads: no half-open window of the configured length holds more grants
      than the limit. */
  lemma CollectorLimitIsExact(instants: seq<real>, limit: int, window: real, from: real)
    requires Ascending(instants) && window > 0.0
    ensures CountIn(Tries(instants, limit, window).0, from, from + window) <= AtLeastZero(limit)
  {
    if instants != [] {
      TriesKeepWindow(instants, limit, window);
      SpreadBoundsCount(Tries(instants, limit, window).0, AtLeastZero(limit), window, from);
    }
  }
}
