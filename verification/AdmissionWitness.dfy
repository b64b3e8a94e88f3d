/** The overshoot is real: runs in which all tasks pass the check on the last free slot.

    The daily limit is exceeded by exactly N - 1 whatever the window limit; so is the window limit
    within one day when it is the smaller one; and over one midnight a window holds as much as
    both days and its own cap allow. */
module AdmissionWitness {
  import opened Prelude
  import opened Windows
  import opened RateLimiting
  import opened AdmissionProtocol

  /** Some legal run leads from s to t. */
  ghost predicate Reaches(s: State, t: State) {
    exists ls :: Legal(s, ls) && Run(s, ls) == t
  }

  lemma {:induction false} RunAppend(s: State, a: seq<Label>, b: seq<Label>)
    requires Legal(s, a) && Legal(Run(s, a), b)
    ensures Legal(s, a + b) && Run(s, a + b) == Run(Run(s, a), b)
    decreases |a|
  {
    if a == [] {
      assert a + b == b;
    } else {
      assert (a + b)[1..] == a[1..] + b;
      RunAppend(Next(s, a[0]), a[1..], b);
    }
  }

  lemma ReachesStep(s: State, t: State, l: Label)
    requires Reaches(s, t) && Enabled(t, l)
    ensures Reaches(s, Next(t, l))
  {
    var ls :| Legal(s, ls) && Run(s, ls) == t;
    var u := Next(t, l);
    assert Legal(u, []) && Run(u, []) == u;
    assert [l][1..] == [];
    RunAppend(s, ls, [l]);
  }

  lemma ReachesTransitive(s: State, t: State, u: State)
    requires Reaches(s, t) && Reaches(t, u)
    ensures Reaches(s, u)
  {
    var a :| Legal(s, a) && Run(s, a) == t;
    var b :| Legal(t, b) && Run(t, b) == u;
    RunAppend(s, a, b);
  }

  lemma ReachesSelf(s: State)
    ensures Reaches(s, s)
  {
    assert Legal(s, []) && Run(s, []) == s;
  }

  // ---- Calls of one category without a bucket limit ----

  const CALL: Request := Request("k", 1, true)

  predicate Unlimited(s: State) { "k" in s.lim.buckets && s.lim.buckets["k"].maxTokens <= 0.0 }

  /** k grants made at the same instant. */
  function Calls(k: nat, at: real, day: int): seq<Grant> { seq(k, i => Grant(at, day, "k", 1, 0.0)) }

  /** Today's count is `count`, w stamps are in the window, none of them in the future; the tasks
      before hi are past the check and the others idle. */
  ghost predicate Filling(s: State, hi: nat, count: int, w: nat) {
    && s.lim.dailyDate == Some(s.today) && s.lim.dailyCount == count
    && (forall t :: t in s.lim.window ==> t <= s.now)
    && |NewerThan(s.lim.window, s.now - FIVE_MINUTES)| == w
    && Unlimited(s) && TasksArmed(s.tasks, 0, hi)
  }

  /** Exactly the tasks from lo to hi are past the check. */
  ghost predicate TasksArmed(tasks: seq<Task>, lo: nat, hi: nat) {
    hi <= |tasks| && forall i :: 0 <= i < |tasks| ==> tasks[i] == if lo <= i < hi then Armed(CALL) else Idle
  }

  /** Same limits and tasks, at the same instant. */
  ghost predicate SameMoment(s: State, t: State) {
    SameSetup(s, t) && t.now == s.now && t.today == s.today
  }

  /** Task hi asks and passes the check. */
  lemma Arms(s: State, hi: nat, count: int, w: nat) returns (t: State)
    requires Filling(s, hi, count, w) && hi < |s.tasks| && count < s.lim.dailyLimit && w < s.lim.fiveMinLimit
    ensures Filling(t, hi + 1, count, w) && SameMoment(s, t) && t.log == s.log && Reaches(s, t)
  {
    var asking := Next(s, Begin(hi, CALL));
    PassMeansRoom(s.lim, s.now, s.today, s.toMidnight, true);
    NewerThanIsSuffix(s.lim.window, s.now - FIVE_MINUTES);
    NewerThanTwice(s.lim.window, s.now - FIVE_MINUTES, s.now - FIVE_MINUTES);
    t := Next(asking, Check(hi));
    assert forall x :: x in t.lim.window ==> x in s.lim.window;
    ReachesSelf(s);
    ReachesStep(s, s, Begin(hi, CALL));
    ReachesStep(s, asking, Check(hi));
  }

  lemma {:induction false} AllArm(s: State, k: nat, count: int, w: nat) returns (t: State)
    requires Filling(s, 0, count, w) && k <= |s.tasks| && count < s.lim.dailyLimit && w < s.lim.fiveMinLimit
    ensures Filling(t, k, count, w) && SameMoment(s, t) && t.log == s.log && Reaches(s, t)
    decreases k
  {
    if k == 0 {
      ReachesSelf(s);
      t := s;
    } else {
      var u := AllArm(s, k - 1, count, w);
      t := Arms(u, k - 1, count, w);
      ReachesTransitive(s, u, t);
    }
  }

  /** What a take on the unlimited category does to the limiter. */
  lemma UnlimitedTakes(lim: LimiterState, now: real, today: int)
    requires "k" in lim.buckets && lim.buckets["k"].maxTokens <= 0.0
    ensures var (after, wait) := lim.TakeTokens("k", 1, now, today);
            wait.None? && "k" in after.buckets && after.buckets["k"].maxTokens <= 0.0
  {
  }

  /** Task i of a day already entered is granted. */
  lemma TakeGrants(s: State, i: nat)
    requires i < |s.tasks| && s.tasks[i] == Armed(CALL) && Unlimited(s) && s.lim.dailyDate == Some(s.today)
    ensures var t := Next(s, Take(i));
            && SameMoment(s, t) && t.tasks == s.tasks[i := Idle] && Unlimited(t)
            && t.log == s.log + Calls(1, s.now, s.today)
            && t.lim.dailyCount == s.lim.dailyCount + 1 && t.lim.dailyDate == s.lim.dailyDate
            && t.lim.window == s.lim.window + [s.now]
  {
    TakeCounters(s.lim, "k", 1, s.now, s.today);
    UnlimitedTakes(s.lim, s.now, s.today);
    assert [Grant(s.now, s.today, "k", 1, 0.0)] == Calls(1, s.now, s.today);
  }

  /** The window gains the stamp of now. */
  lemma WindowGrows(window: seq<real>, now: real, w: nat)
    requires (forall t :: t in window ==> t <= now) && |NewerThan(window, now - FIVE_MINUTES)| == w
    ensures |NewerThan(window + [now], now - FIVE_MINUTES)| == w + 1
    ensures forall t :: t in window + [now] ==> t <= now
  {
    NewerThanAppend(window, now, now - FIVE_MINUTES);
  }

  /** The k tasks from lo on are all granted. */
  lemma {:induction false} AllFire(s: State, lo: nat, k: nat, w: nat) returns (t: State)
    requires TasksArmed(s.tasks, lo, lo + k) && Unlimited(s) && s.lim.dailyDate == Some(s.today)
    requires (forall x :: x in s.lim.window ==> x <= s.now) && |NewerThan(s.lim.window, s.now - FIVE_MINUTES)| == w
    ensures Filling(t, 0, s.lim.dailyCount + k, w + k) && SameMoment(s, t)
    ensures t.log == s.log + Calls(k, s.now, s.today) && Reaches(s, t)
    decreases k
  {
    if k == 0 {
      ReachesSelf(s);
      t := s;
    } else {
      TakeGrants(s, lo);
      WindowGrows(s.lim.window, s.now, w);
      var u := Next(s, Take(lo));
      t := AllFire(u, lo + 1, k - 1, w + 1);
      assert Calls(1, s.now, s.today) + Calls(k - 1, s.now, s.today) == Calls(k, s.now, s.today);
      ReachesSelf(s);
      ReachesStep(s, s, Take(lo));
      ReachesTransitive(s, u, t);
    }
  }

  /** `hi` tasks pass the check on the same slot, and all are granted. */
  lemma Volley(s: State, hi: nat, count: int, w: nat) returns (t: State)
    requires Filling(s, 0, count, w) && hi <= |s.tasks| && count < s.lim.dailyLimit && w < s.lim.fiveMinLimit
    ensures Filling(t, 0, count + hi, w + hi) && SameMoment(s, t)
    ensures t.log == s.log + Calls(hi, s.now, s.today) && Reaches(s, t)
  {
    var armed := AllArm(s, hi, count, w);
    t := AllFire(armed, 0, hi, w);
    ReachesTransitive(s, armed, t);
  }

  /** One task after the other is granted, k times. */
  lemma {:induction false} OneByOne(s: State, k: nat, count: int, w: nat) returns (t: State)
    requires Filling(s, 0, count, w) && s.tasks != [] && count + k <= s.lim.dailyLimit && w + k <= s.lim.fiveMinLimit
    ensures Filling(t, 0, count + k, w + k) && SameMoment(s, t)
    ensures t.log == s.log + Calls(k, s.now, s.today) && Reaches(s, t)
    decreases k
  {
    if k == 0 {
      ReachesSelf(s);
      t := s;
    } else {
      var u := Volley(s, 1, count, w);
      t := OneByOne(u, k - 1, count + 1, w + 1);
      assert Calls(1, s.now, s.today) + Calls(k - 1, s.now, s.today) == Calls(k, s.now, s.today);
      ReachesTransitive(s, u, t);
    }
  }

  // ---- Tallies ----

  lemma {:induction false} CallsOnDay(log: seq<Grant>, k: nat, at: real, day: int, d: int)
    ensures GrantsOn(log + Calls(k, at, day), d) == GrantsOn(log, d) + (if d == day then k else 0)
  {
    if k == 0 {
      assert log + Calls(0, at, day) == log;
    } else {
      CallsOnDay(log, k - 1, at, day, d);
      assert log + Calls(k, at, day) == (log + Calls(k - 1, at, day)) + [Grant(at, day, "k", 1, 0.0)];
      GrantsOnAppend(log + Calls(k - 1, at, day), Grant(at, day, "k", 1, 0.0), d);
    }
  }

  /** A log made at one instant lies in the window that begins there. */
  lemma {:induction false} AllInWindow(log: seq<Grant>, at: real)
    requires forall g :: g in log ==> g.at == at
    ensures CountIn(Times(log), at, at + FIVE_MINUTES) == |log|
  {
    if log != [] {
      var init := log[..|log| - 1];
      AllInWindow(init, at);
      assert Times(log)[..|log| - 1] == Times(init);
      assert log[|log| - 1] in log;
    }
  }

  /** A fresh limiter on day 0, with a category without a bucket limit. */
  ghost function Fresh(daily: int, five: int, n: nat): State {
    State(LimiterState(daily, five, 0, Some(0), [], map["k" := FreshBucket(0, 0.0)]),
          seq(n, i => Idle), 0.0, 0, 1.0, 0.0 - FIVE_MINUTES, [])
  }

  lemma FreshFills(daily: int, five: int, n: nat)
    requires n >= 1
    ensures var s := Fresh(daily, five, n);
            Initial(s) && Filling(s, 0, 0, 0) && |s.tasks| == n
            && s.lim.dailyLimit == daily && s.lim.fiveMinLimit == five
  {
  }

  /** With m the smaller limit, N tasks can make m - 1 + N grants in one day and one window. */
  lemma OvershootIsReached(daily: int, five: int, n: nat)
    requires daily >= 1 && five >= 1 && n >= 1
    ensures var s := Fresh(daily, five, n);
            var m := if daily <= five then daily else five;
            && Initial(s) && |s.tasks| == n
            && exists ls ::
                 && Legal(s, ls)
                 && GrantsOn(Run(s, ls).log, 0) == Cap(m, n)
                 && CountIn(Times(Run(s, ls).log), 0.0, FIVE_MINUTES) == Cap(m, n)
  {
    var s, m := Fresh(daily, five, n), if daily <= five then daily else five;
    FreshFills(daily, five, n);
    var t := Overshoot(s, m);
    var ls :| Legal(s, ls) && Run(s, ls) == t;
  }

  lemma Overshoot(s: State, m: nat) returns (t: State)
    requires Filling(s, 0, 0, 0) && s.tasks != [] && s.log == []
    requires 1 <= m <= s.lim.dailyLimit && m <= s.lim.fiveMinLimit
    ensures Reaches(s, t) && GrantsOn(t.log, s.today) == Cap(m, |s.tasks|)
    ensures CountIn(Times(t.log), s.now, s.now + FIVE_MINUTES) == Cap(m, |s.tasks|)
  {
    var u := OneByOne(s, m - 1, 0, 0);
    t := Volley(u, |s.tasks|, m - 1, m - 1);
    ReachesTransitive(s, u, t);
    CallsOnDay(s.log, m - 1, s.now, s.today, s.today);
    CallsOnDay(u.log, |s.tasks|, s.now, s.today, s.today);
    AllInWindow(t.log, s.now);
  }

  // ---- The daily cap, with windows in between ----

  lemma {:induction false} AllAged(ts: seq<real>, cutoff: real)
    requires forall t :: t in ts ==> t <= cutoff
    ensures NewerThan(ts, cutoff) == []
  {
    if ts != [] {
      assert ts[0] in ts && forall t :: t in ts[1..] ==> t in ts;
      AllAged(ts[1..], cutoff);
    }
  }

  /** Five minutes later the window is empty. */
  lemma WindowEmpties(s: State, count: int, w: nat) returns (t: State)
    requires Filling(s, 0, count, w)
    ensures Filling(t, 0, count, 0) && t == s.(now := s.now + FIVE_MINUTES, toMidnight := 1.0) && Reaches(s, t)
  {
    var tick := Tick(FIVE_MINUTES, s.today, 1.0);
    t := Next(s, tick);
    AllAged(s.lim.window, t.now - FIVE_MINUTES);
    ReachesSelf(s);
    ReachesStep(s, s, tick);
  }

  /** Windows filled one after the other: q full ones and r requests in the next. */
  lemma {:induction false} WindowByWindow(s: State, q: nat, r: nat, count: int) returns (t: State)
    requires Filling(s, 0, count, 0) && s.tasks != [] && r < s.lim.fiveMinLimit
    requires count + q * s.lim.fiveMinLimit + r <= s.lim.dailyLimit
    ensures Filling(t, 0, count + q * s.lim.fiveMinLimit + r, r) && SameSetup(s, t) && t.today == s.today
    ensures t.now == s.now + q as real * FIVE_MINUTES && Reaches(s, t)
    ensures GrantsOn(t.log, s.today) == GrantsOn(s.log, s.today) + q * s.lim.fiveMinLimit + r
    decreases q
  {
    if q == 0 {
      t := OneByOne(s, r, count, 0);
      CallsOnDay(s.log, r, s.now, s.today, s.today);
    } else {
      var five := s.lim.fiveMinLimit;
      assert q * five == five + (q - 1) * five && (q - 1) * five >= 0;
      var full := OneByOne(s, five, count, 0);
      CallsOnDay(s.log, five, s.now, s.today, s.today);
      var empty := WindowEmpties(full, count + five, five);
      t := WindowByWindow(empty, q - 1, r, count + five);
      ReachesTransitive(s, full, empty);
      ReachesTransitive(s, empty, t);
    }
  }

  lemma Quotient(x: nat, d: nat)
    requires d >= 1
    ensures x == (x / d) * d + x % d && x % d < d
  {
  }

  /** For every daily limit, every window limit and every N the cap of DailyCapHolds is reached,
      within five minutes for every full window that fits the daily limit less one. */
  lemma DailyOvershootIsReached(daily: int, five: int, n: nat)
    requires daily >= 1 && five >= 1 && n >= 1
    ensures var s := Fresh(daily, five, n);
            && Initial(s) && |s.tasks| == n
            && exists ls ::
                 && Legal(s, ls) && GrantsOn(Run(s, ls).log, 0) == Cap(daily, n)
                 && Run(s, ls).now == s.now + ((daily - 1) / five) as real * FIVE_MINUTES
  {
    var s := Fresh(daily, five, n);
    FreshFills(daily, five, n);
    var t := DailyOvershoot(s);
    var ls :| Legal(s, ls) && Run(s, ls) == t;
  }

  lemma DailyOvershoot(s: State) returns (t: State)
    requires Filling(s, 0, 0, 0) && s.tasks != [] && s.log == [] && s.lim.dailyLimit >= 1 && s.lim.fiveMinLimit >= 1
    ensures Reaches(s, t) && GrantsOn(t.log, s.today) == Cap(s.lim.dailyLimit, |s.tasks|)
    ensures t.now == s.now + ((s.lim.dailyLimit - 1) / s.lim.fiveMinLimit) as real * FIVE_MINUTES
  {
    var last := s.lim.dailyLimit - 1;
    var q, r := last / s.lim.fiveMinLimit, last % s.lim.fiveMinLimit;
    Quotient(last, s.lim.fiveMinLimit);
    var u := WindowByWindow(s, q, r, 0);
    t := Volley(u, |s.tasks|, last, r);
    CallsOnDay(u.log, |s.tasks|, u.now, s.today, s.today);
    ReachesTransitive(s, u, t);
  }

  // ---- A window over one midnight ----

  lemma {:induction false} TwoDaysCover(log: seq<Grant>, from: real, d: int, e: int)
    requires forall g :: g in log && from <= g.at < from + FIVE_MINUTES ==> g.day == d || g.day == e
    ensures CountIn(Times(log), from, from + FIVE_MINUTES) <= GrantsOn(log, d) + GrantsOn(log, e)
  {
    if log != [] {
      var init := log[..|log| - 1];
      TwoDaysCover(init, from, d, e);
      assert Times(log)[..|log| - 1] == Times(init);
      assert log[|log| - 1] in log;
    }
  }

  /** The most a window over one midnight can hold: its own cap, and that of both days. */
  function MidnightCap(daily: int, five: int, n: nat): nat {
    if Cap(five, n) <= 2 * Cap(daily, n) then Cap(five, n) else 2 * Cap(daily, n)
  }

  lemma WindowOverOneMidnight(s: State, ls: seq<Label>, from: real, d: int, e: int)
    requires Initial(s) && Legal(s, ls)
    requires forall g :: g in Run(s, ls).log && from <= g.at < from + FIVE_MINUTES ==> g.day == d || g.day == e
    ensures CountIn(Times(Run(s, ls).log), from, from + FIVE_MINUTES)
         <= MidnightCap(s.lim.dailyLimit, s.lim.fiveMinLimit, |s.tasks|)
  {
    WindowCapHolds(s, ls, from);
    DailyCapHolds(s, ls, d);
    DailyCapHolds(s, ls, e);
    TwoDaysCover(Run(s, ls).log, from, d, e);
  }

  /** Midnight passes and status() notices. */
  lemma DayTurns(s: State, count: int, w: nat) returns (t: State)
    requires Filling(s, 0, count, w)
    ensures Filling(t, 0, 0, w) && SameSetup(s, t) && t.now == s.now && t.today == s.today + 1 && t.log == s.log
    ensures Reaches(s, t)
  {
    var tick := Tick(0.0, s.today + 1, 1.0);
    var next := Next(s, tick);
    t := Next(next, Observe);
    NewerThanIsSuffix(s.lim.window, s.now - FIVE_MINUTES);
    NewerThanTwice(s.lim.window, s.now - FIVE_MINUTES, s.now - FIVE_MINUTES);
    assert forall x :: x in t.lim.window ==> x in s.lim.window;
    ReachesSelf(s);
    ReachesStep(s, s, tick);
    ReachesStep(s, next, Observe);
  }

  /** The first day's part of `total` requests: one by one, and the overshoot as one volley. */
  lemma FirstDay(s: State, total: nat) returns (t: State)
    requires Filling(s, 0, 0, 0) && s.tasks != [] && s.lim.dailyLimit >= 1
    requires total <= s.lim.dailyLimit - 1 + |s.tasks| && total < s.lim.fiveMinLimit
    ensures Filling(t, 0, total, total) && SameMoment(s, t) && t.log == s.log + Calls(total, s.now, s.today)
    ensures Reaches(s, t)
  {
    if total <= s.lim.dailyLimit - 1 {
      t := OneByOne(s, total, 0, 0);
    } else {
      var k := s.lim.dailyLimit - 1;
      var u := OneByOne(s, k, 0, 0);
      t := Volley(u, total - k, k, k);
      assert Calls(k, s.now, s.today) + Calls(total - k, s.now, s.today) == Calls(total, s.now, s.today);
      ReachesTransitive(s, u, t);
    }
  }

  /** For all limits and every N a window over one midnight reaches the cap of
      WindowOverOneMidnight: so many requests before midnight and after it. */
  lemma MidnightOvershootIsReached(daily: int, five: int, n: nat)
    requires daily >= 1 && five >= 1 && n >= 1
    ensures var s := Fresh(daily, five, n);
            && Initial(s) && |s.tasks| == n
            && exists ls ::
                 && Legal(s, ls) && (forall g :: g in Run(s, ls).log ==> g.day == 0 || g.day == 1)
                 && CountIn(Times(Run(s, ls).log), 0.0, FIVE_MINUTES) == MidnightCap(daily, five, n)
  {
    var s := Fresh(daily, five, n);
    FreshFills(daily, five, n);
    var t := MidnightOvershoot(s);
    var ls :| Legal(s, ls) && Run(s, ls) == t;
  }

  /** The second day: `most` requests in the window, then all tasks on the last slot. */
  lemma SecondDay(s: State, w: nat, most: nat) returns (t: State)
    requires Filling(s, 0, 0, w) && s.tasks != [] && w <= most < s.lim.fiveMinLimit
    requires most - w < s.lim.dailyLimit
    ensures Reaches(s, t) && t.log == s.log + Calls(most - w + |s.tasks|, s.now, s.today)
  {
    var u := OneByOne(s, most - w, 0, w);
    t := Volley(u, |s.tasks|, most - w, most);
    ReachesTransitive(s, u, t);
    assert Calls(most - w, s.now, s.today) + Calls(|s.tasks|, s.now, s.today)
        == Calls(most - w + |s.tasks|, s.now, s.today);
  }

  lemma TwoDayLog(log: seq<Grant>, before: nat, after: nat, at: real, day: int)
    requires log == [] + Calls(before, at, day) + Calls(after, at, day + 1)
    ensures CountIn(Times(log), at, at + FIVE_MINUTES) == before + after
    ensures forall g :: g in log ==> g.day == day || g.day == day + 1
  {
    AllInWindow(log, at);
  }

  /** `before` requests on the first day, and what brings the window to `most` plus all tasks on
      the second. */
  lemma BothDays(s: State, before: nat, most: nat) returns (t: State)
    requires Filling(s, 0, 0, 0) && s.tasks != [] && s.lim.dailyLimit >= 1
    requires before <= most < s.lim.fiveMinLimit && before <= s.lim.dailyLimit - 1 + |s.tasks|
    requires most - before < s.lim.dailyLimit
    ensures Reaches(s, t)
    ensures t.log == s.log + Calls(before, s.now, s.today) + Calls(most - before + |s.tasks|, s.now, s.today + 1)
  {
    var eve := FirstDay(s, before);
    var morning := DayTurns(eve, before, before);
    ReachesTransitive(s, eve, morning);
    t := SecondDay(morning, before, most);
    ReachesTransitive(s, morning, t);
  }

  lemma MidnightParts(daily: int, five: int, n: nat) returns (before: nat, most: nat)
    requires daily >= 1 && five >= 1 && n >= 1
    ensures most + n == MidnightCap(daily, five, n) && before <= most < five
    ensures before <= daily - 1 + n && most - before < daily
  {
    most := MidnightCap(daily, five, n) - n;
    before := if most <= daily - 1 + n then most else daily - 1 + n;
  }

  lemma MidnightOvershoot(s: State) returns (t: State)
    requires Filling(s, 0, 0, 0) && s.tasks != [] && s.log == [] && s.lim.dailyLimit >= 1 && s.lim.fiveMinLimit >= 1
    ensures Reaches(s, t) && forall g :: g in t.log ==> g.day == s.today || g.day == s.today + 1
    ensures CountIn(Times(t.log), s.now, s.now + FIVE_MINUTES)
         == MidnightCap(s.lim.dailyLimit, s.lim.fiveMinLimit, |s.tasks|)
  {
    var before, most := MidnightParts(s.lim.dailyLimit, s.lim.fiveMinLimit, |s.tasks|);
    t := BothDays(s, before, most);
    TwoDayLog(t.log, before, most - before + |s.tasks|, s.now, s.today);
  }
}
