/** N tasks inside RateLimiter.acquire, interleaved between awaits.

    A label is one atomic step: a lock section, a clock tick, a cancellation, a status() or a
    configure() call.  Checks and records sit in different sections, so each cap can be
    overshot by the tasks that passed a check before the others recorded - by N - 1 and, as
    AdmissionWitness shows, by no less. */
module AdmissionProtocol {
  import opened Prelude
  import opened Windows
  import opened RateLimiting

  datatype Request = Request(key: string, tokens: nat, failFast: bool)

  /** Where a task is: at the first check (asleep until `wake`), past it, at the check after
      the bucket sleep, or past that one. */
  datatype Task =
    | Idle
    | Checking(r: Request, wake: real)
    | Armed(r: Request)
    | Rechecking(r: Request, wake: real)
    | Rearmed(r: Request)
  {
    predicate Holds() { Armed? || Rearmed? }
  }

  /** One granted request; `forgiven` is what the clamp at zero let through unpaid. */
  datatype Grant = Grant(at: real, day: int, key: string, tokens: nat, forgiven: real)

  /** `pruned` is the last cutoff applied to the window; `log` every grant ever made. */
  datatype State = State(
    lim: LimiterState, tasks: seq<Task>,
    now: real, today: int, toMidnight: real,
    pruned: real, log: seq<Grant>)

  datatype Label =
    | Tick(seconds: real, day: int, untilMidnight: real)
    | Begin(i: nat, r: Request)
    | Check(i: nat)
    | Take(i: nat)
    | Recheck(i: nat)
    | Consume(i: nat)
    | Cancel(i: nat)
    | Observe
    | Configure(key: string, requestsPerMinute: int)

  predicate Enabled(s: State, l: Label) {
    match l
    case Tick(dt, day, left) => dt >= 0.0 && day >= s.today && left > 0.0
    case Begin(i, _) => i < |s.tasks| && s.tasks[i].Idle?
    case Check(i) => i < |s.tasks| && s.tasks[i].Checking? && s.tasks[i].wake <= s.now
    case Take(i) => i < |s.tasks| && s.tasks[i].Armed?
    case Recheck(i) => i < |s.tasks| && s.tasks[i].Rechecking? && s.tasks[i].wake <= s.now
    case Consume(i) => i < |s.tasks| && s.tasks[i].Rearmed?
    case Cancel(i) => i < |s.tasks| && !s.tasks[i].Idle?
    case Observe => true
    case Configure(_, _) => true
  }

  function Move(s: State, i: nat, t: Task): State
    requires i < |s.tasks|
  {
    s.(tasks := s.tasks[i := t])
  }

  function Record(s: State, i: nat, lim: LimiterState, r: Request, forgiven: real): State
    requires i < |s.tasks|
  {
    Move(s, i, Idle).(lim := lim, log := s.log + [Grant(s.now, s.today, r.key, r.tokens, forgiven)])
  }

  function CheckStep(s: State, i: nat, r: Request, passed: Task, again: real -> Task): State
    requires i < |s.tasks|
  {
    var (lim, verdict) := s.lim.CheckGlobals(s.now, s.today, s.toMidnight, r.failFast);
    var task := match verdict
      case Pass => passed
      case Sleep(seconds) => again(s.now + Min(seconds, MAX_SLEEP))
      case _ => Idle;
    Move(s, i, task).(lim := lim, pruned := if verdict.Exhausted? then s.pruned else s.now - FIVE_MINUTES)
  }

  function Next(s: State, l: Label): State
    requires Enabled(s, l)
  {
    match l
    case Tick(dt, day, left) => s.(now := s.now + dt, today := day, toMidnight := left)
    case Begin(i, r) => Move(s, i, Checking(r, s.now))
    case Check(i) =>
      var r := s.tasks[i].r;
      CheckStep(s, i, r, Armed(r), wake => Checking(r, wake))
    case Take(i) =>
      var r := s.tasks[i].r;
      var (lim, wait) := s.lim.TakeTokens(r.key, r.tokens, s.now, s.today);
      if wait.None? then Record(s, i, lim, r, 0.0)
      else Move(s, i, Rechecking(r, s.now + wait.value)).(lim := lim)
    case Recheck(i) =>
      var r := s.tasks[i].r;
      CheckStep(s, i, r, Rearmed(r), wake => Rechecking(r, wake))
    case Consume(i) =>
      var r := s.tasks[i].r;
      Record(s, i, s.lim.ConsumeTokens(r.key, r.tokens, s.now, s.today), r, Forgiven(s, r))
    case Cancel(i) => Move(s, i, Idle)
    case Observe => s.(lim := s.lim.Observe(s.now, s.today), pruned := s.now - FIVE_MINUTES)
    case Configure(key, rpm) => s.(lim := s.lim.Configure(key, rpm, s.now))
  }

  /** The part of a request the bucket cannot pay for at the last section. */
  function Forgiven(s: State, r: Request): real {
    if r.key in s.lim.buckets then Max(0.0, r.tokens as real - s.lim.buckets[r.key].Level(s.now)) else 0.0
  }

  /** Where a check leaves its task: past it with room; asleep for what it was told, ten seconds at
      most, to look again; or out, if the call is fail-fast and the day used up. */
  lemma CheckLeads(s: State, i: nat)
    requires i < |s.tasks| && (s.tasks[i].Checking? || s.tasks[i].Rechecking?) && s.tasks[i].wake <= s.now
    ensures var first, r := s.tasks[i].Checking?, s.tasks[i].r;
            var t := Next(s, if first then Check(i) else Recheck(i));
            var (lim, verdict) := s.lim.CheckGlobals(s.now, s.today, s.toMidnight, r.failFast);
            && t.lim == lim && t.log == s.log && t.now == s.now && |t.tasks| == |s.tasks|
            && (forall j :: 0 <= j < |s.tasks| && j != i ==> t.tasks[j] == s.tasks[j])
            && (verdict == Pass ==> t.tasks[i] == if first then Armed(r) else Rearmed(r))
            && (verdict.Sleep? ==>
                  var wake := s.now + if verdict.seconds < 10.0 then verdict.seconds else 10.0;
                  t.tasks[i] == if first then Checking(r, wake) else Rechecking(r, wake))
            && (verdict == Exhausted ==> t.tasks[i] == Idle)
  {
  }

  /** Where the bucket section leaves its task: out and granted, or asleep until its deficit is
      there; and the last section always grants, for the request that was asked. */
  lemma BucketLeads(s: State, i: nat)
    requires i < |s.tasks| && (s.tasks[i].Armed? || s.tasks[i].Rearmed?)
    ensures var first, r := s.tasks[i].Armed?, s.tasks[i].r;
            var t := Next(s, if first then Take(i) else Consume(i));
            var (lim, wait) := s.lim.TakeTokens(r.key, r.tokens, s.now, s.today);
            var asleep := first && wait.Some?;
            && t.lim == (if first then lim else s.lim.ConsumeTokens(r.key, r.tokens, s.now, s.today))
            && t.tasks == s.tasks[i := if asleep then Rechecking(r, s.now + wait.value) else Idle]
            && (asleep ==> t.log == s.log)
            && (!asleep ==> |t.log| == |s.log| + 1 && t.log[..|s.log|] == s.log
                            && t.log[|s.log|] == Grant(s.now, s.today, r.key, r.tokens, t.log[|s.log|].forgiven))
  {
  }

  ghost predicate Legal(s: State, ls: seq<Label>)
    decreases |ls|
  {
    ls == [] || (Enabled(s, ls[0]) && Legal(Next(s, ls[0]), ls[1..]))
  }

  ghost function Run(s: State, ls: seq<Label>): State
    requires Legal(s, ls)
    decreases |ls|
  {
    if ls == [] then s else Run(Next(s, ls[0]), ls[1..])
  }

  /** The limits and the number of tasks never change. */
  ghost predicate SameSetup(s: State, t: State) {
    t.lim.dailyLimit == s.lim.dailyLimit && t.lim.fiveMinLimit == s.lim.fiveMinLimit && |t.tasks| == |s.tasks|
  }

  lemma StepKeepsSetup(s: State, l: Label)
    requires Enabled(s, l)
    ensures SameSetup(s, Next(s, l))
  {
  }

  lemma {:induction false} RunKeepsSetup(s: State, ls: seq<Label>)
    requires Legal(s, ls)
    ensures SameSetup(s, Run(s, ls))
    decreases |ls|
  {
    if ls != [] {
      StepKeepsSetup(s, ls[0]);
      RunKeepsSetup(Next(s, ls[0]), ls[1..]);
    }
  }

  /** A fresh limiter, or one whose count was seeded, with N idle tasks and no grants yet. */
  ghost predicate Initial(s: State) {
    && s.log == [] && s.lim.window == []
    && (forall i :: 0 <= i < |s.tasks| ==> s.tasks[i].Idle?)
    && (s.lim.dailyDate.Some? ==> s.lim.dailyDate.value <= s.today)
    && 0 <= s.lim.dailyCount <= Cap(s.lim.dailyLimit, |s.tasks|)
    && s.toMidnight > 0.0 && s.pruned <= s.now - FIVE_MINUTES
  }

  function Times(log: seq<Grant>): seq<real> { seq(|log|, i requires 0 <= i < |log| => log[i].at) }

  function GrantsOn(log: seq<Grant>, day: int): nat {
    if log == [] then 0
    else GrantsOn(log[..|log| - 1], day) + (if log[|log| - 1].day == day then 1 else 0)
  }

  function Holding(tasks: seq<Task>): nat {
    if tasks == [] then 0
    else Holding(tasks[..|tasks| - 1]) + (if tasks[|tasks| - 1].Holds() then 1 else 0)
  }

  // ---- The daily cap ----

  /** Count plus the tasks past a check but not recorded never exceeds the cap, and the count
      covers the grants of its day. */
  ghost predicate DailyInv(s: State) {
    && 0 <= s.lim.dailyCount
    && s.lim.dailyCount + Holding(s.tasks) <= Cap(s.lim.dailyLimit, |s.tasks|)
    && (s.lim.dailyDate.Some? ==> s.lim.dailyDate.value <= s.today)
    && (forall g :: g in s.log ==> s.lim.dailyDate.Some? && g.day <= s.lim.dailyDate.value)
    && (s.lim.dailyDate.Some? ==> GrantsOn(s.log, s.lim.dailyDate.value) <= s.lim.dailyCount)
    && (forall d :: GrantsOn(s.log, d) <= Cap(s.lim.dailyLimit, |s.tasks|))
  }

  lemma {:induction false} HoldingUpdate(tasks: seq<Task>, i: nat, t: Task)
    requires i < |tasks|
    ensures Holding(tasks[i := t]) + (if tasks[i].Holds() then 1 else 0)
         == Holding(tasks) + (if t.Holds() then 1 else 0)
  {
    var last := |tasks| - 1;
    if i == last {
      assert tasks[i := t][..last] == tasks[..last];
    } else {
      assert tasks[i := t][..last] == tasks[..last][i := t];
      HoldingUpdate(tasks[..last], i, t);
    }
  }

  lemma {:induction false} HoldingBound(tasks: seq<Task>)
    ensures Holding(tasks) <= |tasks|
    ensures (forall i :: 0 <= i < |tasks| ==> tasks[i].Idle?) ==> Holding(tasks) == 0
  {
    if tasks != [] {
      HoldingBound(tasks[..|tasks| - 1]);
    }
  }

  lemma {:induction false} NoGrantsLater(log: seq<Grant>, day: int)
    requires forall g :: g in log ==> g.day != day
    ensures GrantsOn(log, day) == 0
  {
    if log != [] {
      NoGrantsLater(log[..|log| - 1], day);
    }
  }

  lemma GrantsOnAppend(log: seq<Grant>, g: Grant, day: int)
    ensures GrantsOn(log + [g], day) == GrantsOn(log, day) + (if g.day == day then 1 else 0)
  {
    assert (log + [g])[..|log|] == log;
  }

  lemma DailyReset(s: State, lim: LimiterState)
    requires DailyInv(s) && lim.dailyLimit == s.lim.dailyLimit
    requires lim.dailyCount == s.lim.ResetDaily(s.today).dailyCount
    requires lim.dailyDate == Some(s.today)
    ensures DailyInv(s.(lim := lim))
  {
    HoldingBound(s.tasks);
    if s.lim.dailyDate != Some(s.today) {
      NoGrantsLater(s.log, s.today);
    }
  }

  lemma DailyCheck(s: State, i: nat, r: Request, passed: Task, again: real -> Task)
    requires DailyInv(s) && i < |s.tasks| && !s.tasks[i].Holds()
    requires forall w :: !again(w).Holds()
    ensures DailyInv(CheckStep(s, i, r, passed, again))
  {
    var (lim, verdict) := s.lim.CheckGlobals(s.now, s.today, s.toMidnight, r.failFast);
    DailyReset(s, lim);
    var t := CheckStep(s, i, r, passed, again).tasks[i];
    HoldingUpdate(s.tasks, i, t);
    HoldingBound(s.tasks[i := t]);
    PassMeansRoom(s.lim, s.now, s.today, s.toMidnight, r.failFast);
  }

  lemma DailyRecord(s: State, i: nat, lim: LimiterState, r: Request, forgiven: real)
    requires DailyInv(s) && i < |s.tasks| && s.tasks[i].Holds()
    requires lim.dailyLimit == s.lim.dailyLimit && lim.dailyDate == Some(s.today)
    requires lim.dailyCount == s.lim.ResetDaily(s.today).dailyCount + 1
    ensures DailyInv(Record(s, i, lim, r, forgiven))
  {
    DailyReset(s, lim.(dailyCount := lim.dailyCount - 1));
    HoldingUpdate(s.tasks, i, Idle);
    var g := Grant(s.now, s.today, r.key, r.tokens, forgiven);
    forall d ensures GrantsOn(s.log + [g], d) == GrantsOn(s.log, d) + (if d == s.today then 1 else 0) {
      GrantsOnAppend(s.log, g, d);
    }
  }

  lemma DailyTake(s: State, i: nat)
    requires DailyInv(s) && Enabled(s, Take(i))
    ensures DailyInv(Next(s, Take(i)))
  {
    var r := s.tasks[i].r;
    TakeCounters(s.lim, r.key, r.tokens, s.now, s.today);
    var (lim, wait) := s.lim.TakeTokens(r.key, r.tokens, s.now, s.today);
    if wait.None? {
      DailyRecord(s, i, lim, r, 0.0);
    } else {
      DailyMove(s, i, Rechecking(r, s.now + wait.value));
    }
  }

  lemma DailyMove(s: State, i: nat, t: Task)
    requires DailyInv(s) && i < |s.tasks| && !t.Holds()
    ensures DailyInv(Move(s, i, t))
  {
    HoldingUpdate(s.tasks, i, t);
  }

  lemma DailyStep(s: State, l: Label)
    requires DailyInv(s) && Enabled(s, l)
    ensures DailyInv(Next(s, l))
  {
    match l
    case Tick(_, _, _) =>
    case Begin(i, r) => DailyMove(s, i, Checking(r, s.now));
    case Check(i) => var r := s.tasks[i].r; DailyCheck(s, i, r, Armed(r), wake => Checking(r, wake));
    case Take(i) => DailyTake(s, i);
    case Recheck(i) => var r := s.tasks[i].r; DailyCheck(s, i, r, Rearmed(r), wake => Rechecking(r, wake));
    case Consume(i) =>
      var r := s.tasks[i].r;
      DailyRecord(s, i, s.lim.ConsumeTokens(r.key, r.tokens, s.now, s.today), r, Forgiven(s, r));
    case Cancel(i) => DailyMove(s, i, Idle);
    case Observe => DailyReset(s, s.lim.Observe(s.now, s.today));
    case Configure(_, _) =>
  }

  lemma {:induction false} DailyRun(s: State, ls: seq<Label>)
    requires DailyInv(s) && Legal(s, ls)
    ensures DailyInv(Run(s, ls))
    decreases |ls|
  {
    if ls != [] {
      DailyStep(s, ls[0]);
      DailyRun(Next(s, ls[0]), ls[1..]);
    }
  }

  /** In every interleaving, with the Tehran day changing at any step, no day sees more than
      daily_limit + N - 1 grants. */
  lemma DailyCapHolds(s: State, ls: seq<Label>, day: int)
    requires Initial(s) && Legal(s, ls)
    ensures GrantsOn(Run(s, ls).log, day) <= Cap(s.lim.dailyLimit, |s.tasks|)
    ensures Run(s, ls).lim.dailyCount <= Cap(s.lim.dailyLimit, |s.tasks|)
  {
    HoldingBound(s.tasks);
    DailyRun(s, ls);
    RunKeepsSetup(s, ls);
  }

  // ---- The five-minute window ----

  /** The deque is the suffix of the whole history newer than the last cutoff; recent grants
      plus the tasks past a check stay within the cap; and the history is spread out. */
  ghost predicate WindowInv(s: State) {
    var ts := Times(s.log);
    && Ascending(ts) && (ts != [] ==> ts[|ts| - 1] <= s.now)
    && s.pruned <= s.now - FIVE_MINUTES
    && s.lim.window == NewerThan(ts, s.pruned)
    && |NewerThan(ts, s.now - FIVE_MINUTES)| + Holding(s.tasks) <= Cap(s.lim.fiveMinLimit, |s.tasks|)
    && Spread(ts, Cap(s.lim.fiveMinLimit, |s.tasks|), FIVE_MINUTES)
  }

  lemma PruneStep(s: State)
    requires WindowInv(s)
    ensures NewerThan(s.lim.window, s.now - FIVE_MINUTES) == NewerThan(Times(s.log), s.now - FIVE_MINUTES)
  {
    NewerThanTwice(Times(s.log), s.pruned, s.now - FIVE_MINUTES);
  }

  lemma WindowCheck(s: State, i: nat, r: Request, passed: Task, again: real -> Task)
    requires WindowInv(s) && i < |s.tasks| && !s.tasks[i].Holds()
    requires forall w :: !again(w).Holds()
    ensures WindowInv(CheckStep(s, i, r, passed, again))
  {
    PruneStep(s);
    var t := CheckStep(s, i, r, passed, again).tasks[i];
    HoldingUpdate(s.tasks, i, t);
    HoldingBound(s.tasks[i := t]);
    PassMeansRoom(s.lim, s.now, s.today, s.toMidnight, r.failFast);
  }

  lemma WindowRecord(s: State, i: nat, lim: LimiterState, r: Request, forgiven: real)
    requires WindowInv(s) && i < |s.tasks| && s.tasks[i].Holds()
    requires lim.fiveMinLimit == s.lim.fiveMinLimit && lim.window == s.lim.window + [s.now]
    ensures WindowInv(Record(s, i, lim, r, forgiven))
  {
    HoldingUpdate(s.tasks, i, Idle);
    var ts := Times(s.log);
    assert Times(Record(s, i, lim, r, forgiven).log) == ts + [s.now];
    AscendingAppend(ts, s.now);
    NewerThanAppend(ts, s.now, s.pruned);
    NewerThanAppend(ts, s.now, s.now - FIVE_MINUTES);
    SpreadAppend(ts, s.now, Cap(s.lim.fiveMinLimit, |s.tasks|), FIVE_MINUTES);
  }

  lemma WindowMove(s: State, i: nat, t: Task)
    requires WindowInv(s) && i < |s.tasks| && !t.Holds()
    ensures WindowInv(Move(s, i, t))
  {
    HoldingUpdate(s.tasks, i, t);
  }

  lemma WindowTick(s: State, dt: real, day: int, left: real)
    requires WindowInv(s) && Enabled(s, Tick(dt, day, left))
    ensures WindowInv(Next(s, Tick(dt, day, left)))
  {
    var ts, before, after := Times(s.log), s.now - FIVE_MINUTES, s.now + dt - FIVE_MINUTES;
    NewerThanTwice(ts, before, after);
    NewerThanIsSuffix(NewerThan(ts, before), after);
  }

  lemma WindowTake(s: State, i: nat)
    requires WindowInv(s) && Enabled(s, Take(i))
    ensures WindowInv(Next(s, Take(i)))
  {
    var r := s.tasks[i].r;
    TakeCounters(s.lim, r.key, r.tokens, s.now, s.today);
    var (lim, wait) := s.lim.TakeTokens(r.key, r.tokens, s.now, s.today);
    if wait.None? {
      WindowRecord(s, i, lim, r, 0.0);
    } else {
      WindowMove(s, i, Rechecking(r, s.now + wait.value));
    }
  }

  lemma WindowStep(s: State, l: Label)
    requires WindowInv(s) && Enabled(s, l)
    ensures WindowInv(Next(s, l))
  {
    match l
    case Tick(dt, day, left) => WindowTick(s, dt, day, left);
    case Begin(i, r) => WindowMove(s, i, Checking(r, s.now));
    case Check(i) => var r := s.tasks[i].r; WindowCheck(s, i, r, Armed(r), wake => Checking(r, wake));
    case Take(i) => WindowTake(s, i);
    case Recheck(i) => var r := s.tasks[i].r; WindowCheck(s, i, r, Rearmed(r), wake => Rechecking(r, wake));
    case Consume(i) =>
      var r := s.tasks[i].r;
      WindowRecord(s, i, s.lim.ConsumeTokens(r.key, r.tokens, s.now, s.today), r, Forgiven(s, r));
    case Cancel(i) => WindowMove(s, i, Idle);
    case Observe => PruneStep(s);
    case Configure(_, _) =>
  }

  lemma {:induction false} WindowRun(s: State, ls: seq<Label>)
    requires WindowInv(s) && Legal(s, ls)
    ensures WindowInv(Run(s, ls))
    decreases |ls|
  {
    if ls != [] {
      WindowStep(s, ls[0]);
      WindowRun(Next(s, ls[0]), ls[1..]);
    }
  }

  /** In every interleaving, every half-open 300 s window of the unpruned history holds at most
      five_min_limit + N - 1 grants, and the deque is the history newer than the last cutoff. */
  lemma WindowCapHolds(s: State, ls: seq<Label>, from: real)
    requires Initial(s) && Legal(s, ls)
    ensures var t := Run(s, ls);
            && CountIn(Times(t.log), from, from + FIVE_MINUTES) <= Cap(s.lim.fiveMinLimit, |s.tasks|)
            && t.lim.window == NewerThan(Times(t.log), t.pruned)
  {
    HoldingBound(s.tasks);
    WindowRun(s, ls);
    RunKeepsSetup(s, ls);
    SpreadBoundsCount(Times(Run(s, ls).log), Cap(s.lim.fiveMinLimit, |s.tasks|), FIVE_MINUTES, from);
  }

  /** With one task both caps are exact. */
  lemma LoneTaskMeetsBothLimits(s: State, ls: seq<Label>, day: int, from: real)
    requires Initial(s) && Legal(s, ls) && |s.tasks| == 1
    ensures var t := Run(s, ls);
            && GrantsOn(t.log, day) <= (if s.lim.dailyLimit >= 1 then s.lim.dailyLimit else 0)
            && CountIn(Times(t.log), from, from + FIVE_MINUTES)
               <= (if s.lim.fiveMinLimit >= 1 then s.lim.fiveMinLimit else 0)
  {
    DailyCapHolds(s, ls, day);
    WindowCapHolds(s, ls, from);
  }
}
