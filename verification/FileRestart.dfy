/** The budget governor on its file backend: one process at a time, crashing and restarting.

    The in-memory limiter is the protocol of AdmissionProtocol.  A grant and the write of the
    state file happen without an await in between, so they are one step; the process may die
    before the step, or after the write and before the request is issued. */
module FileRestart {
  import opened Prelude
  import opened Windows
  import opened RateLimiting
  import opened AdmissionProtocol
  import opened HeadRoom
  import Redis = ReservationProtocol

  /** The JSON state file: the day it was written on and the limiter's count at that moment. */
  datatype StateFile = StateFile(date: int, count: int)

  /** `issued` is the day of every request sent so far, by any incarnation of the process. */
  datatype System = System(
    adm: State, running: bool, file: Option<StateFile>,
    issued: seq<int>, warnPct: nat, softPct: nat)

  datatype Event =
    | Enter(i: nat, r: Request, critical: bool)
    | Step(l: Label)
    | StepThenCrash(l: Label)
    | Report                                     // report_302 or report_ok writes the file
    | Crash
    | Pause(seconds: real, day: int, untilMidnight: real)
    | Restart

  /** The gate fail-fast calls pass on this backend: it looks at the count as it stands, without
      resetting it.  A blocking call goes straight to the limiter. */
  predicate Admits(c: System, critical: bool) {
    Redis.GateOpen(c.adm.lim.dailyLimit, c.warnPct, c.softPct, c.adm.lim.dailyCount, critical)
  }

  predicate Possible(c: System, e: Event) {
    match e
    case Enter(i, r, _) => c.running && Enabled(c.adm, Begin(i, r))
    case Step(l) => c.running && !l.Begin? && Enabled(c.adm, l)
    case StepThenCrash(l) => c.running && !l.Begin? && Enabled(c.adm, l)
    case Report => c.running
    case Crash => c.running
    case Pause(dt, day, left) => !c.running && Enabled(c.adm, Tick(dt, day, left))
    case Restart => !c.running
  }

  /** _persist_file. */
  function Persist(c: System): System {
    c.(file := Some(StateFile(c.adm.today, c.adm.lim.dailyCount)))
  }

  function Advance(c: System, l: Label): System
    requires Enabled(c.adm, l)
  {
    var next := c.(adm := Next(c.adm, l));
    if |next.adm.log| > |c.adm.log| then Persist(next).(issued := c.issued + [c.adm.today]) else next
  }

  function Die(c: System): System {
    c.(running := false, adm := c.adm.(tasks := seq(|c.adm.tasks|, i => Idle), log := []))
  }

  /** _try_load_file and _seed_limiter_from_persisted in a fresh process. */
  function Seeded(c: System): LimiterState {
    var loaded := if c.file.Some? && c.file.value.date == c.adm.today then c.file.value.count else 0;
    InitialLimiter(c.adm.lim.dailyLimit, c.adm.lim.fiveMinLimit)
      .(dailyCount := if loaded > 0 then loaded else 0, dailyDate := Some(c.adm.today))
  }

  function Happen(c: System, e: Event): System
    requires Possible(c, e)
  {
    match e
    case Enter(i, r, critical) => if !r.failFast || Admits(c, critical) then c.(adm := Next(c.adm, Begin(i, r))) else c
    case Step(l) => Advance(c, l)
    case StepThenCrash(l) => Die(Advance(c, l)).(issued := c.issued)
    case Report => Persist(c)
    case Crash => Die(c)
    case Pause(dt, day, left) => c.(adm := Next(c.adm, Tick(dt, day, left)))
    case Restart => c.(running := true, adm := c.adm.(lim := Seeded(c), pruned := c.adm.now - FIVE_MINUTES))
  }

  ghost predicate History(c: System, es: seq<Event>)
    decreases |es|
  {
    es == [] || (Possible(c, es[0]) && History(Happen(c, es[0]), es[1..]))
  }

  ghost function After(c: System, es: seq<Event>): System
    requires History(c, es)
    decreases |es|
  {
    if es == [] then c else After(Happen(c, es[0]), es[1..])
  }

  /** No file yet, nothing issued, the first process about to start. */
  ghost predicate FirstBoot(c: System) {
    && !c.running && c.file == None && c.issued == []
    && c.adm.log == [] && (forall i :: 0 <= i < |c.adm.tasks| ==> c.adm.tasks[i].Idle?)
  }

  function IssuedOn(issued: seq<int>, day: int): nat {
    if issued == [] then 0
    else IssuedOn(issued[..|issued| - 1], day) + (if issued[|issued| - 1] == day then 1 else 0)
  }

  function Limit(c: System): nat { Cap(c.adm.lim.dailyLimit, |c.adm.tasks|) }

  /** What today's issued requests are covered by in memory. */
  ghost predicate MemoryCovers(c: System) {
    && DailyInv(c.adm) && c.adm.lim.dailyDate.Some?
    && (if c.adm.lim.dailyDate == Some(c.adm.today) then IssuedOn(c.issued, c.adm.today) <= c.adm.lim.dailyCount
        else IssuedOn(c.issued, c.adm.today) == 0)
  }

  /** What they are covered by on disk. */
  ghost predicate FileCovers(c: System) {
    && (c.file.Some? ==> 0 <= c.file.value.count <= Limit(c) && c.file.value.date <= c.adm.today)
    && (if c.file.Some? && c.file.value.date == c.adm.today then IssuedOn(c.issued, c.adm.today) <= c.file.value.count
        else IssuedOn(c.issued, c.adm.today) == 0)
  }

  ghost predicate SystemInv(c: System) {
    && (c.running ==> MemoryCovers(c))
    && FileCovers(c)
    && (!c.running ==> c.adm.log == [] && forall i :: 0 <= i < |c.adm.tasks| ==> c.adm.tasks[i].Idle?)
    && (forall day :: IssuedOn(c.issued, day) <= Limit(c))
    && (forall day :: day > c.adm.today ==> IssuedOn(c.issued, day) == 0)
  }

  lemma IssuedAppend(issued: seq<int>, today: int, day: int)
    ensures IssuedOn(issued + [today], day) == IssuedOn(issued, day) + (if day == today then 1 else 0)
  {
    assert (issued + [today])[..|issued|] == issued;
  }

  /** A granting step is recorded under today's date. */
  lemma GrantCounts(s: State, l: Label)
    requires Enabled(s, l)
    ensures var t := Next(s, l);
            && |s.log| <= |t.log| && |t.tasks| == |s.tasks| && t.lim.dailyLimit == s.lim.dailyLimit
            && (|t.log| > |s.log| ==> t.today == s.today && t.lim.dailyDate == Some(s.today)
                                      && t.lim.dailyCount == s.lim.ResetDaily(s.today).dailyCount + 1)
            && (|t.log| == |s.log| ==>
                  (t.lim.dailyDate == s.lim.dailyDate && t.lim.dailyCount == s.lim.dailyCount)
                  || (t.today == s.today && t.lim.dailyDate == Some(s.today)
                      && t.lim.dailyCount == s.lim.ResetDaily(s.today).dailyCount))
            && (l.Tick? || t.today == s.today)
  {
    if l.Take? {
      var r := s.tasks[l.i].r;
      TakeCounters(s.lim, r.key, r.tokens, s.now, s.today);
    }
    if l.Consume? {
      var r := s.tasks[l.i].r;
      ConsumeCounters(s.lim, r.key, r.tokens, s.now, s.today);
    }
    if l.Check? || l.Recheck? {
      PassMeansRoom(s.lim, s.now, s.today, s.toMidnight, s.tasks[l.i].r.failFast);
    }
  }

  lemma AdvanceInv(c: System, l: Label)
    requires SystemInv(c) && c.running && Enabled(c.adm, l)
    ensures SystemInv(Advance(c, l))
  {
    var d := Advance(c, l);
    DailyStep(c.adm, l);
    GrantCounts(c.adm, l);
    if |d.adm.log| > |c.adm.log| {
      forall day ensures IssuedOn(d.issued, day) == IssuedOn(c.issued, day) + (if day == c.adm.today then 1 else 0) {
        IssuedAppend(c.issued, c.adm.today, day);
      }
    }
  }

  lemma DieInv(c: System)
    requires FileCovers(c)
    requires forall day :: IssuedOn(c.issued, day) <= Limit(c)
    requires forall day :: day > c.adm.today ==> IssuedOn(c.issued, day) == 0
    ensures SystemInv(Die(c))
  {
  }

  lemma RestartInv(c: System)
    requires SystemInv(c) && !c.running
    ensures SystemInv(Happen(c, Restart))
  {
    HoldingBound(c.adm.tasks);
  }

  lemma UnissuedInv(c: System, d: System)
    requires SystemInv(c) && FileCovers(d) && Limit(c) == Limit(d) && c.adm.today <= d.adm.today
    requires forall day :: IssuedOn(c.issued, day) <= IssuedOn(d.issued, day)
    ensures FileCovers(d.(issued := c.issued))
  {
  }

  lemma StepThenCrashInv(c: System, l: Label)
    requires SystemInv(c) && Possible(c, StepThenCrash(l))
    ensures var d := Happen(c, StepThenCrash(l)); SystemInv(d) && Limit(d) == Limit(c)
  {
    var d := Advance(c, l);
    AdvanceInv(c, l);
    GrantCounts(c.adm, l);
    forall day ensures IssuedOn(c.issued, day) <= IssuedOn(d.issued, day) {
      IssuedAppend(c.issued, c.adm.today, day);
    }
    UnissuedInv(c, d);
    DieInv(d.(issued := c.issued));
  }

  lemma EventInv(c: System, e: Event)
    requires SystemInv(c) && Possible(c, e)
    ensures SystemInv(Happen(c, e)) && Limit(Happen(c, e)) == Limit(c)
  {
    match e
    case Enter(i, r, _) => AdvanceInv(c, Begin(i, r)); GrantCounts(c.adm, Begin(i, r));
    case Step(l) => AdvanceInv(c, l); GrantCounts(c.adm, l);
    case StepThenCrash(l) => StepThenCrashInv(c, l);
    case Report =>
    case Crash => DieInv(c);
    case Pause(_, _, _) =>
    case Restart => RestartInv(c);
  }

  lemma {:induction false} HistoryInv(c: System, es: seq<Event>)
    requires SystemInv(c) && History(c, es)
    ensures SystemInv(After(c, es)) && Limit(After(c, es)) == Limit(c)
    decreases |es|
  {
    if es != [] {
      EventInv(c, es[0]);
      HistoryInv(Happen(c, es[0]), es[1..]);
    }
  }

  /** Across any number of crashes and restarts: no day sees more than daily_limit + N - 1
      requests issued, and today's never exceed the count in the file. */
  lemma RestartsGetNoFreshBudget(c: System, es: seq<Event>, day: int)
    requires FirstBoot(c) && History(c, es)
    ensures var d := After(c, es);
            && IssuedOn(d.issued, day) <= Cap(c.adm.lim.dailyLimit, |c.adm.tasks|)
            && IssuedOn(d.issued, d.adm.today)
               <= (if d.file.Some? && d.file.value.date == d.adm.today then d.file.value.count else 0)
  {
    HistoryInv(c, es);
  }

  // ---- The persisted count within a day ----

  /** What memory holds for today: the count once the limiter has entered the day, else nothing. */
  function HeldToday(c: System): int {
    if c.adm.lim.dailyDate == Some(c.adm.today) then c.adm.lim.dailyCount else 0
  }

  /** Some history leaves a lower count under the date the file carries now. */
  ghost predicate CanLower(c: System)
    requires c.file.Some?
  {
    exists es :: History(c, es) && Lower(After(c, es).file, c.file.value)
  }

  predicate Lower(file: Option<StateFile>, before: StateFile) {
    file.Some? && file.value.date == before.date && file.value.count < before.count
  }

  /** The file has not fallen below f, and as long as f's day lasts memory holds as much. */
  ghost predicate Guarded(c: System, f: StateFile) {
    && c.file.Some? && f.date <= c.file.value.date <= c.adm.today
    && (c.file.value.date == f.date ==> f.count <= c.file.value.count)
    && (c.running && c.adm.today == f.date ==> f.count <= HeldToday(c))
  }

  lemma GuardedStep(c: System, e: Event, f: StateFile)
    requires SystemInv(c) && Guarded(c, f) && Possible(c, e)
    ensures Guarded(Happen(c, e), f)
  {
    if e.Step? || e.StepThenCrash? {
      GrantCounts(c.adm, e.l);
    }
  }

  lemma {:induction false} GuardedRun(c: System, es: seq<Event>, f: StateFile)
    requires SystemInv(c) && Guarded(c, f) && History(c, es)
    ensures Guarded(After(c, es), f)
    decreases |es|
  {
    if es != [] {
      GuardedStep(c, es[0], f);
      EventInv(c, es[0]);
      GuardedRun(Happen(c, es[0]), es[1..], f);
    }
  }

  /** When the count in the file can drop on its date: exactly while the process runs on that
      date with less in memory.  Crashes and restarts included, it never does otherwise. */
  lemma PersistedCountDropsIff(c: System)
    requires SystemInv(c) && c.file.Some?
    ensures CanLower(c) <==> c.running && c.file.value.date == c.adm.today && c.file.value.count > HeldToday(c)
  {
    if c.running && c.file.value.date == c.adm.today && c.file.value.count > HeldToday(c) {
      ObserveAndReport(c);
    } else {
      forall es | History(c, es) ensures !Lower(After(c, es).file, c.file.value) {
        GuardedRun(c, es, c.file.value);
      }
    }
  }

  lemma ObserveAndReport(c: System)
    requires c.running && c.file.Some? && c.file.value.date == c.adm.today && c.file.value.count > HeldToday(c)
    ensures CanLower(c)
  {
    var d := Happen(c, Step(Observe));
    var e := Happen(d, Report);
    assert History(e, []) && After(e, []) == e;
    assert [Report][1..] == [] && [Step(Observe), Report][1..] == [Report];
    assert History(d, [Report]) && After(d, [Report]) == e;
    assert History(c, [Step(Observe), Report]) && After(c, [Step(Observe), Report]) == e;
  }

  // ---- A new day on this backend ----

  /** Nothing that resets the count before the gate has opened: no restart, no status(), every
      request fail-fast; with `shed` only non-critical requests. */
  predicate Plain(e: Event, shed: bool) {
    match e
    case Restart => false
    case Enter(_, r, critical) => r.failFast && !(shed && critical)
    case Step(l) => !l.Observe?
    case StepThenCrash(l) => !l.Observe?
    case _ => true
  }

  ghost predicate PlainHistory(c: System, es: seq<Event>, shed: bool) {
    History(c, es) && forall k :: 0 <= k < |es| ==> Plain(es[k], shed)
  }

  ghost predicate NobodyInside(c: System) {
    forall i :: 0 <= i < |c.adm.tasks| ==> c.adm.tasks[i].Idle?
  }

  /** Some plain history leads to a running process that has issued more than `base` requests on
      the day, and is still in it. */
  ghost predicate CanIssue(c: System, day: int, shed: bool, base: nat) {
    exists es :: PlainHistory(c, es, shed) && Issuing(After(c, es), day, base)
  }

  predicate Issuing(c: System, day: int, base: nat) {
    c.running && c.adm.today == day && IssuedOn(c.issued, day) > base
  }

  lemma PlainFirst(c: System, e: Event, d: System, day: int, shed: bool, base: nat)
    requires Possible(c, e) && Plain(e, shed) && d == Happen(c, e) && CanIssue(d, day, shed, base)
    ensures CanIssue(c, day, shed, base)
  {
    var es :| PlainHistory(d, es, shed) && Issuing(After(d, es), day, base);
    assert ([e] + es)[1..] == es;
    assert PlainHistory(c, [e] + es, shed) && After(c, [e] + es) == After(d, es);
  }

  /** The limiter lets nobody through: it has no task, or a limit of zero. */
  ghost predicate Blocked(c: System) {
    && (c.adm.lim.fiveMinLimit <= 0 || c.adm.lim.dailyLimit <= 0 || c.adm.tasks == [])
    && forall i :: 0 <= i < |c.adm.tasks| ==> !c.adm.tasks[i].Holds()
  }

  lemma BlockedStep(c: System, e: Event)
    requires Blocked(c) && (c.running ==> c.adm.lim.dailyCount >= 0) && Possible(c, e)
    ensures Blocked(Happen(c, e)) && Happen(c, e).issued == c.issued
    ensures Happen(c, e).adm.lim.dailyCount in {c.adm.lim.dailyCount, 0} || e.Restart?
    ensures Happen(c, e).file == c.file || Happen(c, e).file == Some(StateFile(c.adm.today, c.adm.lim.dailyCount))
  {
    if e.Step? || e.StepThenCrash? {
      BlockedLabel(c.adm, e.l);
    }
  }

  /** A blocked limiter grants nothing and lets nobody past a check. */
  lemma BlockedLabel(s: State, l: Label)
    requires Enabled(s, l) && s.lim.dailyCount >= 0
    requires s.lim.fiveMinLimit <= 0 || s.lim.dailyLimit <= 0 || s.tasks == []
    requires forall i :: 0 <= i < |s.tasks| ==> !s.tasks[i].Holds()
    ensures var t := Next(s, l);
            && t.log == s.log && t.lim.fiveMinLimit == s.lim.fiveMinLimit && t.lim.dailyLimit == s.lim.dailyLimit
            && |t.tasks| == |s.tasks| && t.lim.dailyCount in {s.lim.dailyCount, 0}
            && forall i :: 0 <= i < |t.tasks| ==> !t.tasks[i].Holds()
  {
    if l.Check? || l.Recheck? {
      PassMeansRoom(s.lim, s.now, s.today, s.toMidnight, s.tasks[l.i].r.failFast);
    }
  }

  lemma {:induction false} BlockedRun(c: System, es: seq<Event>)
    requires Blocked(c) && SystemInv(c) && History(c, es)
    ensures After(c, es).issued == c.issued
    decreases |es|
  {
    if es != [] {
      BlockedStep(c, es[0]);
      EventInv(c, es[0]);
      BlockedRun(Happen(c, es[0]), es[1..]);
    }
  }

  lemma {:induction false} ShutRun(c: System, es: seq<Event>, shed: bool)
    requires NobodyInside(c) && !Admits(c, !shed) && PlainHistory(c, es, shed)
    ensures After(c, es).issued == c.issued
    decreases |es|
  {
    if es != [] {
      assert Plain(es[0], shed);
      assert NobodyInside(Happen(c, es[0])) && !Admits(Happen(c, es[0]), !shed);
      assert Happen(c, es[0]).issued == c.issued;
      ShutRun(Happen(c, es[0]), es[1..], shed);
    }
  }

  /** At least every stamp of the sequence. */
  function Latest(ts: seq<real>, atLeast: real): real {
    if ts == [] then atLeast else Max(ts[0], Latest(ts[1..], atLeast))
  }

  lemma {:induction false} AllAged(ts: seq<real>, atLeast: real, cutoff: real)
    requires Latest(ts, atLeast) <= cutoff
    ensures atLeast <= Latest(ts, atLeast) && NewerThan(ts, cutoff) == []
  {
    if ts != [] {
      AllAged(ts[1..], atLeast, cutoff);
    }
  }

  lemma LatestIsLate(ts: seq<real>, atLeast: real)
    ensures atLeast <= Latest(ts, atLeast)
  {
  }

  const CALL: Request := Request("k", 1, true)

  /** The last three steps: a task that asked, on a category without a bucket limit, with room. */
  ghost predicate Asking(c: System) {
    && c.running && c.adm.tasks != [] && c.adm.tasks[0] == Checking(CALL, c.adm.now)
    && c.adm.lim.ResetDaily(c.adm.today).dailyCount < c.adm.lim.dailyLimit
    && NewerThan(c.adm.lim.window, c.adm.now - FIVE_MINUTES) == [] && c.adm.lim.fiveMinLimit >= 1
    && "k" in c.adm.lim.buckets && c.adm.lim.buckets["k"].maxTokens <= 0.0
  }

  lemma AskingIssues(c: System, shed: bool)
    requires Asking(c)
    ensures CanIssue(c, c.adm.today, shed, IssuedOn(c.issued, c.adm.today))
  {
    PassMeansRoom(c.adm.lim, c.adm.now, c.adm.today, c.adm.toMidnight, true);
    var d := Happen(c, Step(Check(0)));
    var e := Happen(d, Step(Take(0)));
    TakeCounters(d.adm.lim, "k", 1, d.adm.now, d.adm.today);
    UnlimitedBucketGrants(d.adm.lim, d.adm.now, d.adm.today);
    IssuedAppend(c.issued, c.adm.today, c.adm.today);
    var base := IssuedOn(c.issued, c.adm.today);
    assert PlainHistory(e, [], shed) && Issuing(After(e, []), c.adm.today, base);
    PlainFirst(d, Step(Take(0)), e, c.adm.today, shed, base);
    PlainFirst(c, Step(Check(0)), d, c.adm.today, shed, base);
  }

  lemma UnlimitedBucketGrants(lim: LimiterState, now: real, today: int)
    requires "k" in lim.buckets && lim.buckets["k"].maxTokens <= 0.0
    ensures lim.TakeTokens("k", 1, now, today).1 == None
  {
  }

  /** With the gate open and both limits positive, a later day sees a request. */
  lemma OpenGateIssues(c: System, day: int, shed: bool)
    requires c.running && DailyInv(c.adm) && NobodyInside(c) && Admits(c, !shed) && day > c.adm.today
    requires c.adm.lim.fiveMinLimit >= 1 && c.adm.tasks != []
    ensures CanIssue(c, day, shed, IssuedOn(c.issued, day))
  {
    var late := Latest(c.adm.lim.window, c.adm.now);
    LatestIsLate(c.adm.lim.window, c.adm.now);
    var dt := late + FIVE_MINUTES - c.adm.now;
    var c1 := Happen(c, Step(Configure("k", 0)));
    var c2 := Happen(c1, Step(Tick(dt, day, 1.0)));
    AllAged(c.adm.lim.window, c.adm.now, c2.adm.now - FIVE_MINUTES);
    var c3 := Happen(c2, Enter(0, CALL, !shed));
    AskingIssues(c3, shed);
    PlainFirst(c2, Enter(0, CALL, !shed), c3, day, shed, IssuedOn(c.issued, day));
    PlainFirst(c1, Step(Tick(dt, day, 1.0)), c2, day, shed, IssuedOn(c.issued, day));
    PlainFirst(c, Step(Configure("k", 0)), c1, day, shed, IssuedOn(c.issued, day));
  }

  /** Whether a later day sees any request, when all are fail-fast and nobody is inside: exactly
      if the count that still stands from the earlier day lets the gate open - the gate runs
      before the code that would reset it - and the limiter can grant at all. */
  lemma NewDayOpensIff(c: System, day: int, shed: bool)
    requires SystemInv(c) && c.running && NobodyInside(c) && day > c.adm.today
    ensures CanIssue(c, day, shed, 0) <==>
              && c.adm.tasks != [] && c.adm.lim.fiveMinLimit >= 1
              && c.adm.lim.dailyCount < c.adm.lim.dailyLimit
              && (shed ==> c.adm.lim.dailyCount < CeilingOf(c.adm.lim.dailyLimit, c.warnPct, c.softPct))
  {
    assert IssuedOn(c.issued, day) == 0;
    GateSheds(c.adm.lim.dailyLimit, c.warnPct, c.softPct, c.adm.lim.dailyCount);
    if c.adm.tasks == [] || c.adm.lim.fiveMinLimit <= 0 {
      forall es | PlainHistory(c, es, shed) ensures !Issuing(After(c, es), day, 0) {
        BlockedRun(c, es);
      }
    } else if Admits(c, !shed) {
      OpenGateIssues(c, day, shed);
    } else {
      forall es | PlainHistory(c, es, shed) ensures !Issuing(After(c, es), day, 0) {
        ShutRun(c, es, shed);
      }
    }
  }

  /** In particular an exhausted budget stays shut on every later day. */
  lemma ExhaustedBudgetStaysShut(c: System, es: seq<Event>)
    requires NobodyInside(c) && c.adm.lim.dailyCount >= c.adm.lim.dailyLimit && PlainHistory(c, es, false)
    ensures After(c, es).issued == c.issued
  {
    ShutRun(c, es, false);
  }

  // ---- After a restart ----

  /** What the file says of today. */
  ghost function Persisted(c: System): int {
    if c.file.Some? && c.file.value.date == c.adm.today then c.file.value.count else 0
  }

  /** A restarted process goes on from the file: its limiter has entered today with the count the
      file carries for today, or none; the window and the buckets start empty, the limits stand,
      and neither the file nor what was issued changes. */
  lemma RestartResumes(c: System)
    requires SystemInv(c) && !c.running
    ensures var d := Happen(c, Restart);
            && d.running && d.file == c.file && d.issued == c.issued && d.adm.today == c.adm.today
            && d.adm.lim == LimiterState(c.adm.lim.dailyLimit, c.adm.lim.fiveMinLimit,
                                         Persisted(c), Some(c.adm.today), [], map[])
            && d.adm.tasks == c.adm.tasks && HeldToday(d) == Persisted(c)
  {
  }

  /** A grant and a report write today's date over the count then in memory; nothing else touches
      the file, and only a grant that does not crash is issued. */
  lemma FileFollowsMemory(c: System, e: Event)
    requires Possible(c, e)
    ensures var d := Happen(c, e);
            var grants := (e.Step? || e.StepThenCrash?) && |Next(c.adm, e.l).log| > |c.adm.log|;
            && d.file == (if grants then Some(StateFile(c.adm.today, d.adm.lim.dailyCount))
                          else if e.Report? then Some(StateFile(c.adm.today, c.adm.lim.dailyCount))
                          else c.file)
            && d.issued == if grants && e.Step? then c.issued + [c.adm.today] else c.issued
  {
    if e.Step? || e.StepThenCrash? {
      GrantCounts(c.adm, e.l);
    }
  }

  /** Whether a restarted process can still issue a request that day: exactly if what the file says
      of today lets the gate open and the limiter can grant at all. */
  lemma RestartOpensIff(c: System, shed: bool)
    requires SystemInv(c) && !c.running
    ensures CanIssue(Happen(c, Restart), c.adm.today, shed, IssuedOn(c.issued, c.adm.today)) <==>
              && c.adm.tasks != [] && c.adm.lim.fiveMinLimit >= 1
              && Persisted(c) < c.adm.lim.dailyLimit
              && (shed ==> Persisted(c) < CeilingOf(c.adm.lim.dailyLimit, c.warnPct, c.softPct))
  {
    var d := Happen(c, Restart);
    var base := IssuedOn(c.issued, c.adm.today);
    RestartResumes(c);
    EventInv(c, Restart);
    GateSheds(c.adm.lim.dailyLimit, c.warnPct, c.softPct, Persisted(c));
    if c.adm.tasks == [] || c.adm.lim.fiveMinLimit <= 0 {
      forall es | PlainHistory(d, es, shed) ensures !Issuing(After(d, es), c.adm.today, base) {
        BlockedRun(d, es);
      }
    } else if Admits(d, !shed) {
      ResumedIssues(d, shed);
    } else {
      forall es | PlainHistory(d, es, shed) ensures !Issuing(After(d, es), c.adm.today, base) {
        ShutRun(d, es, shed);
      }
    }
  }

  /** With the gate open and an empty window, the same day sees a request. */
  lemma ResumedIssues(c: System, shed: bool)
    requires c.running && NobodyInside(c) && Admits(c, !shed) && c.adm.lim.window == []
    requires c.adm.lim.fiveMinLimit >= 1 && c.adm.tasks != [] && c.adm.lim.dailyDate == Some(c.adm.today)
    ensures CanIssue(c, c.adm.today, shed, IssuedOn(c.issued, c.adm.today))
  {
    var base := IssuedOn(c.issued, c.adm.today);
    var c1 := Happen(c, Step(Configure("k", 0)));
    var c2 := Happen(c1, Enter(0, CALL, !shed));
    AskingIssues(c2, shed);
    PlainFirst(c1, Enter(0, CALL, !shed), c2, c.adm.today, shed, base);
    PlainFirst(c, Step(Configure("k", 0)), c1, c.adm.today, shed, base);
  }

  // ---- The drop from the first boot ----

  /** Whether an installation can ever see its persisted count drop: exactly if it can issue a
      request at all. */
  lemma StaleCountIsReplacedIff(c: System)
    requires FirstBoot(c)
    ensures (exists es :: History(c, es) && After(c, es).file.Some? && CanLower(After(c, es)))
            <==> c.adm.tasks != [] && c.adm.lim.fiveMinLimit >= 1 && c.adm.lim.dailyLimit >= 1
  {
    if c.adm.tasks != [] && c.adm.lim.fiveMinLimit >= 1 && c.adm.lim.dailyLimit >= 1 {
      GrantMidnightReport(c);
    } else {
      forall es | History(c, es) && After(c, es).file.Some? ensures !CanLower(After(c, es)) {
        HistoryInv(c, es);
        DryRun(c, es);
        PersistedCountDropsIff(After(c, es));
      }
    }
  }

  /** Nothing was ever counted. */
  ghost predicate Dry(c: System) {
    && Blocked(c) && (c.running ==> c.adm.lim.dailyCount == 0)
    && (c.file.Some? ==> c.file.value.count == 0)
  }

  lemma DryStep(c: System, e: Event)
    requires Dry(c) && Possible(c, e)
    ensures Dry(Happen(c, e))
  {
    BlockedStep(c, e);
  }

  lemma {:induction false} DryRun(c: System, es: seq<Event>)
    requires Dry(c) && History(c, es)
    ensures Dry(After(c, es))
    decreases |es|
  {
    if es != [] {
      DryStep(c, es[0]);
      DryRun(Happen(c, es[0]), es[1..]);
    }
  }

  lemma {:induction false} HistoryAppend(c: System, a: seq<Event>, b: seq<Event>)
    requires History(c, a) && History(After(c, a), b)
    ensures History(c, a + b) && After(c, a + b) == After(After(c, a), b)
    decreases |a|
  {
    if a == [] {
      assert a + b == b;
    } else {
      assert (a + b)[1..] == a[1..] + b;
      HistoryAppend(Happen(c, a[0]), a[1..], b);
    }
  }

  /** Midnight passes and a report writes the old count under the new date. */
  function MidnightReport(c: System): seq<Event> { [Step(Tick(0.0, c.adm.today + 1, 1.0)), Report] }

  lemma MidnightReportIsStale(c: System)
    requires c.running && c.adm.lim.dailyDate == Some(c.adm.today) && c.adm.lim.dailyCount >= 1
    ensures History(c, MidnightReport(c))
    ensures After(c, MidnightReport(c)).file.Some? && CanLower(After(c, MidnightReport(c)))
  {
    var next := Happen(c, MidnightReport(c)[0]);
    var stale := Happen(next, Report);
    assert MidnightReport(c)[1..] == [Report] && [Report][1..] == [];
    assert History(next, [Report]) && After(next, [Report]) == stale;
    ObserveAndReport(stale);
  }

  lemma GrantMidnightReport(c: System)
    requires FirstBoot(c) && c.adm.tasks != [] && c.adm.lim.fiveMinLimit >= 1 && c.adm.lim.dailyLimit >= 1
    ensures exists es :: History(c, es) && After(c, es).file.Some? && CanLower(After(c, es))
  {
    var up, day := Happen(c, Restart), c.adm.today + 1;
    EventInv(c, Restart);
    OpenGateIssues(up, day, false);
    var es :| PlainHistory(up, es, false) && Issuing(After(up, es), day, 0);
    assert ([Restart] + es)[1..] == es;
    HistoryInv(up, es);
    MidnightReportIsStale(After(up, es));
    HistoryAppend(c, [Restart] + es, MidnightReport(After(up, es)));
  }
}
