/** The three layers of a granted request in one run: the Redis day counter, the five-minute window
    shared in Redis, and the limiter of each process.

    A caller is granted in one step of all three, since nothing is awaited between the limiter's
    record, the second clock reading and the end of the reservation; everything else the layers do
    is interleaved freely, which is more than the code allows. */
module AdmissionStack {
  import opened Prelude
  import opened Windows
  import opened RateLimiting
  import Daily = ReservationProtocol
  import Shared = SharedWindow
  import Local = AdmissionProtocol

  /** Which task of which process a caller is. */
  datatype Place = Place(process: nat, slot: nat)

  datatype Stack = Stack(daily: Daily.State, shared: Shared.State, locals: seq<Local.State>, home: seq<Place>)

  datatype Step =
    | Tick(seconds: real, day: int, untilMidnight: real)
    | OnDaily(d: Daily.Label)
    | OnShared(w: Shared.Label)
    | OnLocal(p: nat, l: Local.Label)
    | Grant(i: nat, l: Local.Label)

  /** A step of a limiter that grants a request. */
  predicate Grants(s: Local.State, l: Local.Label)
    requires Local.Enabled(s, l)
  {
    |Local.Next(s, l).log| > |s.log|
  }

  predicate Enabled(s: Stack, step: Step) {
    match step
    case Tick(dt, day, left) =>
      && Daily.Enabled(s.daily, Daily.Midnight(day)) && Shared.Enabled(s.shared, Shared.Tick(dt))
      && forall p :: 0 <= p < |s.locals| ==> Local.Enabled(s.locals[p], Local.Tick(dt, day, left))
    case OnDaily(d) => Daily.Enabled(s.daily, d) && !d.Midnight? && !d.Admit?
    case OnShared(w) => Shared.Enabled(s.shared, w) && !w.Tick? && !w.Stamp?
    case OnLocal(p, l) => p < |s.locals| && Local.Enabled(s.locals[p], l) && !l.Tick? && !Grants(s.locals[p], l)
    case Grant(i, l) =>
      && i < |s.home| && s.home[i].process < |s.locals|
      && l in {Local.Take(s.home[i].slot), Local.Consume(s.home[i].slot)}
      && Local.Enabled(s.locals[s.home[i].process], l) && Grants(s.locals[s.home[i].process], l)
      && Daily.Enabled(s.daily, Daily.Admit(i)) && Shared.Enabled(s.shared, Shared.Stamp(i))
  }

  function Next(s: Stack, step: Step): Stack
    requires Enabled(s, step)
  {
    match step
    case Tick(dt, day, left) =>
      s.(daily := Daily.Next(s.daily, Daily.Midnight(day)), shared := Shared.Next(s.shared, Shared.Tick(dt)),
         locals := seq(|s.locals|, p requires 0 <= p < |s.locals| =>
           Local.Next(s.locals[p], Local.Tick(dt, day, left))))
    case OnDaily(d) => s.(daily := Daily.Next(s.daily, d))
    case OnShared(w) => s.(shared := Shared.Next(s.shared, w))
    case OnLocal(p, l) => s.(locals := s.locals[p := Local.Next(s.locals[p], l)])
    case Grant(i, l) =>
      var p := s.home[i].process;
      s.(daily := Daily.Next(s.daily, Daily.Admit(i)), shared := Shared.Next(s.shared, Shared.Stamp(i)),
         locals := s.locals[p := Local.Next(s.locals[p], l)])
  }

  ghost predicate Legal(s: Stack, steps: seq<Step>)
    decreases |steps|
  {
    steps == [] || (Enabled(s, steps[0]) && Legal(Next(s, steps[0]), steps[1..]))
  }

  ghost function Run(s: Stack, steps: seq<Step>): Stack
    requires Legal(s, steps)
    decreases |steps|
  {
    if steps == [] then s else Run(Next(s, steps[0]), steps[1..])
  }

  /** No step makes the day counter miss tokens. */
  ghost predicate SafeSteps(s: Stack, steps: seq<Step>)
    requires Legal(s, steps)
    decreases |steps|
  {
    steps != [] ==>
      && (steps[0].OnDaily? ==> Daily.Safe(s.daily, steps[0].d))
      && SafeSteps(Next(s, steps[0]), steps[1..])
  }

  // ---- Each layer sees a run of its own protocol ----

  function DailyPart(steps: seq<Step>): seq<Daily.Label> {
    if steps == [] then []
    else
      (match steps[0]
       case Tick(_, day, _) => [Daily.Midnight(day)]
       case OnDaily(d) => [d]
       case Grant(i, _) => [Daily.Admit(i)]
       case _ => [])
      + DailyPart(steps[1..])
  }

  function SharedPart(steps: seq<Step>): seq<Shared.Label> {
    if steps == [] then []
    else
      (match steps[0]
       case Tick(dt, _, _) => [Shared.Tick(dt)]
       case OnShared(w) => [w]
       case Grant(i, _) => [Shared.Stamp(i)]
       case _ => [])
      + SharedPart(steps[1..])
  }

  /** What a step is to the limiter of process p: one label or none. */
  function LocalLabel(home: seq<Place>, step: Step, p: nat): seq<Local.Label> {
    match step
    case Tick(dt, day, left) => [Local.Tick(dt, day, left)]
    case OnLocal(q, l) => if q == p then [l] else []
    case Grant(i, l) => if i < |home| && home[i].process == p then [l] else []
    case _ => []
  }

  function LocalPart(home: seq<Place>, steps: seq<Step>, p: nat): seq<Local.Label> {
    if steps == [] then [] else LocalLabel(home, steps[0], p) + LocalPart(home, steps[1..], p)
  }

  lemma {:induction false} DailyProjects(s: Stack, steps: seq<Step>)
    requires Legal(s, steps)
    ensures Daily.Legal(s.daily, DailyPart(steps)) && Daily.Run(s.daily, DailyPart(steps)) == Run(s, steps).daily
    ensures SafeSteps(s, steps) ==> Daily.SafeRun(s.daily, DailyPart(steps))
    decreases |steps|
  {
    if steps != [] {
      var rest := DailyPart(steps[1..]);
      DailyProjects(Next(s, steps[0]), steps[1..]);
      match steps[0]
      case Tick(_, day, _) => assert ([Daily.Midnight(day)] + rest)[1..] == rest;
      case OnDaily(d) => assert ([d] + rest)[1..] == rest;
      case Grant(i, _) => assert ([Daily.Admit(i)] + rest)[1..] == rest;
      case _ => assert [] + rest == rest;
    }
  }

  lemma {:induction false} SharedProjects(s: Stack, steps: seq<Step>)
    requires Legal(s, steps)
    ensures Shared.Legal(s.shared, SharedPart(steps)) && Shared.Run(s.shared, SharedPart(steps)) == Run(s, steps).shared
    decreases |steps|
  {
    if steps != [] {
      var rest := SharedPart(steps[1..]);
      SharedProjects(Next(s, steps[0]), steps[1..]);
      match steps[0]
      case Tick(dt, _, _) => assert ([Shared.Tick(dt)] + rest)[1..] == rest;
      case OnShared(w) => assert ([w] + rest)[1..] == rest;
      case Grant(i, _) => assert ([Shared.Stamp(i)] + rest)[1..] == rest;
      case _ => assert [] + rest == rest;
    }
  }

  /** A step is that label to the process, or leaves it alone. */
  lemma LocalStep(s: Stack, step: Step, p: nat)
    requires Enabled(s, step) && p < |s.locals|
    ensures var t, ls := Next(s, step), LocalLabel(s.home, step, p);
            && |t.locals| == |s.locals| && t.home == s.home
            && if ls == [] then t.locals[p] == s.locals[p]
               else Local.Enabled(s.locals[p], ls[0]) && t.locals[p] == Local.Next(s.locals[p], ls[0]) && |ls| == 1
  {
  }

  lemma LocalFirst(s: Local.State, ls: seq<Local.Label>, rest: seq<Local.Label>)
    requires |ls| == 1 && Local.Enabled(s, ls[0]) && Local.Legal(Local.Next(s, ls[0]), rest)
    ensures Local.Legal(s, ls + rest) && Local.Run(s, ls + rest) == Local.Run(Local.Next(s, ls[0]), rest)
  {
    assert (ls + rest)[1..] == rest;
  }

  lemma {:induction false} LocalProjects(s: Stack, steps: seq<Step>, p: nat)
    requires Legal(s, steps) && p < |s.locals|
    ensures |Run(s, steps).locals| == |s.locals|
    ensures var ls := LocalPart(s.home, steps, p);
            Local.Legal(s.locals[p], ls) && Local.Run(s.locals[p], ls) == Run(s, steps).locals[p]
    decreases |steps|
  {
    if steps != [] {
      var ls, rest := LocalLabel(s.home, steps[0], p), LocalPart(s.home, steps[1..], p);
      LocalStep(s, steps[0], p);
      LocalProjects(Next(s, steps[0]), steps[1..], p);
      if ls == [] {
        assert ls + rest == rest;
      } else {
        LocalFirst(s.locals[p], ls, rest);
      }
    }
  }

  // ---- What is booked where ----

  function Booked(locals: seq<Local.State>): nat {
    if locals == [] then 0 else Booked(locals[..|locals| - 1]) + |locals[|locals| - 1].log|
  }

  function Stamping(callers: seq<Shared.Caller>): nat {
    if callers == [] then 0
    else Stamping(callers[..|callers| - 1]) + (if callers[|callers| - 1].Stamped? then 1 else 0)
  }

  lemma {:induction false} BookedUpdate(locals: seq<Local.State>, p: nat, t: Local.State)
    requires p < |locals|
    ensures Booked(locals[p := t]) + |locals[p].log| == Booked(locals) + |t.log|
  {
    var last := |locals| - 1;
    if p == last {
      assert locals[p := t][..last] == locals[..last];
    } else {
      assert locals[p := t][..last] == locals[..last][p := t];
      BookedUpdate(locals[..last], p, t);
    }
  }

  lemma {:induction false} BookedSame(a: seq<Local.State>, b: seq<Local.State>)
    requires |a| == |b| && forall p :: 0 <= p < |a| ==> a[p].log == b[p].log
    ensures Booked(a) == Booked(b)
  {
    if a != [] {
      BookedSame(a[..|a| - 1], b[..|b| - 1]);
    }
  }

  lemma {:induction false} StampingUpdate(callers: seq<Shared.Caller>, i: nat, c: Shared.Caller)
    requires i < |callers|
    ensures Stamping(callers[i := c]) + (if callers[i].Stamped? then 1 else 0)
         == Stamping(callers) + (if c.Stamped? then 1 else 0)
  {
    var last := |callers| - 1;
    if i == last {
      assert callers[i := c][..last] == callers[..last];
    } else {
      assert callers[i := c][..last] == callers[..last][i := c];
      StampingUpdate(callers[..last], i, c);
    }
  }

  /** Every grant is booked by its process and on its day; every request stamped, and so sent, was
      granted. */
  ghost predicate Consistent(s: Stack) {
    && Booked(s.locals) == |s.daily.grants|
    && |s.shared.log| + Stamping(s.shared.callers) <= |s.daily.grants|
  }

  lemma LogGrowsByOne(s: Local.State, l: Local.Label)
    requires Local.Enabled(s, l)
    ensures |Local.Next(s, l).log| == |s.log| + (if Grants(s, l) then 1 else 0)
    ensures l.Tick? ==> Local.Next(s, l).log == s.log
  {
  }

  lemma DailyBooks(s: Daily.State, d: Daily.Label)
    requires Daily.Enabled(s, d)
    ensures |Daily.Next(s, d).grants| == |s.grants| + (if d.Admit? then 1 else 0)
  {
  }

  lemma SharedBooks(s: Shared.State, w: Shared.Label)
    requires Shared.Enabled(s, w)
    ensures var t := Shared.Next(s, w);
            |t.log| + Stamping(t.callers) <= |s.log| + Stamping(s.callers) + (if w.Stamp? then 1 else 0)
  {
    if !w.Tick? {
      var c := Shared.Next(s, w).callers[w.i];
      assert Shared.Next(s, w).callers == s.callers[w.i := c];
      StampingUpdate(s.callers, w.i, c);
    }
  }

  lemma ConsistentStep(s: Stack, step: Step)
    requires Consistent(s) && Enabled(s, step)
    ensures Consistent(Next(s, step))
  {
    match step
    case Tick(dt, day, left) =>
      BookedSame(s.locals, Next(s, step).locals);
      SharedBooks(s.shared, Shared.Tick(dt));
    case OnDaily(d) => DailyBooks(s.daily, d);
    case OnShared(w) => SharedBooks(s.shared, w);
    case OnLocal(p, l) =>
      LogGrowsByOne(s.locals[p], l);
      BookedUpdate(s.locals, p, Local.Next(s.locals[p], l));
    case Grant(i, l) =>
      var p := s.home[i].process;
      LogGrowsByOne(s.locals[p], l);
      BookedUpdate(s.locals, p, Local.Next(s.locals[p], l));
      DailyBooks(s.daily, Daily.Admit(i));
      SharedBooks(s.shared, Shared.Stamp(i));
  }

  lemma {:induction false} ConsistentRun(s: Stack, steps: seq<Step>)
    requires Consistent(s) && Legal(s, steps)
    ensures Consistent(Run(s, steps))
    decreases |steps|
  {
    if steps != [] {
      ConsistentStep(s, steps[0]);
      ConsistentRun(Next(s, steps[0]), steps[1..]);
    }
  }

  ghost predicate Initial(s: Stack) {
    && Daily.Initial(s.daily) && Shared.Initial(s.shared)
    && forall p :: 0 <= p < |s.locals| ==> Local.Initial(s.locals[p])
  }

  lemma {:induction false} NothingBooked(locals: seq<Local.State>)
    requires forall p :: 0 <= p < |locals| ==> locals[p].log == []
    ensures Booked(locals) == 0
  {
    if locals != [] {
      NothingBooked(locals[..|locals| - 1]);
    }
  }

  lemma {:induction false} NobodyStamps(callers: seq<Shared.Caller>)
    requires forall i :: 0 <= i < |callers| ==> callers[i].Out?
    ensures Stamping(callers) == 0
  {
    if callers != [] {
      NobodyStamps(callers[..|callers| - 1]);
    }
  }

  /** All bounds in one run of any number of processes, p being any of them: the day's tokens on
      Redis, the requests of any five minutes over all processes, both caps of the process, and the
      books between the layers. */
  lemma AllLayersHold(s: Stack, steps: seq<Step>, day: int, from: real, p: nat)
    requires Initial(s) && Legal(s, steps) && SafeSteps(s, steps) && p < |s.locals|
    ensures var t := Run(s, steps);
            && Daily.GrantedOn(t.daily.grants, day, false) <= (if s.daily.limit >= 0 then s.daily.limit else 0)
            && Shared.InWindow(t.shared.log, from) <= Cap(s.shared.limit, |s.shared.callers|)
            && |t.locals| == |s.locals|
            && Local.GrantsOn(t.locals[p].log, day) <= Cap(s.locals[p].lim.dailyLimit, |s.locals[p].tasks|)
            && CountIn(Local.Times(t.locals[p].log), from, from + FIVE_MINUTES)
               <= Cap(s.locals[p].lim.fiveMinLimit, |s.locals[p].tasks|)
            && Booked(t.locals) == |t.daily.grants| && |t.shared.log| <= |t.daily.grants|
  {
    DailyProjects(s, steps);
    Daily.HardCapHolds(s.daily, DailyPart(steps), day);
    SharedProjects(s, steps);
    Shared.SharedWindowCapHolds(s.shared, SharedPart(steps), from);
    LocalProjects(s, steps, p);
    Local.DailyCapHolds(s.locals[p], LocalPart(s.home, steps, p), day);
    Local.WindowCapHolds(s.locals[p], LocalPart(s.home, steps, p), from);
    NothingBooked(s.locals);
    NobodyStamps(s.shared.callers);
    ConsistentRun(s, steps);
  }
}
