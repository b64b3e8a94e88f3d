/** The soft ceiling of brsapi/budget.py: how much of a day's budget non-critical traffic can use.

    The gate reads the counter in one step and reserves in a later one, so N callers that read
    just below the ceiling can all reserve - but not more than that, whatever critical traffic
    is mixed in. */
module HeadRoom {
  import opened Prelude
  import opened ReservationProtocol

  /** The least usage the gate calls `pct` percent or more. */
  function PercentOf(pct: nat, limit: nat): nat { (pct * limit + 99) / 100 }

  lemma PercentReached(used: int, pct: nat, limit: nat)
    requires limit >= 1
    ensures used * 100 / limit >= pct <==> used >= PercentOf(pct, limit)
  {
    QuotientReaches(used * 100, pct, limit, pct * limit);
    HundredthsReach(used, pct * limit);
  }

  /** A quotient reaches q exactly when its numerator reaches q times the divisor. */
  lemma QuotientReaches(x: int, q: nat, d: nat, product: nat)
    requires d >= 1 && product == q * d
    ensures x / d >= q <==> x >= product
  {
    var k := x / d;
    DivisionParts(x, d);
    if k >= q {
      FactorMonotone(q, k, d);
    } else {
      FactorMonotone(k + 1, q, d);
      assert (k + 1) * d == k * d + d;
    }
  }

  lemma DivisionParts(x: int, d: nat)
    requires d >= 1
    ensures (x / d) * d <= x < (x / d) * d + d
  {
  }

  lemma FactorMonotone(a: int, b: int, d: nat)
    requires a <= b
    ensures a * d <= b * d
  {
  }

  lemma HundredthsReach(used: int, product: nat)
    ensures used * 100 >= product <==> used >= (product + 99) / 100
  {
  }

  /** The gate in the source's own terms: nobody passes a used-up limit; a critical request passes
      below it; a non-critical one if the usage is also below the warning or the soft percentage. */
  lemma GateInPercent(limit: int, warnPct: nat, softPct: nat, used: int)
    ensures GateOpen(limit, warnPct, softPct, used, true) <==> used < limit
    ensures used >= 0 ==>
              (GateOpen(limit, warnPct, softPct, used, false)
               <==> used < limit && (used * 100 < warnPct * limit || used * 100 < softPct * limit))
  {
    if limit >= 1 && used >= 0 {
      QuotientReaches(used * 100, warnPct, limit, warnPct * limit);
      QuotientReaches(used * 100, softPct, limit, softPct * limit);
    }
  }

  /** The usage from which non-critical requests are shed: the soft ceiling, or the warning
      threshold when that is set higher, since the gate returns early below it. */
  function CeilingOf(limit: int, warnPct: nat, softPct: nat): nat {
    if limit <= 0 then 0 else PercentOf(if softPct >= warnPct then softPct else warnPct, limit)
  }

  function Ceiling(s: State): nat { CeilingOf(s.limit, s.warnPct, s.softPct) }

  /** A non-critical request passes exactly below both the ceiling and the hard limit. */
  lemma GateSheds(limit: int, warnPct: nat, softPct: nat, used: int)
    requires used >= 0
    ensures GateOpen(limit, warnPct, softPct, used, false)
            <==> used < CeilingOf(limit, warnPct, softPct) && used < limit
  {
    if limit >= 1 {
      PercentReached(used, softPct, limit);
      PercentReached(used, warnPct, limit);
      if softPct >= warnPct {
        PercentMonotone(warnPct, softPct, limit);
      } else {
        PercentMonotone(softPct, warnPct, limit);
      }
    }
  }

  lemma PercentMonotone(p: nat, q: nat, limit: nat)
    requires p <= q
    ensures PercentOf(p, limit) <= PercentOf(q, limit)
  {
    FactorMonotone(p, q, limit);
  }

  /** Non-critical callers past the gate that have not reserved yet. */
  function Waiting(stages: seq<Stage>): nat {
    if stages == [] then 0
    else Waiting(stages[..|stages| - 1]) + (if Waits(stages[|stages| - 1]) then 1 else 0)
  }

  predicate Waits(stage: Stage) { stage.Gated? && !stage.critical }

  lemma {:induction false} WaitingUpdate(stages: seq<Stage>, i: nat, stage: Stage)
    requires i < |stages|
    ensures Waiting(stages[i := stage]) + (if Waits(stages[i]) then 1 else 0)
         == Waiting(stages) + (if Waits(stage) then 1 else 0)
  {
    var last := |stages| - 1;
    if i == last {
      assert stages[i := stage][..last] == stages[..last];
    } else {
      assert stages[i := stage][..last] == stages[..last][i := stage];
      WaitingUpdate(stages[..last], i, stage);
    }
  }

  /** Non-critical requests ask for one token, as every fetch does. */
  predicate OneToken(l: Label) { (l.Gate? || l.BlindGate?) && !l.critical ==> l.tokens == 1 }

  /** A gate whose read fails lets non-critical callers in unseen. */
  predicate Unseen(l: Label) { l.BlindGate? && !l.critical }

  function UnseenIn(ls: seq<Label>): nat {
    if ls == [] then 0 else (if Unseen(ls[0]) then 1 else 0) + UnseenIn(ls[1..])
  }

  /** The room when `unseen` non-critical callers got in past a failed read so far. */
  function RoomFor(s: State, unseen: nat): nat { Cap(Ceiling(s), |s.stages|) + unseen }

  ghost predicate RoomInv(s: State, unseen: nat) {
    && Capped(s)
    && (forall i :: 0 <= i < |s.stages| && Waits(s.stages[i]) ==> s.stages[i].tokens == 1)
    && (forall day :: day > s.today ==> Owed(s, day, false) == 0)
    && (forall day :: Owed(s, day, true) <= RoomFor(s, unseen))
    && Owed(s, s.today, true) + Waiting(s.stages) <= RoomFor(s, unseen)
  }

  lemma {:induction false} ShedHeldIsPart(stages: seq<Stage>, day: int)
    ensures HeldOn(stages, day, true) <= HeldOn(stages, day, false)
  {
    if stages != [] {
      ShedHeldIsPart(stages[..|stages| - 1], day);
    }
  }

  lemma {:induction false} ShedGrantedIsPart(grants: seq<Grant>, day: int)
    ensures GrantedOn(grants, day, true) <= GrantedOn(grants, day, false)
  {
    if grants != [] {
      ShedGrantedIsPart(grants[..|grants| - 1], day);
    }
  }

  /** What a day owes non-critical callers is part of what it owes, which the counter covers. */
  lemma ShedIsCovered(s: State, day: int)
    requires Capped(s)
    ensures Owed(s, day, true) <= Owed(s, day, false) <= At(s.keys, day)
  {
    ShedHeldIsPart(s.stages, day);
    ShedGrantedIsPart(s.grants, day);
    assert At(s.keys, day) == Owed(s, day, false) + At(s.drift, day);
    assert At(s.drift, day) >= 0;
  }

  lemma {:induction false} WaitingBound(stages: seq<Stage>)
    ensures Waiting(stages) <= |stages|
  {
    if stages != [] {
      WaitingBound(stages[..|stages| - 1]);
    }
  }

  /** Waiting callers ask for one token, and `unseen` counts the one the step adds unseen. */
  ghost predicate WaitsForOne(s: State) {
    forall i :: 0 <= i < |s.stages| && Waits(s.stages[i]) ==> s.stages[i].tokens == 1
  }

  function UnseenAfter(unseen: nat, l: Label): nat { if Unseen(l) then unseen + 1 else unseen }

  /** How a step changes one stage: only a gate makes a non-critical caller wait, for one token,
      and its reservation attempt ends the wait. */
  lemma StageStep(s: State, l: Label)
    requires WaitsForOne(s) && Enabled(s, l) && OneToken(l) && !l.Midnight?
    ensures var t := Next(s, l);
            && l.i < |s.stages| && t.stages == s.stages[l.i := t.stages[l.i]]
            && (Waits(t.stages[l.i]) ==> t.stages[l.i].tokens == 1 && (Waits(s.stages[l.i]) || l.Gate? || Unseen(l)))
            && (l.Gate? ==> !Waits(s.stages[l.i]) && (!l.critical && t != s <==> Waits(t.stages[l.i])))
            && (l.Reserve? || l.ReserveFault? ==> !Waits(t.stages[l.i]))
  {
  }

  /** The number that wait: one more past an open or failed gate, one less at a reservation. */
  lemma WaitingStep(s: State, l: Label)
    requires WaitsForOne(s) && Enabled(s, l) && OneToken(l)
    ensures var t := Next(s, l);
            && WaitsForOne(t) && Waiting(t.stages) <= |t.stages|
            && (if (l.Gate? && !l.critical && t != s) || Unseen(l) then Waiting(t.stages) <= Waiting(s.stages) + 1
                else if (l.Reserve? || l.ReserveFault?) && Waits(s.stages[l.i])
                then Waiting(t.stages) == Waiting(s.stages) - 1
                else Waiting(t.stages) <= Waiting(s.stages))
  {
    var t := Next(s, l);
    WaitingBound(t.stages);
    if !l.Midnight? {
      StageStep(s, l);
      WaitingUpdate(s.stages, l.i, t.stages[l.i]);
    }
  }

  /** What a non-critical caller newly holds it waited for. */
  lemma TakenWaited(s: State, l: Label, day: int)
    requires WaitsForOne(s) && Enabled(s, l)
    ensures Taken(s, l, day, true) <= if (l.Reserve? || l.ReserveFault?) && Waits(s.stages[l.i]) then 1 else 0
    ensures day != s.today ==> Taken(s, l, day, true) == 0 && Taken(s, l, day, false) == 0
  {
  }

  lemma RoomGate(s: State, unseen: nat, i: nat, critical: bool, n: nat)
    requires RoomInv(s, unseen) && Enabled(s, Gate(i, critical, n)) && OneToken(Gate(i, critical, n))
    ensures var t := Next(s, Gate(i, critical, n));
            Owed(t, t.today, true) + Waiting(t.stages) <= RoomFor(s, unseen)
  {
    var l := Gate(i, critical, n);
    WaitingStep(s, l);
    OwedStep(s, l, s.today, true);
    ShedIsCovered(s, s.today);
    GateSheds(s.limit, s.warnPct, s.softPct, Used(s));
  }

  lemma RoomStep(s: State, unseen: nat, l: Label)
    requires RoomInv(s, unseen) && Enabled(s, l) && Safe(s, l) && OneToken(l)
    ensures RoomInv(Next(s, l), UnseenAfter(unseen, l))
  {
    var t := Next(s, l);
    CappedStep(s, l);
    StepKeepsConfig(s, l);
    WaitingStep(s, l);
    forall day
      ensures day > t.today ==> Owed(t, day, false) == 0
      ensures Owed(t, day, true) <= RoomFor(s, UnseenAfter(unseen, l))
    {
      RoomStepOn(s, unseen, l, day);
    }
    RoomToday(s, unseen, l);
  }

  lemma RoomToday(s: State, unseen: nat, l: Label)
    requires RoomInv(s, unseen) && Enabled(s, l) && Safe(s, l) && OneToken(l)
    ensures var t := Next(s, l);
            Owed(t, t.today, true) + Waiting(t.stages) <= RoomFor(s, UnseenAfter(unseen, l))
  {
    if l.Gate? {
      RoomGate(s, unseen, l.i, l.critical, l.tokens);
    } else {
      var today := Next(s, l).today;
      WaitingStep(s, l);
      OwedStep(s, l, today, true);
      TakenWaited(s, l, today);
      if l.Midnight? && l.day > s.today {
        ShedIsCovered(s, l.day);
      }
    }
  }

  lemma RoomStepOn(s: State, unseen: nat, l: Label, day: int)
    requires RoomInv(s, unseen) && Enabled(s, l) && Safe(s, l) && OneToken(l)
    ensures var t := Next(s, l);
            && (day > t.today ==> Owed(t, day, false) == 0)
            && Owed(t, day, true) <= RoomFor(s, UnseenAfter(unseen, l))
  {
    OwedStep(s, l, day, true);
    OwedStep(s, l, day, false);
    TakenWaited(s, l, day);
    assert Owed(s, day, true) <= RoomFor(s, unseen);
    assert day > s.today ==> Owed(s, day, false) == 0;
    if (l.Reserve? || l.ReserveFault?) && Waits(s.stages[l.i]) {
      WaitingStep(s, l);
    }
  }

  /** Along the run every non-critical request asks for one token. */
  ghost predicate OneTokenRun(ls: seq<Label>) { forall k :: 0 <= k < |ls| ==> OneToken(ls[k]) }

  lemma {:induction false} RoomRun(s: State, unseen: nat, ls: seq<Label>)
    requires RoomInv(s, unseen) && Legal(s, ls) && SafeRun(s, ls) && OneTokenRun(ls)
    ensures RoomInv(Run(s, ls), unseen + UnseenIn(ls)) && SameConfig(s, Run(s, ls))
    decreases |ls|
  {
    if ls != [] {
      assert OneToken(ls[0]);
      RoomStep(s, unseen, ls[0]);
      StepKeepsConfig(s, ls[0]);
      var t, next := Next(s, ls[0]), UnseenAfter(unseen, ls[0]);
      RoomRun(t, next, ls[1..]);
      assert next + UnseenIn(ls[1..]) == unseen + UnseenIn(ls) && Run(s, ls) == Run(t, ls[1..]);
    }
  }

  /** What non-critical traffic can get in a day: the ceiling, N - 1 more, and those that got in
      past a failed read, all within the limit. */
  function Room(s: State, unseen: nat): nat {
    if s.limit <= 0 then 0 else if RoomFor(s, unseen) <= s.limit then RoomFor(s, unseen) else s.limit
  }

  /** With N callers and one-token requests, non-critical traffic gets at most
      ceil(pct * limit / 100) + N - 1 grants in a day, and one for every gate whose read failed,
      critical traffic or not, and never more than the limit. */
  lemma HeadRoomIsReserved(s: State, ls: seq<Label>, day: int)
    requires Initial(s) && Legal(s, ls) && SafeRun(s, ls) && OneTokenRun(ls)
    ensures GrantedOn(Run(s, ls).grants, day, true) <= Room(s, UnseenIn(ls))
  {
    InitialLedger(s);
    assert forall d :: At(s.keys, d) == Owed(s, d, false) + At(s.drift, d);
    NobodyWaits(s.stages);
    forall d ensures Owed(s, d, true) == 0 {
      NothingHeld(s.stages, d, true);
    }
    RoomRun(s, 0, ls);
    assert Owed(Run(s, ls), day, true) <= RoomFor(s, UnseenIn(ls));
    ShedIsCovered(Run(s, ls), day);
    assert Owed(Run(s, ls), day, false) <= if s.limit >= 0 then s.limit else 0;
  }

  lemma {:induction false} NobodyWaits(stages: seq<Stage>)
    requires forall i :: 0 <= i < |stages| ==> stages[i].Idle?
    ensures Waiting(stages) == 0
  {
    if stages != [] {
      NobodyWaits(stages[..|stages| - 1]);
    }
  }

  // ---- The bound is reached ----

  /** Some run from s grants non-critical callers the given total on the day. */
  ghost predicate CanGrant(s: State, day: int, total: nat) {
    exists ls ::
      && Legal(s, ls) && SafeRun(s, ls) && OneTokenRun(ls) && UnseenIn(ls) == 0
      && GrantedOn(Run(s, ls).grants, day, true) == total
  }

  lemma GrantsAfter(s: State, l: Label, day: int, total: nat)
    requires Enabled(s, l) && Safe(s, l) && OneToken(l) && !Unseen(l) && CanGrant(Next(s, l), day, total)
    ensures CanGrant(s, day, total)
  {
    var t := Next(s, l);
    var ls :| Legal(t, ls) && SafeRun(t, ls) && OneTokenRun(ls) && UnseenIn(ls) == 0
              && GrantedOn(Run(t, ls).grants, day, true) == total;
    assert ([l] + ls)[1..] == ls;
    assert Legal(s, [l] + ls) && SafeRun(s, [l] + ls) && OneTokenRun([l] + ls);
  }

  /** The counter is what non-critical callers were granted; those from lo to hi are past the gate. */
  ghost predicate Gathering(s: State, lo: nat, hi: nat) {
    && s.hasEval && hi <= |s.stages| && Used(s) == GrantedOn(s.grants, s.today, true) <= s.limit
    && forall i :: 0 <= i < |s.stages| ==> s.stages[i] == if lo <= i < hi then Gated(false, 1) else Idle
  }

  lemma Gathers(s: State, hi: nat)
    requires Gathering(s, 0, hi) && hi < |s.stages| && Used(s) < Ceiling(s) && Used(s) < s.limit
    ensures Next(s, Gate(hi, false, 1)) == Put(s, hi, Gated(false, 1))
    ensures Gathering(Next(s, Gate(hi, false, 1)), 0, hi + 1)
  {
    GateSheds(s.limit, s.warnPct, s.softPct, Used(s));
  }

  /** A gated caller reserves and is granted while the limit lasts. */
  lemma Reserves(s: State, lo: nat, hi: nat, total: nat) returns (t: State)
    requires Gathering(s, lo, hi) && lo < hi
    ensures Gathering(t, lo + 1, hi) && SameConfig(s, t) && t.today == s.today
    ensures Used(t) == if Used(s) < s.limit then Used(s) + 1 else Used(s)
    ensures CanGrant(t, s.today, total) ==> CanGrant(s, s.today, total)
  {
    t := Next(s, Reserve(lo));
    var asked := t;
    if Used(s) < s.limit {
      t := Next(asked, Admit(lo));
      assert t.grants[..|s.grants|] == s.grants;
    }
    if CanGrant(t, s.today, total) {
      if Used(s) < s.limit {
        GrantsAfter(asked, Admit(lo), s.today, total);
      }
      GrantsAfter(s, Reserve(lo), s.today, total);
    }
  }

  function Within(n: int, limit: int): int { if n <= limit then n else limit }

  lemma {:induction false} AllReserve(s: State, lo: nat)
    requires Gathering(s, lo, |s.stages|) && lo <= |s.stages|
    ensures Within(Used(s) + |s.stages| - lo, s.limit) >= 0
    ensures CanGrant(s, s.today, Within(Used(s) + |s.stages| - lo, s.limit))
    decreases |s.stages| - lo
  {
    if lo == |s.stages| {
      assert Legal(s, []) && SafeRun(s, []) && OneTokenRun([]) && Run(s, []) == s;
    } else {
      var t := Reserves(s, lo, |s.stages|, Within(Used(s) + |s.stages| - lo, s.limit));
      AllReserve(t, lo + 1);
    }
  }

  lemma {:induction false} AllGather(s: State, hi: nat)
    requires Gathering(s, 0, hi) && Used(s) < Ceiling(s) && Used(s) < s.limit
    ensures CanGrant(s, s.today, Within(Used(s) + |s.stages|, s.limit))
    decreases |s.stages| - hi
  {
    if hi == |s.stages| {
      AllReserve(s, 0);
    } else {
      Gathers(s, hi);
      AllGather(Next(s, Gate(hi, false, 1)), hi + 1);
      GrantsAfter(s, Gate(hi, false, 1), s.today, Within(Used(s) + |s.stages|, s.limit));
    }
  }

  /** One caller uses up the room but for one token, then all pass the gate and reserve. */
  lemma {:induction false} OneByOne(s: State, left: nat)
    requires Gathering(s, 0, 0) && s.stages != []
    requires Used(s) + left + 1 == Within(Ceiling(s), s.limit)
    ensures CanGrant(s, s.today, Within(Used(s) + left + |s.stages|, s.limit))
    decreases left
  {
    if left == 0 {
      AllGather(s, 0);
    } else {
      Gathers(s, 0);
      var gated := Next(s, Gate(0, false, 1));
      var t := Reserves(gated, 0, 1, Within(Used(s) + left + |s.stages|, s.limit));
      OneByOne(t, left - 1);
      GrantsAfter(s, Gate(0, false, 1), s.today, Within(Used(s) + left + |s.stages|, s.limit));
    }
  }

  /** For every limit, every pair of percentages and every N the bound of HeadRoomIsReserved is
      reached from the start. */
  lemma HeadRoomIsReached(limit: int, warnPct: nat, softPct: nat, n: nat)
    requires n >= 1
    ensures var s := State(limit, warnPct, softPct, true, 0, map[], seq(n, i => Idle), [], map[]);
            && Initial(s)
            && exists ls ::
                 && Legal(s, ls) && SafeRun(s, ls) && OneTokenRun(ls) && UnseenIn(ls) == 0
                 && GrantedOn(Run(s, ls).grants, 0, true) == Room(s, UnseenIn(ls))
  {
    var s := State(limit, warnPct, softPct, true, 0, map[], seq(n, i => Idle), [], map[]);
    assert Legal(s, []) && SafeRun(s, []) && OneTokenRun([]) && Run(s, []) == s;
    if limit >= 1 && Ceiling(s) >= 1 {
      OneByOne(s, Within(Ceiling(s), limit) - 1);
      assert CanGrant(s, 0, Room(s, 0));
    }
  }
}
