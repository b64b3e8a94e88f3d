/** brsapi/budget.py on Redis: many callers in many processes share one counter per Tehran day.

    A caller reads and gates, reserves, and is then granted or releases.  The release is two
    commands, a decrement and a conditional delete.  `drift` is the ledger of everything that
    makes the counter differ from what was granted or is held: a lost or failed command, a
    release against another day's key, and a delete that finds the key in use again. */
module ReservationProtocol {
  import opened Prelude

  datatype Stage =
    | Idle
    | Gated(critical: bool, tokens: nat)
    | Held(critical: bool, tokens: nat, day: int)
    | Clearing(day: int)

  datatype Grant = Grant(critical: bool, tokens: nat, day: int)

  datatype State = State(
    limit: int, warnPct: nat, softPct: nat, hasEval: bool,
    today: int, keys: map<int, int>, stages: seq<Stage>,
    grants: seq<Grant>, drift: map<int, int>)

  datatype Label =
    | Midnight(day: int)
    | Gate(i: nat, critical: bool, tokens: nat)
    | BlindGate(i: nat, critical: bool, tokens: nat)  // the read fails and counts as 0
    | Reserve(i: nat)
    | Admit(i: nat)
    | Release(i: nat)
    | Clear(i: nat)
    | GiveUp(i: nat)        // cancelled before reserving, or the delete fails
    | ReserveLost(i: nat)   // cancelled while the reply is on its way
    | ReserveFault(i: nat, ran: bool, blind: bool)  // the command fails, perhaps after it ran, and a
                                                    // read is used instead, which may fail and be 0
    | ReleaseFault(i: nat)  // the decrement fails

  function At(m: map<int, int>, day: int): int { if day in m then m[day] else 0 }

  function Plus(m: map<int, int>, day: int, n: int): map<int, int> { m[day := At(m, day) + n] }

  function Used(s: State): int { At(s.keys, s.today) }

  /** _gate_daily_usage: the soft ceiling is only looked at from the warning threshold up. */
  predicate TierOpen(limit: int, warnPct: nat, softPct: nat, used: int, critical: bool) {
    limit <= 0 || critical || var pct := used * 100 / limit; pct < warnPct || pct < softPct
  }

  /** acquire lines 476-479: the hard cap first, then the tiers. */
  predicate GateOpen(limit: int, warnPct: nat, softPct: nat, used: int, critical: bool) {
    used < limit && TierOpen(limit, warnPct, softPct, used, critical)
  }

  predicate Enabled(s: State, l: Label) {
    match l
    case Midnight(day) => day >= s.today
    case Gate(i, _, _) => i < |s.stages| && s.stages[i].Idle?
    case BlindGate(i, _, _) => i < |s.stages| && s.stages[i].Idle?
    case Reserve(i) => i < |s.stages| && s.stages[i].Gated?
    case ReserveLost(i) => i < |s.stages| && s.stages[i].Gated?
    case ReserveFault(i, _, _) => i < |s.stages| && s.stages[i].Gated?
    case Admit(i) => i < |s.stages| && s.stages[i].Held?
    case Release(i) => i < |s.stages| && s.stages[i].Held?
    case ReleaseFault(i) => i < |s.stages| && s.stages[i].Held?
    case Clear(i) => i < |s.stages| && s.stages[i].Clearing?
    case GiveUp(i) => i < |s.stages| && (s.stages[i].Gated? || s.stages[i].Clearing?)
  }

  function Put(s: State, i: nat, stage: Stage): State
    requires i < |s.stages|
  {
    s.(stages := s.stages[i := stage])
  }

  /** Whether the command counts n tokens: the script refuses, the plain INCRBY never does. */
  predicate Counts(s: State, n: nat) { !s.hasEval || Used(s) + n <= s.limit }

  /** Whether the caller takes the reply for a reservation: the script's reply must also not be
      negative, since -1 means refused. */
  predicate Reserved(s: State, n: nat) {
    Used(s) + n <= s.limit && (s.hasEval ==> Used(s) + n >= 0)
  }

  /** Whether the caller takes the read after a failed command for a reservation. */
  predicate FallsBack(s: State, n: nat, ran: bool, blind: bool) {
    (if blind then 0 else if ran && Counts(s, n) then Used(s) + n else Used(s)) <= s.limit
  }

  function Next(s: State, l: Label): State
    requires Enabled(s, l)
  {
    match l
    case Midnight(day) => s.(today := day)
    case Gate(i, critical, n) =>
      if GateOpen(s.limit, s.warnPct, s.softPct, Used(s), critical) then Put(s, i, Gated(critical, n)) else s
    case BlindGate(i, critical, n) =>
      if GateOpen(s.limit, s.warnPct, s.softPct, 0, critical) then Put(s, i, Gated(critical, n)) else s
    case Reserve(i) =>
      var n, critical := s.stages[i].tokens, s.stages[i].critical;
      if Reserved(s, n) then Put(s, i, Held(critical, n, s.today)).(keys := Plus(s.keys, s.today, n))
      else if Counts(s, n) then
        Put(s, i, Idle).(keys := Plus(s.keys, s.today, n), drift := Plus(s.drift, s.today, n))
      else Put(s, i, Idle)
    case ReserveLost(i) =>
      var n := s.stages[i].tokens;
      if Counts(s, n) then
        Put(s, i, Idle).(keys := Plus(s.keys, s.today, n), drift := Plus(s.drift, s.today, n))
      else Put(s, i, Idle)
    case ReserveFault(i, ran, blind) =>
      var n, critical := s.stages[i].tokens, s.stages[i].critical;
      var counted, held := ran && Counts(s, n), FallsBack(s, n, ran, blind);
      Put(s, i, if held then Held(critical, n, s.today) else Idle).(
        keys := if counted then Plus(s.keys, s.today, n) else s.keys,
        drift := Plus(s.drift, s.today, (if counted then n else 0) - (if held then n else 0)))
    case Admit(i) =>
      var h := s.stages[i];
      Put(s, i, Idle).(grants := s.grants + [Grant(h.critical, h.tokens, h.day)])
    case Release(i) =>
      var h := s.stages[i];
      if h.tokens == 0 then Put(s, i, Idle)
      else
        var keys := Plus(s.keys, s.today, 0 - h.tokens);
        Put(s, i, if At(keys, s.today) <= 0 then Clearing(s.today) else Idle)
          .(keys := keys, drift := Plus(Plus(s.drift, s.today, 0 - h.tokens), h.day, h.tokens))
    case ReleaseFault(i) =>
      var h := s.stages[i];
      Put(s, i, Idle).(drift := Plus(s.drift, h.day, h.tokens))
    case Clear(i) =>
      var day := s.stages[i].day;
      Put(s, i, Idle).(keys := s.keys - {day}, drift := Plus(s.drift, day, -At(s.keys, day)))
    case GiveUp(i) => Put(s, i, Idle)
  }

  ghost predicate Legal(s: State, ls: seq<Label>)
    decreases |ls|
  {
    ls == [] || (Enabled(s, ls[0]) && Legal(Next(s, ls[0]), ls[1..]))
  }

  ghost function Run(s: State, ls: seq<Label>): State
    requires Legal(s, ls)
    decreases |ls|
  {
    if ls == [] then s else Run(Next(s, ls[0]), ls[1..])
  }

  predicate SameConfig(s: State, t: State) {
    && t.limit == s.limit && t.warnPct == s.warnPct && t.softPct == s.softPct
    && t.hasEval == s.hasEval && |t.stages| == |s.stages|
  }

  lemma StepKeepsConfig(s: State, l: Label)
    requires Enabled(s, l)
    ensures SameConfig(s, Next(s, l))
  {
  }

  ghost predicate Initial(s: State) {
    && s.keys == map[] && s.drift == map[] && s.grants == []
    && forall i :: 0 <= i < |s.stages| ==> s.stages[i].Idle?
  }

  // ---- The ledger ----

  /** Tokens a stage holds on a day; with `shed`, only those of non-critical callers. */
  function Weight(stage: Stage, day: int, shed: bool): nat {
    if stage.Held? && stage.day == day && !(shed && stage.critical) then stage.tokens else 0
  }

  function HeldOn(stages: seq<Stage>, day: int, shed: bool): nat {
    if stages == [] then 0
    else HeldOn(stages[..|stages| - 1], day, shed) + Weight(stages[|stages| - 1], day, shed)
  }

  function GrantedOn(grants: seq<Grant>, day: int, shed: bool): nat {
    if grants == [] then 0
    else
      var g := grants[|grants| - 1];
      GrantedOn(grants[..|grants| - 1], day, shed) + (if g.day == day && !(shed && g.critical) then g.tokens else 0)
  }

  /** Granted plus in-flight tokens of a day. */
  function Owed(s: State, day: int, shed: bool): nat {
    GrantedOn(s.grants, day, shed) + HeldOn(s.stages, day, shed)
  }

  ghost predicate Ledger(s: State) {
    forall day :: At(s.keys, day) == Owed(s, day, false) + At(s.drift, day)
  }

  lemma {:induction false} HeldUpdate(stages: seq<Stage>, i: nat, stage: Stage, day: int, shed: bool)
    requires i < |stages|
    ensures HeldOn(stages[i := stage], day, shed) + Weight(stages[i], day, shed)
         == HeldOn(stages, day, shed) + Weight(stage, day, shed)
  {
    var last := |stages| - 1;
    if i == last {
      assert stages[i := stage][..last] == stages[..last];
    } else {
      assert stages[i := stage][..last] == stages[..last][i := stage];
      HeldUpdate(stages[..last], i, stage, day, shed);
    }
  }

  lemma {:induction false} NothingHeld(stages: seq<Stage>, day: int, shed: bool)
    requires forall i :: 0 <= i < |stages| ==> Weight(stages[i], day, shed) == 0
    ensures HeldOn(stages, day, shed) == 0
  {
    if stages != [] {
      NothingHeld(stages[..|stages| - 1], day, shed);
    }
  }

  /** Tokens a step starts to hold for a day, and tokens it gives back. */
  function Taken(s: State, l: Label, day: int, shed: bool): nat
    requires Enabled(s, l)
  {
    if (l.Reserve? || l.ReserveFault?) && Next(s, l).stages[l.i].Held? then
      Weight(Next(s, l).stages[l.i], day, shed)
    else 0
  }

  function Returned(s: State, l: Label, day: int, shed: bool): nat
    requires Enabled(s, l)
  {
    if l.Release? || l.ReleaseFault? then Weight(s.stages[l.i], day, shed) else 0
  }

  lemma GrantedStep(s: State, l: Label, day: int, shed: bool)
    requires Enabled(s, l)
    ensures GrantedOn(Next(s, l).grants, day, shed)
         == GrantedOn(s.grants, day, shed) + (if l.Admit? then Weight(s.stages[l.i], day, shed) else 0)
  {
    if l.Admit? {
      assert Next(s, l).grants[..|s.grants|] == s.grants;
    }
  }

  lemma OneStageMoves(s: State, l: Label)
    requires Enabled(s, l) && !l.Midnight?
    ensures Next(s, l).stages == s.stages[l.i := Next(s, l).stages[l.i]]
  {
  }

  lemma WeightStep(s: State, l: Label, day: int, shed: bool)
    requires Enabled(s, l) && !l.Midnight?
    ensures Weight(Next(s, l).stages[l.i], day, shed) + (if l.Admit? then Weight(s.stages[l.i], day, shed) else 0)
         == Weight(s.stages[l.i], day, shed) + Taken(s, l, day, shed) - Returned(s, l, day, shed)
  {
  }

  lemma HeldStep(s: State, l: Label, day: int, shed: bool)
    requires Enabled(s, l)
    ensures HeldOn(Next(s, l).stages, day, shed) + (if l.Admit? then Weight(s.stages[l.i], day, shed) else 0)
         == HeldOn(s.stages, day, shed) + Taken(s, l, day, shed) - Returned(s, l, day, shed)
  {
    if !l.Midnight? {
      OneStageMoves(s, l);
      WeightStep(s, l, day, shed);
      HeldUpdate(s.stages, l.i, Next(s, l).stages[l.i], day, shed);
    }
  }

  /** Where a step moves tokens: Owed changes only when a reservation succeeds or is given back. */
  lemma OwedStep(s: State, l: Label, day: int, shed: bool)
    requires Enabled(s, l)
    ensures Owed(Next(s, l), day, shed) == Owed(s, day, shed) + Taken(s, l, day, shed) - Returned(s, l, day, shed)
  {
    GrantedStep(s, l, day, shed);
    HeldStep(s, l, day, shed);
  }

  /** A day's counter net of drift, which is what the day owes when the books are right. */
  function Net(s: State, day: int): int { At(s.keys, day) - At(s.drift, day) }

  lemma NetReserve(s: State, l: Label, day: int)
    requires Enabled(s, l) && (l.Reserve? || l.ReserveLost?)
    ensures Net(Next(s, l), day) == Net(s, day) + Taken(s, l, day, false)
  {
  }

  lemma NetFault(s: State, l: Label, day: int)
    requires Enabled(s, l) && l.ReserveFault?
    ensures Net(Next(s, l), day) == Net(s, day) + Taken(s, l, day, false)
  {
  }

  lemma NetRelease(s: State, l: Label, day: int)
    requires Enabled(s, l) && (l.Release? || l.ReleaseFault? || l.Clear?)
    ensures Net(Next(s, l), day) == Net(s, day) - Returned(s, l, day, false)
  {
  }

  /** What a step does to it. */
  lemma BooksStep(s: State, l: Label, day: int)
    requires Enabled(s, l)
    ensures Net(Next(s, l), day) == Net(s, day) + Taken(s, l, day, false) - Returned(s, l, day, false)
  {
    if l.Reserve? || l.ReserveLost? {
      NetReserve(s, l, day);
    } else if l.ReserveFault? {
      NetFault(s, l, day);
    } else if l.Release? || l.ReleaseFault? || l.Clear? {
      NetRelease(s, l, day);
    }
  }

  lemma LedgerStep(s: State, l: Label)
    requires Ledger(s) && Enabled(s, l)
    ensures Ledger(Next(s, l))
  {
    forall day ensures At(Next(s, l).keys, day) == Owed(Next(s, l), day, false) + At(Next(s, l).drift, day) {
      LedgerStepOn(s, l, day);
    }
  }

  lemma LedgerStepOn(s: State, l: Label, day: int)
    requires At(s.keys, day) == Owed(s, day, false) + At(s.drift, day) && Enabled(s, l)
    ensures var t := Next(s, l); At(t.keys, day) == Owed(t, day, false) + At(t.drift, day)
  {
    OwedStep(s, l, day, false);
    BooksStep(s, l, day);
  }

  /** In every run, faults included, each day's counter is granted plus held tokens plus drift. */
  lemma {:induction false} LedgerHolds(s: State, ls: seq<Label>)
    requires Ledger(s) && Legal(s, ls)
    ensures Ledger(Run(s, ls))
    decreases |ls|
  {
    if ls != [] {
      LedgerStep(s, ls[0]);
      LedgerHolds(Next(s, ls[0]), ls[1..]);
    }
  }

  lemma InitialLedger(s: State)
    requires Initial(s)
    ensures Ledger(s)
  {
    forall day, shed ensures HeldOn(s.stages, day, shed) == 0 {
      NothingHeld(s.stages, day, shed);
    }
  }

  // ---- When the counter is exact ----

  /** The step leaves no trace but a grant or a hold: what the server counts the caller holds,
      the release is on the day of the reservation, the delete finds the key at zero, and no
      command is lost. */
  predicate Clean(s: State, l: Label)
    requires Enabled(s, l)
  {
    match l
    case Reserve(i) => s.stages[i].tokens == 0 || (Counts(s, s.stages[i].tokens) <==> Reserved(s, s.stages[i].tokens))
    case ReserveLost(i) => s.stages[i].tokens == 0 || !Counts(s, s.stages[i].tokens)
    case ReserveFault(i, ran, blind) =>
      var n := s.stages[i].tokens;
      n == 0 || (ran && Counts(s, n) <==> FallsBack(s, n, ran, blind))
    case Release(i) => s.stages[i].tokens == 0 || s.stages[i].day == s.today
    case ReleaseFault(i) => s.stages[i].tokens == 0
    case Clear(i) => At(s.keys, s.stages[i].day) == 0
    case _ => true
  }

  /** Exactly the clean steps leave the drift as it is. */
  lemma DriftIsUncleanSteps(s: State, l: Label)
    requires Enabled(s, l)
    ensures (forall day :: At(Next(s, l).drift, day) == At(s.drift, day)) <==> Clean(s, l)
  {
    var t := Next(s, l);
    if !Clean(s, l) {
      var day := if l.Release? || l.ReleaseFault? || l.Clear? then s.stages[l.i].day else s.today;
      assert At(t.drift, day) != At(s.drift, day);
    }
  }

  ghost predicate CleanRun(s: State, ls: seq<Label>)
    requires Legal(s, ls)
    decreases |ls|
  {
    ls != [] ==> Clean(s, ls[0]) && CleanRun(Next(s, ls[0]), ls[1..])
  }

  lemma {:induction false} CleanRunKeepsDrift(s: State, ls: seq<Label>, day: int)
    requires Legal(s, ls) && CleanRun(s, ls)
    ensures At(Run(s, ls).drift, day) == At(s.drift, day)
    decreases |ls|
  {
    if ls != [] {
      assert At(Next(s, ls[0]).drift, day) == At(s.drift, day);
      CleanRunKeepsDrift(Next(s, ls[0]), ls[1..], day);
    }
  }

  /** With atomic same-day releases and no fault, the shared counter is exactly what was granted
      plus what is in flight: a request that was turned away or cancelled leaves no trace. */
  lemma CounterIsExact(s: State, ls: seq<Label>, day: int)
    requires Initial(s) && Legal(s, ls) && CleanRun(s, ls)
    ensures At(Run(s, ls).keys, day) == Owed(Run(s, ls), day, false)
  {
    InitialLedger(s);
    LedgerHolds(s, ls);
    CleanRunKeepsDrift(s, ls, day);
    assert At(Run(s, ls).keys, day) == Owed(Run(s, ls), day, false) + At(Run(s, ls).drift, day);
  }

  // ---- The hard cap ----

  /** The step never makes the counter miss tokens; over-counting (a lost reply, a failed
      release, a refused plain INCRBY) is allowed. */
  predicate Safe(s: State, l: Label)
    requires Enabled(s, l)
  {
    match l
    case ReserveFault(i, ran, blind) =>
      var n := s.stages[i].tokens;
      n == 0 || !FallsBack(s, n, ran, blind) || (ran && Counts(s, n) && Used(s) + n <= s.limit)
    case Release(i) => s.stages[i].tokens == 0 || s.stages[i].day == s.today
    case Clear(i) => At(s.keys, s.stages[i].day) <= 0
    case _ => true
  }

  ghost predicate SafeRun(s: State, ls: seq<Label>)
    requires Legal(s, ls)
    decreases |ls|
  {
    ls != [] ==> Safe(s, ls[0]) && SafeRun(Next(s, ls[0]), ls[1..])
  }

  ghost predicate Capped(s: State) {
    && Ledger(s)
    && (forall day :: At(s.drift, day) >= 0)
    && (forall day :: Owed(s, day, false) <= if s.limit >= 0 then s.limit else 0)
    && (s.hasEval ==> forall day :: At(s.keys, day) <= if s.limit >= 0 then s.limit else 0)
  }

  lemma CappedStep(s: State, l: Label)
    requires Capped(s) && Enabled(s, l) && Safe(s, l)
    ensures Capped(Next(s, l))
  {
    var t := Next(s, l);
    LedgerStep(s, l);
    forall day
      ensures At(t.drift, day) >= 0
      ensures Owed(t, day, false) <= if s.limit >= 0 then s.limit else 0
      ensures s.hasEval ==> At(t.keys, day) <= if s.limit >= 0 then s.limit else 0
    {
      CappedStepOn(s, l, day);
    }
  }

  /** A safe step takes no token off the drift. */
  lemma DriftStays(s: State, l: Label, day: int)
    requires Enabled(s, l) && Safe(s, l) && At(s.drift, day) >= 0
    ensures At(Next(s, l).drift, day) >= 0
  {
  }

  /** What a safe step newly holds, it holds for today and within the limit. */
  lemma TakenFits(s: State, l: Label, day: int)
    requires Enabled(s, l) && Safe(s, l)
    ensures Taken(s, l, day, false) > 0 ==>
              day == s.today && Used(s) + Taken(s, l, day, false) <= s.limit
  {
  }

  /** The script never counts past the limit. */
  lemma ScriptStays(s: State, l: Label, day: int)
    requires Enabled(s, l) && Safe(s, l) && s.hasEval
    requires At(s.keys, day) <= if s.limit >= 0 then s.limit else 0
    ensures At(Next(s, l).keys, day) <= if s.limit >= 0 then s.limit else 0
  {
  }

  lemma CappedStepOn(s: State, l: Label, day: int)
    requires Enabled(s, l) && Safe(s, l)
    requires At(s.keys, day) == Owed(s, day, false) + At(s.drift, day) && At(s.drift, day) >= 0
    requires Owed(s, day, false) <= if s.limit >= 0 then s.limit else 0
    requires s.hasEval ==> At(s.keys, day) <= if s.limit >= 0 then s.limit else 0
    ensures var t := Next(s, l);
            && At(t.drift, day) >= 0
            && Owed(t, day, false) <= (if s.limit >= 0 then s.limit else 0)
            && (s.hasEval ==> At(t.keys, day) <= if s.limit >= 0 then s.limit else 0)
  {
    OwedStep(s, l, day, false);
    DriftStays(s, l, day);
    TakenFits(s, l, day);
    if s.hasEval {
      ScriptStays(s, l, day);
    }
  }

  lemma {:induction false} CappedRun(s: State, ls: seq<Label>)
    requires Capped(s) && Legal(s, ls) && SafeRun(s, ls)
    ensures Capped(Run(s, ls)) && SameConfig(s, Run(s, ls))
    decreases |ls|
  {
    if ls != [] {
      CappedStep(s, ls[0]);
      StepKeepsConfig(s, ls[0]);
      CappedRun(Next(s, ls[0]), ls[1..]);
    }
  }

  /** For any number of processes: granted plus reserved tokens of a day stay within the daily
      limit, and with the script so does the counter. */
  lemma HardCapHolds(s: State, ls: seq<Label>, day: int)
    requires Initial(s) && Legal(s, ls) && SafeRun(s, ls)
    ensures var limit := if s.limit >= 0 then s.limit else 0;
            && Owed(Run(s, ls), day, false) <= limit
            && (s.hasEval ==> At(Run(s, ls).keys, day) <= limit)
  {
    InitialLedger(s);
    assert forall d :: At(s.keys, d) == Owed(s, d, false) + At(s.drift, d);
    CappedRun(s, ls);
  }

  // ---- When the cap holds at all ----

  /** Anything but a day change and a failing reserve command: cancellations, lost replies, failed
      releases and failed reads included. */
  predicate Calm(l: Label) { !l.Midnight? && !l.ReserveFault? }

  ghost predicate CalmRun(s: State, ls: seq<Label>) {
    Legal(s, ls) && forall k :: 0 <= k < |ls| ==> Calm(ls[k])
  }

  /** No calm run within one day grants more than the limit. */
  ghost predicate CapHolds(s: State) {
    forall ls, day :: CalmRun(s, ls) ==> GrantedOn(Run(s, ls).grants, day, false) <= if s.limit >= 0 then s.limit else 0
  }

  /** The daily cap holds within a day exactly if the limit lets nobody in or there is at most one
      caller: two are enough to lose it, with no command failing. */
  lemma DailyCapHoldsIff(s: State)
    requires Initial(s)
    ensures CapHolds(s) <==> s.limit <= 0 || |s.stages| <= 1
  {
    if s.limit <= 0 {
      forall ls, day | CalmRun(s, ls) ensures GrantedOn(Run(s, ls).grants, day, false) <= 0 {
        NobodyEnters(s, ls);
      }
    } else if |s.stages| <= 1 {
      forall ls, day | CalmRun(s, ls) ensures GrantedOn(Run(s, ls).grants, day, false) <= s.limit {
        LoneRunIsSafe(s, ls);
        HardCapHolds(s, ls, day);
      }
    } else {
      LateDeleteLosesReservation(s, s.limit + 1);
    }
  }

  ghost predicate Empty(s: State) {
    s.keys == map[] && s.grants == [] && forall i :: 0 <= i < |s.stages| ==> s.stages[i].Idle?
  }

  lemma {:induction false} NobodyEnters(s: State, ls: seq<Label>)
    requires Empty(s) && s.limit <= 0 && CalmRun(s, ls)
    ensures Run(s, ls).grants == []
    decreases |ls|
  {
    if ls != [] {
      assert Calm(ls[0]);
      NobodyEnters(Next(s, ls[0]), ls[1..]);
    }
  }

  /** The one caller holds today's tokens, or is about to delete a key that is used up. */
  ghost predicate Lone(s: State) {
    && |s.stages| <= 1
    && (s.stages != [] && s.stages[0].Held? ==> s.stages[0].day == s.today)
    && (s.stages != [] && s.stages[0].Clearing? ==> At(s.keys, s.stages[0].day) <= 0)
  }

  lemma LoneStep(s: State, l: Label)
    requires Lone(s) && Enabled(s, l) && Calm(l)
    ensures Safe(s, l) && Lone(Next(s, l))
  {
  }

  lemma {:induction false} LoneRunIsSafe(s: State, ls: seq<Label>)
    requires Lone(s) && CalmRun(s, ls)
    ensures SafeRun(s, ls)
    decreases |ls|
  {
    if ls != [] {
      assert Calm(ls[0]);
      LoneStep(s, ls[0]);
      LoneRunIsSafe(Next(s, ls[0]), ls[1..]);
    }
  }

  // ---- Two callers exceed every limit ----

  /** Nothing fails, nothing is lost, nobody is cancelled, and the day does not change. */
  predicate Undisturbed(l: Label) { l.Gate? || l.Reserve? || l.Admit? || l.Release? || l.Clear? }

  /** Undisturbed steps lead from s to the given total on the day. */
  ghost predicate CanReach(s: State, day: int, total: nat) {
    exists ls ::
      && Legal(s, ls) && (forall k :: 0 <= k < |ls| ==> Undisturbed(ls[k]))
      && GrantedOn(Run(s, ls).grants, day, false) == total
  }

  lemma StepFirst(s: State, l: Label, day: int, total: nat)
    requires Enabled(s, l) && Undisturbed(l) && CanReach(Next(s, l), day, total)
    ensures CanReach(s, day, total)
  {
    var t := Next(s, l);
    var ls :| Legal(t, ls) && (forall k :: 0 <= k < |ls| ==> Undisturbed(ls[k]))
              && GrantedOn(Run(t, ls).grants, day, false) == total;
    assert ([l] + ls)[1..] == ls;
    assert Legal(s, [l] + ls) && Run(s, [l] + ls) == Run(t, ls);
  }

  /** The first two callers are where they are said to be; the key stands at `used`. */
  ghost predicate Pair(s: State, a: Stage, b: Stage, used: int) {
    s.limit >= 1 && |s.stages| >= 2 && s.stages[0] == a && s.stages[1] == b && Used(s) == used
  }

  /** The step changes neither the limit, nor the day, nor what was granted. */
  ghost predicate SameGrants(s: State, t: State) {
    t.limit == s.limit && t.today == s.today && t.grants == s.grants
  }

  /** On an unused key caller i gets past the gate and reserves one token. */
  lemma Takes(s: State, i: nat, a: Stage, b: Stage, total: nat) returns (t: State)
    requires Pair(s, a, b, 0) && i < 2 && s.stages[i].Idle?
    ensures Pair(t, if i == 0 then Held(true, 1, s.today) else a, if i == 1 then Held(true, 1, s.today) else b, 1)
    ensures SameGrants(s, t) && (CanReach(t, s.today, total) ==> CanReach(s, s.today, total))
  {
    var asked := Next(s, Gate(i, true, 1));
    t := Next(asked, Reserve(i));
    if CanReach(t, s.today, total) {
      StepFirst(asked, Reserve(i), s.today, total);
      StepFirst(s, Gate(i, true, 1), s.today, total);
    }
  }

  /** The first caller gives its token back: the key stands at zero and is yet to be deleted. */
  lemma FirstReleases(s: State, total: nat) returns (t: State)
    requires Pair(s, Held(true, 1, s.today), Idle, 1)
    ensures Pair(t, Clearing(s.today), Idle, 0)
    ensures SameGrants(s, t) && (CanReach(t, s.today, total) ==> CanReach(s, s.today, total))
  {
    t := Next(s, Release(0));
    if CanReach(t, s.today, total) {
      StepFirst(s, Release(0), s.today, total);
    }
  }

  lemma SecondIsGranted(s: State, total: nat) returns (t: State)
    requires Pair(s, Clearing(s.today), Held(true, 1, s.today), 1)
    ensures Pair(t, Clearing(s.today), Idle, 1) && t.limit == s.limit && t.today == s.today
    ensures GrantedOn(t.grants, s.today, false) == GrantedOn(s.grants, s.today, false) + 1
    ensures CanReach(t, s.today, total) ==> CanReach(s, s.today, total)
  {
    t := Next(s, Admit(1));
    assert t.grants[..|s.grants|] == s.grants;
    if CanReach(t, s.today, total) {
      StepFirst(s, Admit(1), s.today, total);
    }
  }

  lemma FirstDeletes(s: State, total: nat) returns (t: State)
    requires Pair(s, Clearing(s.today), Idle, 1)
    ensures Pair(t, Idle, Idle, 0)
    ensures SameGrants(s, t) && (CanReach(t, s.today, total) ==> CanReach(s, s.today, total))
  {
    t := Next(s, Clear(0));
    if CanReach(t, s.today, total) {
      StepFirst(s, Clear(0), s.today, total);
    }
  }

  /** A reservation that lands between a release's decrement and its delete is forgotten: the
      round ends as it began, with one grant more. */
  lemma ForgottenGrant(s: State, total: nat) returns (t: State)
    requires Pair(s, Idle, Idle, 0)
    ensures Pair(t, Idle, Idle, 0) && t.limit == s.limit && t.today == s.today
    ensures GrantedOn(t.grants, s.today, false) == GrantedOn(s.grants, s.today, false) + 1
    ensures CanReach(t, s.today, total) ==> CanReach(s, s.today, total)
  {
    t := Takes(s, 0, Idle, Idle, total);
    t := FirstReleases(t, total);
    t := Takes(t, 1, Clearing(s.today), Idle, total);
    t := SecondIsGranted(t, total);
    t := FirstDeletes(t, total);
  }

  lemma {:induction false} ForgottenGrants(s: State, k: nat)
    requires Pair(s, Idle, Idle, 0)
    ensures CanReach(s, s.today, GrantedOn(s.grants, s.today, false) + k)
    decreases k
  {
    if k == 0 {
      assert Legal(s, []) && Run(s, []) == s;
    } else {
      var t := ForgottenGrant(s, GrantedOn(s.grants, s.today, false) + k);
      ForgottenGrants(t, k - 1);
    }
  }

  /** Two callers, and no fault: for every limit of at least one and every k, undisturbed steps
      within one day grant k tokens. */
  lemma LateDeleteLosesReservation(s: State, k: nat)
    requires Initial(s) && s.limit >= 1 && |s.stages| >= 2
    ensures exists ls ::
              && CalmRun(s, ls) && (forall j :: 0 <= j < |ls| ==> Undisturbed(ls[j]))
              && GrantedOn(Run(s, ls).grants, s.today, false) == k
  {
    ForgottenGrants(s, k);
    var ls :| Legal(s, ls) && (forall j :: 0 <= j < |ls| ==> Undisturbed(ls[j]))
              && GrantedOn(Run(s, ls).grants, s.today, false) == k;
    assert CalmRun(s, ls);
  }
}
