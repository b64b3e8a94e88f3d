/** The five-minute window all processes share in Redis: _enforce_5min and _record_used of
    brsapi/budget.py.

    Nothing here is atomic but the single command.  A caller reads the clock, prunes with that
    reading, counts, and only after the local limiter let it through reads the clock again, adds
    its stamp and prunes once more; any number of other callers act in between, so cutoffs are
    stale and stamps arrive out of order. */
module SharedWindow {
  import opened Prelude
  import opened Windows
  import opened RateLimiting
  import opened LoneAcquire

  /** Where a caller is; `Out` is before, after, or asleep between two looks. */
  datatype Caller =
    | Out
    | Looking(read: real)
    | Pruned(read: real)
    | Inside
    | Stamped(stamp: real)
    | Added(stamp: real)

  /** `members` are the scores in the sorted set, `log` those of every recorded request. */
  datatype State = State(limit: int, callers: seq<Caller>, now: real, members: seq<real>, log: seq<real>)

  datatype Label =
    | Tick(seconds: real)
    | Look(i: nat)
    | Prune(i: nat)
    | Count(i: nat)
    | Stamp(i: nat)
    | Add(i: nat)
    | Sweep(i: nat)
    | Leave(i: nat)   // rejected by the local limiter, or cancelled

  predicate Enabled(s: State, l: Label) {
    match l
    case Tick(dt) => dt >= 0.0
    case Look(i) => i < |s.callers| && s.callers[i].Out?
    case Prune(i) => i < |s.callers| && s.callers[i].Looking?
    case Count(i) => i < |s.callers| && s.callers[i].Pruned?
    case Stamp(i) => i < |s.callers| && s.callers[i].Inside?
    case Add(i) => i < |s.callers| && s.callers[i].Stamped?
    case Sweep(i) => i < |s.callers| && s.callers[i].Added?
    case Leave(i) => i < |s.callers|
  }

  /** ZREMRANGEBYSCORE from 0 to the cutoff. */
  function Above(scores: seq<real>, cutoff: real): seq<real> {
    if scores == [] then []
    else Above(scores[..|scores| - 1], cutoff) + (if scores[|scores| - 1] > cutoff then [scores[|scores| - 1]] else [])
  }

  function Put(s: State, i: nat, c: Caller): State
    requires i < |s.callers|
  {
    s.(callers := s.callers[i := c])
  }

  function Next(s: State, l: Label): State
    requires Enabled(s, l)
  {
    match l
    case Tick(dt) => s.(now := s.now + dt)
    case Look(i) => Put(s, i, Looking(s.now))
    case Prune(i) =>
      var read := s.callers[i].read;
      Put(s, i, Pruned(read)).(members := Above(s.members, read - FIVE_MINUTES))
    case Count(i) => Put(s, i, if |s.members| < s.limit then Inside else Out)
    case Stamp(i) => Put(s, i, Stamped(s.now))
    case Add(i) =>
      var stamp := s.callers[i].stamp;
      Put(s, i, Added(stamp)).(members := s.members + [stamp], log := s.log + [stamp])
    case Sweep(i) => Put(s, i, Out).(members := Above(s.members, s.callers[i].stamp - FIVE_MINUTES))
    case Leave(i) => Put(s, i, Out)
  }

  ghost predicate Legal(s: State, ls: seq<Label>)
    decreases |ls|
  {
    ls == [] || (Enabled(s, ls[0]) && Legal(Next(s, ls[0]), ls[1..]))
  }

  ghost function Run(s: State, ls: seq<Label>): State
    requires Legal(s, ls)
    decreases |ls|
  {
    if ls == [] then s else Run(Next(s, ls[0]), ls[1..])
  }

  ghost predicate Initial(s: State) {
    s.members == s.log == [] && forall i :: 0 <= i < |s.callers| ==> s.callers[i].Out?
  }

  /** Whether the caller may still add a stamp to the window that begins at `from`. */
  predicate MayEnter(c: Caller, from: real, now: real) {
    match c
    case Inside => now < from + FIVE_MINUTES
    case Stamped(stamp) => from <= stamp < from + FIVE_MINUTES
    case _ => false
  }

  function Due(callers: seq<Caller>, from: real, now: real): nat {
    if callers == [] then 0
    else Due(callers[..|callers| - 1], from, now) + (if MayEnter(callers[|callers| - 1], from, now) then 1 else 0)
  }

  function InWindow(scores: seq<real>, from: real): nat { CountIn(scores, from, from + FIVE_MINUTES) }

  predicate ReadBefore(c: Caller, now: real) {
    match c
    case Looking(read) => read <= now
    case Pruned(read) => read <= now
    case Stamped(stamp) => stamp <= now
    case Added(stamp) => stamp <= now
    case _ => true
  }

  /** Clock readings held by callers are past; no prune took a member of a window still open. */
  ghost predicate Kept(s: State) {
    && (forall i :: 0 <= i < |s.callers| ==> ReadBefore(s.callers[i], s.now))
    && (forall from :: s.now < from + FIVE_MINUTES ==> InWindow(s.log, from) == InWindow(s.members, from))
  }

  /** Every window's stamps and those that may still come are within the cap. */
  ghost predicate Capped(s: State) {
    forall from :: InWindow(s.log, from) + Due(s.callers, from, s.now) <= Cap(s.limit, |s.callers|)
  }

  lemma {:induction false} DueUpdate(callers: seq<Caller>, i: nat, c: Caller, from: real, now: real)
    requires i < |callers|
    ensures Due(callers[i := c], from, now) + (if MayEnter(callers[i], from, now) then 1 else 0)
         == Due(callers, from, now) + (if MayEnter(c, from, now) then 1 else 0)
  {
    var last := |callers| - 1;
    if i == last {
      assert callers[i := c][..last] == callers[..last];
    } else {
      assert callers[i := c][..last] == callers[..last][i := c];
      DueUpdate(callers[..last], i, c, from, now);
    }
  }

  lemma {:induction false} DueBound(callers: seq<Caller>, from: real, now: real)
    ensures Due(callers, from, now) <= |callers|
    ensures (forall i :: 0 <= i < |callers| ==> callers[i].Out?) ==> Due(callers, from, now) == 0
  {
    if callers != [] {
      DueBound(callers[..|callers| - 1], from, now);
    }
  }

  lemma {:induction false} DueAges(callers: seq<Caller>, from: real, now: real, later: real)
    requires now <= later
    ensures Due(callers, from, later) <= Due(callers, from, now)
  {
    if callers != [] {
      DueAges(callers[..|callers| - 1], from, now, later);
    }
  }

  lemma {:induction false} CountWithin(scores: seq<real>, from: real)
    ensures InWindow(scores, from) <= |scores|
  {
    if scores != [] {
      CountWithin(scores[..|scores| - 1], from);
    }
  }

  lemma InWindowAppend(scores: seq<real>, x: real, from: real)
    ensures InWindow(scores + [x], from) == InWindow(scores, from) + (if from <= x < from + FIVE_MINUTES then 1 else 0)
  {
    assert (scores + [x])[..|scores|] == scores;
  }

  lemma AboveAppend(scores: seq<real>, x: real, cutoff: real)
    ensures Above(scores + [x], cutoff) == Above(scores, cutoff) + (if x > cutoff then [x] else [])
  {
    assert (scores + [x])[..|scores|] == scores;
  }

  /** The prune takes exactly the scores up to the cutoff, and none of the others. */
  lemma {:induction false} AboveKeepsRest(scores: seq<real>, cutoff: real, x: real)
    ensures multiset(Above(scores, cutoff))[x] == if x > cutoff then multiset(scores)[x] else 0
  {
    if scores != [] {
      var init, last := scores[..|scores| - 1], scores[|scores| - 1];
      AboveKeepsRest(init, cutoff, x);
      assert scores == init + [last];
      assert Above(init, cutoff) + [] == Above(init, cutoff);
    }
  }

  /** What each command of a caller does: both prunes use the clock reading the caller holds, five
      minutes back; the count lets it in exactly with room; a stamp is the clock's, and is added to
      the set and the record as it is. */
  lemma CommandsOfCaller(s: State, i: nat)
    requires i < |s.callers|
    ensures match s.callers[i]
            case Out => Next(s, Look(i)) == s.(callers := s.callers[i := Looking(s.now)])
            case Looking(read) =>
              Next(s, Prune(i)) == s.(callers := s.callers[i := Pruned(read)],
                                      members := Above(s.members, read - 300.0))
            case Pruned(_) =>
              Next(s, Count(i)) == s.(callers := s.callers[i := if |s.members| < s.limit then Inside else Out])
            case Inside => Next(s, Stamp(i)) == s.(callers := s.callers[i := Stamped(s.now)])
            case Stamped(stamp) =>
              Next(s, Add(i)) == s.(callers := s.callers[i := Added(stamp)], members := s.members + [stamp],
                                    log := s.log + [stamp])
            case Added(stamp) =>
              Next(s, Sweep(i)) == s.(callers := s.callers[i := Out], members := Above(s.members, stamp - 300.0))
  {
  }

  /** A prune at or below the start of a window takes nothing from it. */
  lemma {:induction false} PruneSparesWindow(scores: seq<real>, cutoff: real, from: real)
    requires cutoff < from
    ensures InWindow(Above(scores, cutoff), from) == InWindow(scores, from)
  {
    if scores != [] {
      var init, x := scores[..|scores| - 1], scores[|scores| - 1];
      PruneSparesWindow(init, cutoff, from);
      InWindowAppend(Above(init, cutoff), x, from);
      assert Above(init, cutoff) + [] == Above(init, cutoff);
    }
  }

  /** The reading a command prunes with is old news, so the prune is harmless. */
  lemma KeptStep(s: State, l: Label)
    requires Kept(s) && Enabled(s, l)
    ensures Kept(Next(s, l))
  {
    var t := Next(s, l);
    forall from | t.now < from + FIVE_MINUTES ensures InWindow(t.log, from) == InWindow(t.members, from) {
      assert InWindow(s.log, from) == InWindow(s.members, from);
      if l.Prune? {
        PruneSparesWindow(s.members, s.callers[l.i].read - FIVE_MINUTES, from);
      } else if l.Sweep? {
        PruneSparesWindow(s.members, s.callers[l.i].stamp - FIVE_MINUTES, from);
      } else if l.Add? {
        InWindowAppend(s.log, s.callers[l.i].stamp, from);
        InWindowAppend(s.members, s.callers[l.i].stamp, from);
      }
    }
  }

  lemma CappedStep(s: State, l: Label)
    requires Kept(s) && Capped(s) && Enabled(s, l)
    ensures Capped(Next(s, l))
  {
    forall from
      ensures var t := Next(s, l);
              InWindow(t.log, from) + Due(t.callers, from, t.now) <= Cap(s.limit, |s.callers|)
    {
      assert InWindow(s.log, from) + Due(s.callers, from, s.now) <= Cap(s.limit, |s.callers|);
      CappedStepOn(s, l, from);
    }
  }

  lemma CappedStepOn(s: State, l: Label, from: real)
    requires Enabled(s, l)
    requires s.now < from + FIVE_MINUTES ==> InWindow(s.log, from) == InWindow(s.members, from)
    requires InWindow(s.log, from) + Due(s.callers, from, s.now) <= Cap(s.limit, |s.callers|)
    ensures var t := Next(s, l);
            InWindow(t.log, from) + Due(t.callers, from, t.now) <= Cap(s.limit, |s.callers|)
  {
    if l.Tick? {
      DueAges(s.callers, from, s.now, s.now + l.seconds);
    } else {
      var c := Next(s, l).callers[l.i];
      DueUpdate(s.callers, l.i, c, from, s.now);
      DueBound(s.callers[l.i := c], from, s.now);
      CountWithin(s.members, from);
      if l.Add? {
        InWindowAppend(s.log, s.callers[l.i].stamp, from);
      }
    }
  }

  lemma {:induction false} SharedRun(s: State, ls: seq<Label>)
    requires Kept(s) && Capped(s) && Legal(s, ls)
    ensures Kept(Run(s, ls)) && Capped(Run(s, ls))
    ensures Run(s, ls).limit == s.limit && |Run(s, ls).callers| == |s.callers|
    decreases |ls|
  {
    if ls != [] {
      KeptStep(s, ls[0]);
      CappedStep(s, ls[0]);
      SharedRun(Next(s, ls[0]), ls[1..]);
    }
  }

  /** For any number of callers in any processes: every half-open 300 s window of the stamps of
      recorded requests holds at most five_min_limit + N - 1, and the set still holds every
      stamp of the window that ends now. */
  lemma SharedWindowCapHolds(s: State, ls: seq<Label>, from: real)
    requires Initial(s) && Legal(s, ls)
    ensures var t := Run(s, ls);
            && InWindow(t.log, from) <= Cap(s.limit, |s.callers|)
            && (t.now < from + FIVE_MINUTES ==> InWindow(t.log, from) == InWindow(t.members, from))
  {
    forall x ensures Due(s.callers, x, s.now) == 0 {
      DueBound(s.callers, x, s.now);
    }
    SharedRun(s, ls);
  }

  // ---- The bound is reached ----

  /** Some run from s ends with g stamps in the window from 0. */
  ghost predicate CanReach(s: State, g: nat) {
    exists ls :: Legal(s, ls) && InWindow(Run(s, ls).log, 0.0) == g
  }

  lemma StepFirst(s: State, l: Label, t: State, g: nat)
    requires Enabled(s, l) && t == Next(s, l) && CanReach(t, g)
    ensures CanReach(s, g)
  {
    var ls :| Legal(t, ls) && InWindow(Run(t, ls).log, 0.0) == g;
    assert ([l] + ls)[1..] == ls;
    assert Legal(s, [l] + ls) && Run(s, [l] + ls) == Run(t, ls);
  }

  function Zeros(n: nat): seq<real> { seq(n, i => 0.0) }

  /** At time 0, with `count` requests recorded and the callers from lo to hi past the count. */
  ghost function Scene(limit: int, n: nat, lo: nat, hi: nat, count: nat): State {
    State(limit, seq(n, i => if lo <= i < hi then Inside else Out), 0.0, Zeros(count), Zeros(count))
  }

  lemma {:induction false} ZerosStay(n: nat)
    ensures Above(Zeros(n), 0.0 - FIVE_MINUTES) == Zeros(n) && InWindow(Zeros(n), 0.0) == n
  {
    if n > 0 {
      ZerosStay(n - 1);
      assert Zeros(n) == Zeros(n - 1) + [0.0];
      AboveAppend(Zeros(n - 1), 0.0, 0.0 - FIVE_MINUTES);
      InWindowAppend(Zeros(n - 1), 0.0, 0.0);
    }
  }

  /** Caller i looks, prunes, counts and is let in. */
  lemma Enters(limit: int, n: nat, lo: nat, i: nat, count: nat, g: nat)
    requires lo <= i < n && count < limit && CanReach(Scene(limit, n, lo, i + 1, count), g)
    ensures CanReach(Scene(limit, n, lo, i, count), g)
  {
    var s0, s3 := Scene(limit, n, lo, i, count), Scene(limit, n, lo, i + 1, count);
    var s1, s2 := Put(s0, i, Looking(0.0)), Put(s0, i, Pruned(0.0));
    ZerosStay(count);
    assert s2.callers[i := Inside] == s3.callers && s1.callers[i := Pruned(0.0)] == s2.callers;
    StepFirst(s2, Count(i), s3, g);
    StepFirst(s1, Prune(i), s2, g);
    StepFirst(s0, Look(i), s1, g);
  }

  lemma AddsZero(s: State, i: nat, t: State, count: nat)
    requires i < |s.callers| && s.callers[i] == Stamped(0.0) && s.members == s.log == Zeros(count)
    requires t.callers == s.callers[i := Added(0.0)] && t.members == t.log == Zeros(count + 1)
    requires t.limit == s.limit && t.now == s.now
    ensures Next(s, Add(i)) == t
  {
    assert Zeros(count) + [0.0] == Zeros(count + 1);
  }

  lemma SweepsNothing(s: State, i: nat, t: State, count: nat)
    requires i < |s.callers| && s.callers[i] == Added(0.0) && s.members == Zeros(count)
    requires t == s.(callers := s.callers[i := Out])
    ensures Next(s, Sweep(i)) == t
  {
    ZerosStay(count);
  }

  /** Caller lo stamps, adds and sweeps. */
  lemma Records(limit: int, n: nat, lo: nat, hi: nat, count: nat, g: nat)
    requires lo < hi <= n && CanReach(Scene(limit, n, lo + 1, hi, count + 1), g)
    ensures CanReach(Scene(limit, n, lo, hi, count), g)
  {
    var s0, s3 := Scene(limit, n, lo, hi, count), Scene(limit, n, lo + 1, hi, count + 1);
    var s1, s2 := Put(s0, lo, Stamped(0.0)), Put(s3, lo, Added(0.0));
    assert s2.callers[lo := Out] == s3.callers;
    SweepsNothing(s2, lo, s3, count + 1);
    StepFirst(s2, Sweep(lo), s3, g);
    assert s1.callers[lo := Added(0.0)] == s2.callers;
    AddsZero(s1, lo, s2, count);
    StepFirst(s1, Add(lo), s2, g);
    StepFirst(s0, Stamp(lo), s1, g);
  }

  lemma {:induction false} AllRecord(limit: int, n: nat, lo: nat, count: nat)
    requires lo <= n
    ensures CanReach(Scene(limit, n, lo, n, count), count + n - lo)
    decreases n - lo
  {
    if lo == n {
      var s := Scene(limit, n, lo, n, count);
      ZerosStay(count);
      assert Legal(s, []) && Run(s, []) == s;
    } else {
      AllRecord(limit, n, lo + 1, count + 1);
      Records(limit, n, lo, n, count, count + n - lo);
    }
  }

  lemma {:induction false} AllEnter(limit: int, n: nat, hi: nat, count: nat)
    requires hi <= n && count < limit
    ensures CanReach(Scene(limit, n, 0, hi, count), count + n)
    decreases n - hi
  {
    if hi == n {
      AllRecord(limit, n, 0, count);
    } else {
      AllEnter(limit, n, hi + 1, count);
      Enters(limit, n, 0, hi, count, count + n);
    }
  }

  lemma {:induction false} FillUp(limit: int, n: nat, count: nat)
    requires n >= 1 && count < limit
    ensures CanReach(Scene(limit, n, 0, 0, count), Cap(limit, n))
    decreases limit - count
  {
    if count == limit - 1 {
      AllEnter(limit, n, 0, count);
    } else {
      FillUp(limit, n, count + 1);
      assert Scene(limit, n, 1, 1, count + 1).callers == Scene(limit, n, 0, 0, count + 1).callers;
      Records(limit, n, 0, 1, count, Cap(limit, n));
      Enters(limit, n, 0, 0, count, Cap(limit, n));
    }
  }

  /** For every limit and every N some run reaches the cap of SharedWindowCapHolds. */
  lemma SharedOvershootIsReached(limit: int, n: nat)
    requires limit >= 1 && n >= 1
    ensures var s := Scene(limit, n, 0, 0, 0);
            && Initial(s) && s.limit == limit && |s.callers| == n
            && exists ls :: Legal(s, ls) && InWindow(Run(s, ls).log, 0.0) == Cap(limit, n)
  {
    FillUp(limit, n, 0);
  }

  // ---- One caller's commands in place ----

  /** The sorted set; every method is one command. */
  class SortedSet {
    var members: seq<real>

    constructor () ensures members == [] { members := []; }

    method ZRemRangeByScore(cutoff: real)
      modifies this
      ensures members == Above(old(members), cutoff)
    {
      var kept := [];
      for i := 0 to |members|
        invariant members == old(members)
        invariant kept == Above(members[..i], cutoff)
      {
        assert members[..i + 1] == members[..i] + [members[i]];
        AboveAppend(members[..i], members[i], cutoff);
        if members[i] > cutoff {
          kept := kept + [members[i]];
        }
      }
      assert members[..|members|] == members;
      members := kept;
    }

    method ZCard() returns (n: nat)
      ensures n == |members|
    {
      n := |members|;
    }

    method ZAdd(score: real)
      modifies this
      ensures members == old(members) + [score]
    {
      members := members + [score];
    }

    /** ZRANGE 0 0. */
    method Oldest() returns (oldest: Option<real>)
      ensures oldest.None? <==> members == []
      ensures oldest.Some? ==> oldest.value in members && forall m :: m in members ==> oldest.value <= m
    {
      oldest := None;
      for i := 0 to |members|
        invariant oldest.None? <==> i == 0
        invariant oldest.Some? ==>
                    oldest.value in members[..i] && forall j :: 0 <= j < i ==> oldest.value <= members[j]
      {
        if oldest.None? || members[i] < oldest.value {
          oldest := Some(members[i]);
        }
      }
    }
  }

  /** What one turn of _enforce_5min decides. */
  datatype Decision = Room | Full | Again(seconds: real)

  lemma {:induction false} PruneTakesOld(scores: seq<real>, cutoff: real)
    ensures |Above(scores, cutoff)| <= |scores|
    ensures (exists m :: m in scores && m <= cutoff) ==> |Above(scores, cutoff)| < |scores|
  {
    if scores != [] {
      var init, x := scores[..|scores| - 1], scores[|scores| - 1];
      PruneTakesOld(init, cutoff);
      if m :| m in scores && m <= cutoff {
        assert m in init || m == x;
      }
    }
  }

  ghost predicate IsOldest(scores: seq<real>, oldest: real) {
    oldest in scores && forall x :: x in scores ==> oldest <= x
  }

  /** A wait cut to between a tenth of a second and ten seconds. */
  ghost function Clamped(seconds: real): real {
    if seconds < 0.1 then 0.1 else if seconds > 10.0 then 10.0 else seconds
  }

  /** One undisturbed turn: let in exactly when the pruned set has room; otherwise rejected, or
      asleep for a tenth of a second to ten seconds, and unless cut to ten seconds long enough
      for the next look to find the set smaller. */
  method EnforceOnce(redis: SortedSet, limit: int, now: real, failFast: bool) returns (look: Decision)
    modifies redis
    ensures redis.members == Above(old(redis.members), now - FIVE_MINUTES)
    ensures look.Room? <==> |redis.members| < limit
    ensures look.Full? <==> |redis.members| >= limit && failFast
    ensures look.Again? ==> 0.1 <= look.seconds <= 10.0
    ensures look.Again? && redis.members != [] ==>
              exists oldest :: IsOldest(redis.members, oldest) && look.seconds == Clamped(oldest + 300.0 - now)
    ensures look.Again? && redis.members != [] && look.seconds < MAX_SLEEP ==>
              |Above(redis.members, now + look.seconds - FIVE_MINUTES)| < |redis.members|
  {
    redis.ZRemRangeByScore(now - FIVE_MINUTES);
    var count := redis.ZCard();
    if count < limit {
      return Room;
    }
    if failFast {
      return Full;
    }
    var oldest := redis.Oldest();
    var wait := if oldest.Some? then oldest.value + FIVE_MINUTES - now else 1.0;
    assert oldest.Some? ==> IsOldest(redis.members, oldest.value);
    PruneTakesOld(redis.members, now + Min(Max(wait, 0.1), MAX_SLEEP) - FIVE_MINUTES);
    return Again(Min(Max(wait, 0.1), MAX_SLEEP));
  }

  lemma {:induction false} AboveTwice(scores: seq<real>, c: real, d: real)
    requires c <= d
    ensures Above(Above(scores, c), d) == Above(scores, d)
  {
    if scores != [] {
      var init, x := scores[..|scores| - 1], scores[|scores| - 1];
      AboveTwice(init, c, d);
      AboveAppend(Above(init, c), x, d);
      assert Above(init, c) + [] == Above(init, c);
    }
  }

  lemma {:induction false} AboveIsPart(scores: seq<real>, cutoff: real)
    ensures forall x :: x in Above(scores, cutoff) ==> x in scores && x > cutoff
  {
    if scores != [] {
      AboveIsPart(scores[..|scores| - 1], cutoff);
    }
  }

  function Newest(scores: seq<real>): real {
    if scores == [] then 0.0
    else if |scores| == 1 then scores[0]
    else Max(Newest(scores[..|scores| - 1]), scores[|scores| - 1])
  }

  lemma {:induction false} NewestIsLast(scores: seq<real>)
    ensures forall x :: x in scores ==> x <= Newest(scores)
  {
    if |scores| > 1 {
      NewestIsLast(scores[..|scores| - 1]);
      assert forall x :: x in scores ==> x in scores[..|scores| - 1] || x == scores[|scores| - 1];
    }
  }

  /** Tenths of a second until every stamp up to `newest` has aged: the looks still possible. */
  function Looks(newest: real, wall: real): nat {
    if newest + FIVE_MINUTES > wall then 1 + ((newest + FIVE_MINUTES - wall) * 10.0).Floor else 0
  }

  lemma LooksShrink(newest: real, wall: real, later: real)
    requires newest + FIVE_MINUTES > wall && later >= wall + 0.1
    ensures Looks(newest, later) < Looks(newest, wall)
  {
    var tenths := (newest + FIVE_MINUTES - wall) * 10.0;
    assert (newest + FIVE_MINUTES - later) * 10.0 <= tenths - 1.0;
    assert (tenths - 1.0).Floor == tenths.Floor - 1;
  }

  lemma NewestIsYoung(all: seq<real>, wall: real)
    requires Above(all, wall - FIVE_MINUTES) != []
    ensures Newest(all) + FIVE_MINUTES > wall
  {
    NewestIsLast(all);
    AboveIsPart(all, wall - FIVE_MINUTES);
    var x := Above(all, wall - FIVE_MINUTES)[0];
    assert x in Above(all, wall - FIVE_MINUTES);
    assert x in all && x > wall - FIVE_MINUTES;
  }

  lemma LaterLook(all: seq<real>, before: real, later: real)
    requires Above(all, before - FIVE_MINUTES) != [] && later >= before + 0.1
    ensures Looks(Newest(all), later) < Looks(Newest(all), before)
    ensures Above(Above(all, before - FIVE_MINUTES), later - FIVE_MINUTES) == Above(all, later - FIVE_MINUTES)
  {
    NewestIsYoung(all, before);
    LooksShrink(Newest(all), before, later);
    AboveTwice(all, before - FIVE_MINUTES, later - FIVE_MINUTES);
  }

  /** Sleeps and looks again; `all` is the set as the call found it. */
  method SleepAndLook(redis: SortedSet, limit: int, clock: Clock, failFast: bool, seconds: real, ghost all: seq<real>)
    returns (look: Decision)
    requires seconds >= 0.1 && redis.members == Above(all, clock.Wall() - FIVE_MINUTES) && redis.members != []
    modifies redis, clock
    ensures clock.now > old(clock.now) && redis.members == Above(all, clock.Wall() - FIVE_MINUTES)
    ensures Looks(Newest(all), clock.Wall()) < old(Looks(Newest(all), clock.Wall()))
    ensures look.Room? <==> |redis.members| < limit
    ensures look.Full? <==> |redis.members| >= limit && failFast
    ensures look.Again? ==> 0.1 <= look.seconds
  {
    ghost var before := clock.Wall();
    clock.Sleep(seconds, 0.0);
    LaterLook(all, before, clock.Wall());
    look := LookAt(redis, limit, clock.Wall(), failFast);
  }

  /** One look, for its decision alone. */
  method LookAt(redis: SortedSet, limit: int, now: real, failFast: bool) returns (look: Decision)
    modifies redis
    ensures redis.members == Above(old(redis.members), now - FIVE_MINUTES)
    ensures look.Room? <==> |redis.members| < limit
    ensures look.Full? <==> |redis.members| >= limit && failFast
    ensures look.Again? ==> 0.1 <= look.seconds
  {
    look := EnforceOnce(redis, limit, now, failFast);
  }

  /** _enforce_5min with nobody else at the set: a fail-fast call passes exactly with room, a
      blocking one always, after sleeps that end because every stamp ages; `late` is what the
      event loop adds to each. */
  method EnforceAlone(redis: SortedSet, limit: int, clock: Clock, failFast: bool, late: nat -> real)
    returns (passed: bool)
    requires limit >= 1 && forall k :: late(k) >= 0.0
    modifies redis, clock
    ensures clock.now >= old(clock.now)
    ensures redis.members == Above(old(redis.members), clock.Wall() - FIVE_MINUTES)
    ensures passed ==> |redis.members| < limit
    ensures passed <==> !failFast || |Above(old(redis.members), old(clock.Wall()) - FIVE_MINUTES)| < limit
    ensures failFast ==> clock.now == old(clock.now)
  {
    ghost var all := redis.members;
    var look := LookAt(redis, limit, clock.Wall(), failFast);
    var turns := 0;
    while look.Again?
      invariant failFast ==> !look.Again? && clock.now == old(clock.now)
      invariant clock.now >= old(clock.now)
      invariant redis.members == Above(all, clock.Wall() - FIVE_MINUTES)
      invariant look.Room? <==> |redis.members| < limit
      invariant look.Full? <==> |redis.members| >= limit && failFast
      invariant look.Again? ==> 0.1 <= look.seconds
      decreases Looks(Newest(all), clock.Wall())
    {
      look := SleepAndLook(redis, limit, clock, failFast, look.seconds + late(turns), all);
      turns := turns + 1;
    }
    passed := look.Room?;
  }

  /** _record_used on Redis, undisturbed. */
  method RecordUsed(redis: SortedSet, now: real)
    modifies redis
    ensures redis.members == Above(old(redis.members), now - FIVE_MINUTES) + [now]
  {
    AboveAppend(redis.members, now, now - FIVE_MINUTES);
    redis.ZAdd(now);
    redis.ZRemRangeByScore(now - FIVE_MINUTES);
  }
}
