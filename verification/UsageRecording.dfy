/** brsapi/usage_recorder.py: per-day counters kept in memory by every worker and added to one
    shared table by a flush that reads, commits and then forgets, with awaits in between.

    Only request counts are modelled; the 302 counter of the same entries moves alike.  One flush
    at a time per worker. */
module UsageRecording {

  /** Where a worker's flush is: which days it still reads and what it read, or committed. */
  datatype Flush =
    | Idle
    | Reading(todo: seq<int>, staged: map<int, nat>)
    | Committed(staged: map<int, nat>)

  /** `late` is what was recorded on a day after the running flush read it. */
  datatype Worker = Worker(days: map<int, nat>, flush: Flush, late: map<int, nat>)

  /** `lost` and `twice` book what the table misses and what it counts double. */
  datatype State = State(
    workers: seq<Worker>, table: map<int, nat>,
    recorded: map<int, nat>, lost: map<int, nat>, twice: map<int, nat>)

  datatype Label =
    | Record(w: nat, day: int, tokens: nat)
    | Start(w: nat, order: seq<int>)
    | Read(w: nat)
    | Commit(w: nat)
    | Fail(w: nat)        // a statement or the commit raises: rolled back
    | CloseFails(w: nat)  // the session raises after its commit went through
    | Forget(w: nat)
    | Die(w: nat)         // the process ends and a fresh one takes its place

  function At(m: map<int, nat>, day: int): nat { if day in m then m[day] else 0 }

  function Plus(m: map<int, nat>, day: int, n: nat): map<int, nat> { m[day := At(m, day) + n] }

  /** Adding to a day creates it if need be and touches no other; a day that is missing counts 0. */
  lemma PlusAdds(m: map<int, nat>, day: int, n: nat, d: int)
    ensures At(m, d) == if d in m then m[d] else 0
    ensures d in Plus(m, day, n) <==> d in m || d == day
    ensures d in Plus(m, day, n) ==>
              Plus(m, day, n)[d] == (if d in m then m[d] else 0) + (if d == day then n else 0)
  {
  }

  function Sum(m: map<int, nat>, k: map<int, nat>): map<int, nat> {
    map day | day in m.Keys + k.Keys :: At(m, day) + At(k, day)
  }

  function Staged(w: Worker): map<int, nat> { if w.flush.Idle? then map[] else w.flush.staged }

  predicate Enabled(s: State, l: Label) {
    l.w < |s.workers| &&
    match l
    case Record(_, _, n) => n > 0
    case Start(w, order) =>
      && s.workers[w].flush.Idle? && s.workers[w].days != map[]
      && (set day | day in order) == s.workers[w].days.Keys && |order| == |s.workers[w].days|
    case Read(w) => s.workers[w].flush.Reading? && s.workers[w].flush.todo != []
    case Commit(w) => s.workers[w].flush.Reading? && s.workers[w].flush.todo == []
    case Fail(w) => s.workers[w].flush.Reading?
    case CloseFails(w) => s.workers[w].flush.Committed?
    case Forget(w) => s.workers[w].flush.Committed?
    case Die(_) => true
  }

  /** In memory and not in the table yet. */
  function Pending(w: Worker, day: int): int {
    At(w.days, day) - (if w.flush.Committed? then At(w.flush.staged, day) else 0)
  }

  function PendingAll(w: Worker): map<int, nat> {
    map day | day in w.days.Keys :: if Pending(w, day) > 0 then Pending(w, day) else 0
  }

  function Without(m: map<int, nat>, k: map<int, nat>): map<int, nat> { m - k.Keys }

  function Missed(w: Worker): map<int, nat> {
    var staged := Staged(w);
    map day | day in staged.Keys :: if At(w.days, day) > staged[day] then At(w.days, day) - staged[day] else 0
  }

  function NextWorker(w: Worker, l: Label): Worker {
    match l
    case Record(_, day, n) =>
      w.(days := Plus(w.days, day, n), late := if day in Staged(w) then Plus(w.late, day, n) else w.late)
    case Start(_, order) => w.(flush := Reading(order, map[]), late := map[])
    case Read(_) =>
      if w.flush.Reading? && w.flush.todo != [] then
        w.(flush := Reading(w.flush.todo[1..], w.flush.staged[w.flush.todo[0] := At(w.days, w.flush.todo[0])]),
           late := w.late[w.flush.todo[0] := 0])
      else w
    case Commit(_) => w.(flush := Committed(Staged(w)))
    case Fail(_) => w.(flush := Idle, late := map[])
    case CloseFails(_) => w.(flush := Idle, late := map[])
    case Forget(_) => Worker(Without(w.days, Staged(w)), Idle, map[])
    case Die(_) => Worker(map[], Idle, map[])
  }

  function Next(s: State, l: Label): State
    requires Enabled(s, l)
  {
    var w := s.workers[l.w];
    var t := s.(workers := s.workers[l.w := NextWorker(w, l)]);
    match l
    case Record(_, day, n) => t.(recorded := Plus(s.recorded, day, n))
    case Commit(_) => t.(table := Sum(s.table, Staged(w)))
    case CloseFails(_) => t.(twice := Sum(s.twice, Staged(w)))
    case Forget(_) => t.(lost := Sum(s.lost, Missed(w)))
    case Die(_) => t.(lost := Sum(s.lost, PendingAll(w)))
    case _ => t
  }

  ghost predicate Legal(s: State, ls: seq<Label>)
    decreases |ls|
  {
    ls == [] || (Enabled(s, ls[0]) && Legal(Next(s, ls[0]), ls[1..]))
  }

  ghost function Run(s: State, ls: seq<Label>): State
    requires Legal(s, ls)
    decreases |ls|
  {
    if ls == [] then s else Run(Next(s, ls[0]), ls[1..])
  }

  ghost predicate Initial(s: State) {
    && s.table == s.recorded == s.lost == s.twice == map[]
    && forall i :: 0 <= i < |s.workers| ==> s.workers[i] == Worker(map[], Idle, map[])
  }

  // ---- The books ----

  function Waiting(ws: seq<Worker>, day: int): int {
    if ws == [] then 0 else Waiting(ws[..|ws| - 1], day) + Pending(ws[|ws| - 1], day)
  }

  lemma {:induction false} WaitingUpdate(ws: seq<Worker>, i: nat, w: Worker, day: int)
    requires i < |ws|
    ensures Waiting(ws[i := w], day) == Waiting(ws, day) - Pending(ws[i], day) + Pending(w, day)
  {
    var last := |ws| - 1;
    if i == last {
      assert ws[i := w][..last] == ws[..last];
    } else {
      assert ws[i := w][..last] == ws[..last][i := w];
      WaitingUpdate(ws[..last], i, w, day);
    }
  }

  /** A day that was read holds in memory what was read plus what came late. */
  ghost predicate Tracked(w: Worker) {
    var staged := Staged(w);
    && staged.Keys <= w.days.Keys && w.late.Keys == staged.Keys
    && (forall day :: day in staged ==> w.days[day] == staged[day] + w.late[day])
    && (w.flush.Reading? ==> forall k :: 0 <= k < |w.flush.todo| ==> w.flush.todo[k] in w.days)
  }

  ghost predicate Books(s: State) {
    && (forall i :: 0 <= i < |s.workers| ==> Tracked(s.workers[i]))
    && (forall day ::
          At(s.recorded, day) + At(s.twice, day) == At(s.table, day) + Waiting(s.workers, day) + At(s.lost, day))
  }

  lemma TrackedStep(s: State, l: Label)
    requires Enabled(s, l) && Tracked(s.workers[l.w])
    ensures Tracked(NextWorker(s.workers[l.w], l))
  {
    if l.Start? {
      forall k | 0 <= k < |l.order| ensures l.order[k] in s.workers[l.w].days {
        assert l.order[k] in (set day | day in l.order);
      }
    }
  }

  /** What a step adds to the books outside memory it takes from memory, and the reverse. */
  lemma LedgersMove(s: State, l: Label, day: int)
    requires Enabled(s, l) && Tracked(s.workers[l.w])
    ensures var t := Next(s, l);
            (At(t.recorded, day) - At(s.recorded, day)) + (At(t.twice, day) - At(s.twice, day))
            == (At(t.table, day) - At(s.table, day)) + (At(t.lost, day) - At(s.lost, day))
               + (Pending(NextWorker(s.workers[l.w], l), day) - Pending(s.workers[l.w], day))
  {
  }

  lemma BooksStepOn(s: State, l: Label, day: int)
    requires Enabled(s, l) && Tracked(s.workers[l.w])
    requires At(s.recorded, day) + At(s.twice, day) == At(s.table, day) + Waiting(s.workers, day) + At(s.lost, day)
    ensures var t := Next(s, l);
            At(t.recorded, day) + At(t.twice, day) == At(t.table, day) + Waiting(t.workers, day) + At(t.lost, day)
  {
    WaitingUpdate(s.workers, l.w, NextWorker(s.workers[l.w], l), day);
    LedgersMove(s, l, day);
  }

  lemma BooksStep(s: State, l: Label)
    requires Books(s) && Enabled(s, l)
    ensures Books(Next(s, l))
  {
    TrackedStep(s, l);
    forall day
      ensures var t := Next(s, l);
              At(t.recorded, day) + At(t.twice, day) == At(t.table, day) + Waiting(t.workers, day) + At(t.lost, day)
    {
      assert At(s.recorded, day) + At(s.twice, day) == At(s.table, day) + Waiting(s.workers, day) + At(s.lost, day);
      BooksStepOn(s, l, day);
    }
  }

  lemma {:induction false} NothingWaits(ws: seq<Worker>, day: int)
    requires forall i :: 0 <= i < |ws| ==> ws[i] == Worker(map[], Idle, map[])
    ensures Waiting(ws, day) == 0
  {
    if ws != [] {
      NothingWaits(ws[..|ws| - 1], day);
    }
  }

  lemma {:induction false} BooksRun(s: State, ls: seq<Label>)
    requires Books(s) && Legal(s, ls)
    ensures Books(Run(s, ls))
    decreases |ls|
  {
    if ls != [] {
      BooksStep(s, ls[0]);
      BooksRun(Next(s, ls[0]), ls[1..]);
    }
  }

  lemma InitialBooks(s: State)
    requires Initial(s)
    ensures Books(s)
  {
    forall day ensures Waiting(s.workers, day) == 0 {
      NothingWaits(s.workers, day);
    }
  }

  /** For every day, over all workers and runs: recorded plus counted twice is table plus memory
      plus lost. */
  lemma BooksBalance(s: State, ls: seq<Label>, day: int)
    requires Initial(s) && Legal(s, ls)
    ensures var t := Run(s, ls);
            At(t.recorded, day) + At(t.twice, day) == At(t.table, day) + Waiting(t.workers, day) + At(t.lost, day)
  {
    InitialBooks(s);
    BooksRun(s, ls);
    var t := Run(s, ls);
    assert At(t.recorded, day) + At(t.twice, day) == At(t.table, day) + Waiting(t.workers, day) + At(t.lost, day);
  }

  /** What a finished flush loses on a day is exactly what was recorded after it read that day;
      a failed commit changes neither table nor memory. */
  lemma FlushLosesLateRecords(s: State, l: Label, day: int)
    requires Books(s) && Enabled(s, l) && (l.Forget? || l.Fail?)
    ensures var t := Next(s, l);
            && (l.Forget? ==> At(t.lost, day) == At(s.lost, day) + At(s.workers[l.w].late, day))
            && (l.Fail? ==> t.lost == s.lost && t.table == s.table && t.workers[l.w].days == s.workers[l.w].days)
  {
    assert Tracked(s.workers[l.w]);
  }

  /** Nothing is recorded on a day its worker's flush has already read, no session fails after
      its commit, and no process dies. */
  predicate Undisturbed(s: State, l: Label)
    requires Enabled(s, l)
  {
    && !l.CloseFails? && !l.Die?
    && (l.Record? ==> l.day !in Staged(s.workers[l.w]))
  }

  ghost predicate UndisturbedRun(s: State, ls: seq<Label>)
    requires Legal(s, ls)
    decreases |ls|
  {
    ls != [] ==> Undisturbed(s, ls[0]) && UndisturbedRun(Next(s, ls[0]), ls[1..])
  }

  ghost predicate NothingLate(s: State) {
    forall i, day :: 0 <= i < |s.workers| && day in s.workers[i].late ==> s.workers[i].late[day] == 0
  }

  lemma QuietStep(s: State, l: Label, day: int)
    requires Books(s) && NothingLate(s) && Enabled(s, l) && Undisturbed(s, l)
    ensures NothingLate(Next(s, l))
    ensures At(Next(s, l).lost, day) == At(s.lost, day) && At(Next(s, l).twice, day) == At(s.twice, day)
  {
    assert Tracked(s.workers[l.w]);
  }

  lemma {:induction false} QuietRun(s: State, ls: seq<Label>, day: int)
    requires Books(s) && NothingLate(s) && Legal(s, ls) && UndisturbedRun(s, ls)
    ensures At(Run(s, ls).lost, day) == At(s.lost, day) && At(Run(s, ls).twice, day) == At(s.twice, day)
    decreases |ls|
  {
    if ls != [] {
      QuietStep(s, ls[0], day);
      BooksStep(s, ls[0]);
      QuietRun(Next(s, ls[0]), ls[1..], day);
    }
  }

  /** Then, failed commits included, nothing is lost or doubled. */
  lemma NothingIsLost(s: State, ls: seq<Label>, day: int)
    requires Initial(s) && Legal(s, ls) && UndisturbedRun(s, ls)
    ensures var t := Run(s, ls); At(t.recorded, day) == At(t.table, day) + Waiting(t.workers, day)
  {
    BooksBalance(s, ls, day);
    InitialBooks(s);
    QuietRun(s, ls, day);
  }

  // ---- The recorder object ----

  class UsageRecorder {
    var days: map<int, nat>
    var enabled: bool

    constructor () ensures days == map[] && enabled { days, enabled := map[], true; }

    method RecordUsed(today: int, tokens: int)
      modifies this`days
      ensures days == if enabled && tokens > 0 then Plus(old(days), today, tokens) else old(days)
      ensures enabled && tokens > 0 ==>
                today in days && days[today] == tokens + if today in old(days) then old(days)[today] else 0
    {
      if !enabled || tokens <= 0 {
        return;
      }
      if today !in days {
        days := days[today := 0];
      }
      days := days[today := days[today] + tokens];
    }

    method Disable()
      modifies this`enabled
      ensures !enabled
    {
      enabled := false;
    }

    /** flush with nobody recording meanwhile: a commit moves every day's count into the table
        and empties memory, a failure leaves both as they were. */
    method Flush(table: map<int, nat>, order: seq<int>, commits: bool) returns (after: map<int, nat>, flushed: nat)
      requires (set day | day in order) == days.Keys
      requires forall i, j :: 0 <= i < j < |order| ==> order[i] != order[j]
      modifies this`days
      ensures commits ==> days == map[] && flushed == |order|
                          && forall day :: At(after, day) == At(table, day) + At(old(days), day)
      ensures !commits ==> days == old(days) && after == table && flushed == 0
    {
      var staged := Stage(table, order);
      if !commits {
        return table, 0;
      }
      ForgetAll(order);
      return staged, |order|;
    }

    /** The upserts of one session. */
    method Stage(table: map<int, nat>, order: seq<int>) returns (staged: map<int, nat>)
      requires (set day | day in order) == days.Keys
      requires forall i, j :: 0 <= i < j < |order| ==> order[i] != order[j]
      ensures forall day :: At(staged, day) == At(table, day) + At(days, day)
    {
      staged := table;
      for k := 0 to |order|
        invariant forall day :: At(staged, day) == At(table, day) + (if day in order[..k] then At(days, day) else 0)
      {
        assert order[..k + 1] == order[..k] + [order[k]];
        assert order[k] in (set day | day in order);
        staged := Plus(staged, order[k], days[order[k]]);
      }
      assert order[..|order|] == order;
      forall day ensures At(staged, day) == At(table, day) + At(days, day) {
        assert day in order <==> day in (set d | d in order);
      }
    }

    /** The loop that pops the committed days. */
    method ForgetAll(order: seq<int>)
      requires (set day | day in order) == days.Keys
      modifies this`days
      ensures days == map[]
    {
      for k := 0 to |order|
        invariant days == map day | day in old(days) && day !in order[..k] :: old(days)[day]
      {
        assert order[..k + 1] == order[..k] + [order[k]];
        days := days - {order[k]};
      }
      forall day | day in old(days) ensures day in order {
        assert day in (set d | d in order);
      }
    }
  }
}
