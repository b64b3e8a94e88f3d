/** api/job_state.py: the live job status fed by the four worker events.  Time stamps, the ETA and
    the rounded percentage are not part of this model. */
module JobStatus {
  import opened Prelude

  datatype GroupStatus = Pending | Running | Succeeded

  datatype Group = Group(total: int, completed: int, failed: int, status: GroupStatus)

  datatype Job = Job(
    overall: string, currentGroup: Option<string>, currentSymbol: Option<string>,
    total: int, completed: int, failed: int, groups: map<string, Group>)

  /** The job status and the per-symbol results kept beside it. */
  datatype Tracker = Tracker(job: Job, results: map<string, map<string, string>>)

  /** Worker events with their payload fields; None is a missing or null field. */
  datatype Event =
    | Progress(group: string, total: Option<int>, completed: Option<int>, symbol: Option<string>)
    | GroupCompleted(group: string, processed: Option<int>, failed: Option<int>)
    | Completed(overall: Option<string>, total: Option<int>, success: Option<int>, failed: Option<int>)
    | SymbolUpdated(fields: map<string, string>)
    | Derived

  const GROUPS: set<string> := {"A", "B", "C"}

  function OrZero(n: Option<int>): int { if n.Some? then n.value else 0 }

  /** Python's `or` on an optional number: the first that is neither missing nor zero. */
  function OrElse(n: Option<int>, other: int): int { if OrZero(n) != 0 then OrZero(n) else other }

  predicate ValidJob(job: Job) { job.groups.Keys == GROUPS }

  function Recomputed(job: Job): Job
    requires ValidJob(job)
  {
    var a, b, c := job.groups["A"], job.groups["B"], job.groups["C"];
    job.(total := a.total + b.total + c.total,
         completed := a.completed + b.completed + c.completed,
         failed := a.failed + b.failed + c.failed)
  }

  function NextGroup(group: string): Option<string> {
    if group == "A" then Some("B") else if group == "B" then Some("C") else None
  }

  /** What an event makes of its own group. */
  function GroupAfter(g: Group, e: Event): Group {
    match e
    case Progress(_, total, completed, _) => Group(OrZero(total), OrZero(completed), g.failed, Running)
    case GroupCompleted(_, processed, failed) =>
      var n, f := OrElse(processed, g.total), OrZero(failed);
      Group(n, if n - f > 0 then n - f else 0, f, Succeeded)
    case _ => g
  }

  function Closed(groups: map<string, Group>): map<string, Group> {
    map g | g in groups :: groups[g].(status := Succeeded)
  }

  /** Partial payloads merge over a fuller stored result, others replace it. */
  function Stored(results: map<string, map<string, string>>, fields: map<string, string>)
    : map<string, map<string, string>>
  {
    if "symbol" !in fields || fields["symbol"] == "" then results
    else
      var symbol := fields["symbol"];
      if symbol in results && |results[symbol].Keys| > 0 && |fields.Keys| < |results[symbol].Keys|
      then results[symbol := results[symbol] + fields]
      else results[symbol := fields]
  }

  function Handle(t: Tracker, e: Event): (u: Tracker)
    requires ValidJob(t.job)
    ensures ValidJob(u.job)
  {
    match e
    case Progress(group, _, _, symbol) =>
      if group !in t.job.groups then t
      else
        var groups := t.job.groups[group := GroupAfter(t.job.groups[group], e)];
        t.(job := Recomputed(t.job.(groups := groups, currentGroup := Some(group), currentSymbol := symbol)))
    case GroupCompleted(group, _, _) =>
      if group !in t.job.groups then t
      else
        var groups := t.job.groups[group := GroupAfter(t.job.groups[group], e)];
        t.(job := Recomputed(t.job.(groups := groups, currentGroup := NextGroup(group))))
    case Completed(overall, total, success, failed) =>
      var sums := Recomputed(t.job);
      var zeroed := OrZero(total) == 0 && OrZero(success) == 0 && OrZero(failed) == 0;
      t.(job := Job(
        if overall.Some? && overall.value != "" then overall.value else "SUCCESS", None, None,
        if zeroed then sums.total else OrZero(total),
        if zeroed then sums.completed else OrZero(success),
        if zeroed then sums.failed else OrZero(failed),
        Closed(t.job.groups)))
    case SymbolUpdated(fields) => t.(results := Stored(t.results, fields))
    case Derived => t
  }

  /** Whether handling the event saves the status, which broadcasts a snapshot. */
  predicate Saves(t: Tracker, e: Event) {
    match e
    case Progress(group, _, _, _) => group in t.job.groups
    case GroupCompleted(group, _, _) => group in t.job.groups
    case Completed(_, _, _, _) => true
    case _ => false
  }

  function HandleAll(t: Tracker, es: seq<Event>): (u: Tracker)
    requires ValidJob(t.job)
    ensures ValidJob(u.job)
    decreases |es|
  {
    if es == [] then t else HandleAll(Handle(t, es[0]), es[1..])
  }

  function DefaultJob(): Job {
    var empty := Group(0, 0, 0, Pending);
    Job("PENDING", None, None, 0, 0, 0, map["A" := empty, "B" := empty, "C" := empty])
  }

  // ---- What each event writes ----

  /** The overall counters are the sums over the three groups. */
  ghost predicate SumsUp(job: Job) {
    && "A" in job.groups && "B" in job.groups && "C" in job.groups
    && job.total == job.groups["A"].total + job.groups["B"].total + job.groups["C"].total
    && job.completed == job.groups["A"].completed + job.groups["B"].completed + job.groups["C"].completed
    && job.failed == job.groups["A"].failed + job.groups["B"].failed + job.groups["C"].failed
  }

  /** PROGRESS: the group takes the payload's total and completed, or 0, keeps its failed count and
      runs; it and the symbol become current; the other groups and all else stay, and the overall
      counters follow.  An unknown group changes nothing. */
  lemma ProgressWrites(t: Tracker, e: Event)
    requires ValidJob(t.job) && e.Progress?
    ensures e.group !in {"A", "B", "C"} ==> Handle(t, e) == t
    ensures e.group in {"A", "B", "C"} ==>
              var u := Handle(t, e);
              && u == t.(job := t.job.(groups := u.job.groups, currentGroup := Some(e.group), currentSymbol := e.symbol,
                                       total := u.job.total, completed := u.job.completed, failed := u.job.failed))
              && u.job.groups == t.job.groups[e.group := u.job.groups[e.group]]
              && u.job.groups[e.group].total == (match e.total case Some(n) => n case None => 0)
              && u.job.groups[e.group].completed == (match e.completed case Some(n) => n case None => 0)
              && u.job.groups[e.group].failed == t.job.groups[e.group].failed
              && u.job.groups[e.group].status == Running && SumsUp(u.job)
  {
  }

  /** GROUP_COMPLETED: the group's total is what was processed, or what it was if that is missing or
      0; failed is the payload's, or 0; completed is the rest, not below 0; the group has succeeded
      and the next one becomes current. */
  lemma GroupCompletedWrites(t: Tracker, e: Event)
    requires ValidJob(t.job) && e.GroupCompleted?
    ensures e.group !in {"A", "B", "C"} ==> Handle(t, e) == t
    ensures e.group in {"A", "B", "C"} ==>
              var u := Handle(t, e);
              var row := u.job.groups[e.group];
              && u == t.(job := t.job.(groups := u.job.groups, currentGroup := u.job.currentGroup,
                                       total := u.job.total, completed := u.job.completed, failed := u.job.failed))
              && u.job.groups == t.job.groups[e.group := row]
              && row.total == (if e.processed == None || e.processed == Some(0) then t.job.groups[e.group].total
                               else e.processed.value)
              && row.failed == (match e.failed case Some(n) => n case None => 0)
              && row.completed == (if row.total >= row.failed then row.total - row.failed else 0)
              && row.status == Succeeded && SumsUp(u.job)
              && u.job.currentGroup ==
                   if e.group == "A" then Some("B") else if e.group == "B" then Some("C") else None
  {
  }

  /** COMPLETED: the job has the event's status, or SUCCESS, and nothing is current; every group has
      succeeded with its counters as they were; the overall counters are the event's, or the sums
      if all three are missing or 0. */
  lemma CompletedWrites(t: Tracker, e: Event)
    requires ValidJob(t.job) && e.Completed?
    ensures var u := Handle(t, e);
            var zeroed := (e.total == None || e.total == Some(0)) && (e.success == None || e.success == Some(0))
                          && (e.failed == None || e.failed == Some(0));
            && u.results == t.results && u.job.groups.Keys == t.job.groups.Keys
            && (forall g :: g in t.job.groups ==> u.job.groups[g] == t.job.groups[g].(status := Succeeded))
            && u.job.currentGroup == None && u.job.currentSymbol == None
            && u.job.overall == (if e.overall == None || e.overall == Some("") then "SUCCESS" else e.overall.value)
            && (zeroed ==> SumsUp(u.job))
            && (!zeroed ==>
                  && u.job.total == (match e.total case Some(n) => n case None => 0)
                  && u.job.completed == (match e.success case Some(n) => n case None => 0)
                  && u.job.failed == (match e.failed case Some(n) => n case None => 0))
  {
  }

  /** SYMBOL_RESULT_UPDATED touches the results alone, and only its own symbol's: a payload with
      fewer fields than a stored result is merged over it, any other takes its place. */
  lemma SymbolUpdatedWrites(t: Tracker, e: Event)
    requires ValidJob(t.job) && e.SymbolUpdated?
    ensures var u := Handle(t, e);
            && u.job == t.job
            && ("symbol" !in e.fields || e.fields["symbol"] == "" ==> u.results == t.results)
            && ("symbol" in e.fields && e.fields["symbol"] != "" ==>
                  var symbol := e.fields["symbol"];
                  && symbol in u.results && u.results == t.results[symbol := u.results[symbol]]
                  && u.results[symbol] ==
                       if symbol in t.results && t.results[symbol] != map[] && |e.fields| < |t.results[symbol]|
                       then t.results[symbol] + e.fields else e.fields)
  {
    if "symbol" in e.fields && e.fields["symbol"] in t.results {
      MapSize(e.fields);
      MapSize(t.results[e.fields["symbol"]]);
    }
  }

  lemma {:induction false} MapSize(m: map<string, string>)
    ensures |m| == |m.Keys| && (m == map[] <==> |m.Keys| == 0)
  {
    if m.Keys != {} {
      var k :| k in m.Keys;
      assert m != map[];
    }
  }

  /** Derived events reach nothing; and a snapshot goes out exactly for a group event of a known
      group and for the final event. */
  lemma DerivedWritesNothing(t: Tracker, e: Event)
    requires ValidJob(t.job)
    ensures e == Derived ==> Handle(t, e) == t
    ensures Saves(t, e) <==>
              e.Completed? || ((e.Progress? || e.GroupCompleted?) && e.group in {"A", "B", "C"})
  {
  }

  // ---- Handling twice ----

  lemma StoredTwice(results: map<string, map<string, string>>, fields: map<string, string>)
    ensures Stored(Stored(results, fields), fields) == Stored(results, fields)
  {
    if "symbol" in fields && fields["symbol"] in results {
      var held := results[fields["symbol"]];
      assert (held + fields) + fields == held + fields;
      assert held.Keys <= (held + fields).Keys;
      SubsetSize(held.Keys, (held + fields).Keys);
    }
  }

  lemma {:induction false} SubsetSize<T>(a: set<T>, b: set<T>)
    requires a <= b
    ensures |a| <= |b|
  {
    if a != {} {
      var x :| x in a;
      SubsetSize(a - {x}, b - {x});
    }
  }

  /** Every event carries absolute values: delivered twice in a row it does what once does. */
  lemma HandlingTwiceIsHandlingOnce(t: Tracker, e: Event)
    requires ValidJob(t.job)
    ensures Handle(Handle(t, e), e) == Handle(t, e)
  {
    match e
    case SymbolUpdated(fields) => StoredTwice(t.results, fields);
    case Progress(group, _, _, _) =>
      if group in t.job.groups {
        var g := GroupAfter(t.job.groups[group], e);
        assert t.job.groups[group := g][group := g] == t.job.groups[group := g];
      }
    case GroupCompleted(group, _, _) =>
      if group in t.job.groups {
        var g := GroupAfter(t.job.groups[group], e);
        GroupTwice(t.job.groups[group], e);
        assert t.job.groups[group := g][group := g] == t.job.groups[group := g];
      }
    case Completed(_, _, _, _) =>
      assert Closed(Closed(t.job.groups)) == Closed(t.job.groups);
    case Derived =>
  }

  lemma {:induction false} HandleLast(t: Tracker, es: seq<Event>, e: Event)
    requires ValidJob(t.job)
    ensures HandleAll(t, es + [e]) == Handle(HandleAll(t, es), e)
    decreases |es|
  {
    if es == [] {
      assert es + [e] == [e];
    } else {
      assert (es + [e])[1..] == es[1..] + [e];
      HandleLast(Handle(t, es[0]), es[1..], e);
    }
  }

  // ---- Totals ----

  predicate TotalsAgree(job: Job)
    requires ValidJob(job)
  {
    var sums := Recomputed(job);
    job.total == sums.total && job.completed == sums.completed && job.failed == sums.failed
  }

  predicate GroupEvent(e: Event) { e.Progress? || e.GroupCompleted? }

  /** The overall counters equal the sums over the groups after any run of group events.  After a
      final event they do exactly if it was zeroed or carried the sums itself. */
  lemma FinalTotals(t: Tracker, e: Event)
    requires ValidJob(t.job) && e.Completed?
    ensures var sums := Recomputed(t.job);
            TotalsAgree(Handle(t, e).job) <==>
              || (OrZero(e.total) == 0 && OrZero(e.success) == 0 && OrZero(e.failed) == 0)
              || (OrZero(e.total) == sums.total && OrZero(e.success) == sums.completed
                  && OrZero(e.failed) == sums.failed)
  {
  }

  // ---- Independence of groups ----

  /** The events of one group, in their order. */
  function Own(es: seq<Event>, group: string): seq<Event> {
    if es == [] then []
    else (if GroupEvent(es[0]) && es[0].group == group then [es[0]] else []) + Own(es[1..], group)
  }

  function GroupAfterAll(g: Group, es: seq<Event>): Group
    decreases |es|
  {
    if es == [] then g else GroupAfterAll(GroupAfter(g, es[0]), es[1..])
  }

  /** A group's row depends only on its own events, and the totals on the rows. */
  lemma {:induction false} RowsFollowOwnEvents(t: Tracker, es: seq<Event>, group: string)
    requires ValidJob(t.job) && TotalsAgree(t.job) && group in GROUPS
    requires forall k :: 0 <= k < |es| ==> GroupEvent(es[k])
    ensures var u := HandleAll(t, es);
            && u.job.groups[group] == GroupAfterAll(t.job.groups[group], Own(es, group))
            && TotalsAgree(u.job)
    decreases |es|
  {
    if es != [] {
      var u := Handle(t, es[0]);
      assert GroupEvent(es[0]);
      RowsFollowOwnEvents(u, es[1..], group);
      if es[0].group == group {
        assert ([es[0]] + Own(es[1..], group))[1..] == Own(es[1..], group);
      } else {
        assert [] + Own(es[1..], group) == Own(es[1..], group);
      }
    }
  }

  /** Two interleavings of the same per-group streams end in the same table and totals. */
  lemma InterleavingDoesNotMatter(t: Tracker, es: seq<Event>, fs: seq<Event>)
    requires ValidJob(t.job) && TotalsAgree(t.job)
    requires forall k :: 0 <= k < |es| ==> GroupEvent(es[k])
    requires forall k :: 0 <= k < |fs| ==> GroupEvent(fs[k])
    requires forall group :: group in GROUPS ==> Own(es, group) == Own(fs, group)
    ensures var u, v := HandleAll(t, es).job, HandleAll(t, fs).job;
            u.groups == v.groups && u.total == v.total && u.completed == v.completed && u.failed == v.failed
  {
    forall group | group in GROUPS
      ensures HandleAll(t, es).job.groups[group] == HandleAll(t, fs).job.groups[group]
      ensures TotalsAgree(HandleAll(t, es).job) && TotalsAgree(HandleAll(t, fs).job)
    {
      RowsFollowOwnEvents(t, es, group);
      RowsFollowOwnEvents(t, fs, group);
    }
    assert "A" in GROUPS;
    assert HandleAll(t, es).job.groups == HandleAll(t, fs).job.groups;
  }

  // ---- A late duplicate ----

  /** When the last own event left the row as e would: the same kind with the same counters.  A
      GROUP_COMPLETED without total_processed takes the row's total. */
  predicate SaysTheSame(e: Event, last: Event, row: Group) {
    match e
    case Progress(_, total, completed, _) =>
      last.Progress? && OrZero(last.total) == OrZero(total) && OrZero(last.completed) == OrZero(completed)
    case GroupCompleted(_, processed, failed) =>
      last.GroupCompleted? && OrZero(last.failed) == OrZero(failed)
      && (OrZero(processed) == 0 || OrZero(processed) == row.total)
    case _ => false
  }

  lemma {:induction false} GroupAfterLast(g: Group, es: seq<Event>)
    requires es != []
    ensures GroupAfterAll(g, es) == GroupAfter(GroupAfterAll(g, es[..|es| - 1]), es[|es| - 1])
    decreases |es|
  {
    if |es| > 1 {
      assert es[1..][..|es| - 2] == es[..|es| - 1][1..];
      GroupAfterLast(GroupAfter(g, es[0]), es[1..]);
    }
  }

  /** After `last`, e changes the row unless it says the same. */
  lemma GroupAfterSame(g: Group, last: Event, e: Event)
    requires GroupEvent(e) && GroupEvent(last)
    ensures var row := GroupAfter(g, last); GroupAfter(row, e) == row <==> SaysTheSame(e, last, row)
  {
  }

  lemma {:induction false} OwnAreGroupEvents(es: seq<Event>, group: string)
    ensures forall k :: 0 <= k < |Own(es, group)| ==> GroupEvent(Own(es, group)[k])
  {
    if es != [] {
      OwnAreGroupEvents(es[1..], group);
    }
  }

  /** An event delivered again after a run of other group events: the table and the totals stay
      as they are exactly if its group had no event of its own meanwhile, or the last of them
      says the same.  Otherwise the group's row is set back. */
  lemma LateDuplicateIsHarmlessIff(t: Tracker, e: Event, es: seq<Event>)
    requires ValidJob(t.job) && GroupEvent(e) && e.group in GROUPS
    requires forall k :: 0 <= k < |es| ==> GroupEvent(es[k])
    ensures var u := HandleAll(Handle(t, e), es);
            var own := Own(es, e.group);
            var row := u.job.groups[e.group];
            && Handle(u, e).job.groups == u.job.groups[e.group := GroupAfter(row, e)]
            && (Handle(u, e).job.groups == u.job.groups <==> own == [] || SaysTheSame(e, own[|own| - 1], row))
            && (own == [] || SaysTheSame(e, own[|own| - 1], row) ==>
                  Handle(u, e).job.total == u.job.total && Handle(u, e).job.completed == u.job.completed
                  && Handle(u, e).job.failed == u.job.failed)
  {
    var u := HandleAll(Handle(t, e), es);
    RowsFollowOwnEvents(Handle(t, e), es, e.group);
    ReplayedRow(t, e, es);
    ReplayIsUpdate(u, e);
    UpdateIsSame(u.job.groups, e.group, GroupAfter(u.job.groups[e.group], e));
  }

  lemma UpdateIsSame(groups: map<string, Group>, group: string, row: Group)
    requires group in groups
    ensures groups[group := row] == groups <==> groups[group] == row
  {
    assert groups[group := row][group] == row;
    assert groups[group] == row ==> groups[group := row] == groups;
  }

  /** What handling a group event does to the table, and that the totals follow it. */
  lemma ReplayIsUpdate(u: Tracker, e: Event)
    requires ValidJob(u.job) && GroupEvent(e) && e.group in GROUPS
    ensures Handle(u, e).job.groups == u.job.groups[e.group := GroupAfter(u.job.groups[e.group], e)]
    ensures TotalsAgree(Handle(u, e).job)
  {
  }

  /** The row after e and other group events stays under e exactly if no own event came since, or
      the last one says the same. */
  lemma ReplayedRow(t: Tracker, e: Event, es: seq<Event>)
    requires ValidJob(t.job) && GroupEvent(e) && e.group in GROUPS
    requires forall k :: 0 <= k < |es| ==> GroupEvent(es[k])
    ensures var row, own := HandleAll(Handle(t, e), es).job.groups[e.group], Own(es, e.group);
            GroupAfter(row, e) == row <==> own == [] || SaysTheSame(e, own[|own| - 1], row)
  {
    ReplayIsUpdate(t, e);
    RowsFollowOwnEvents(Handle(t, e), es, e.group);
    OwnAreGroupEvents(es, e.group);
    RowAfterOwn(t.job.groups[e.group], e, Own(es, e.group));
  }

  lemma RowAfterOwn(g: Group, e: Event, own: seq<Event>)
    requires GroupEvent(e) && forall k :: 0 <= k < |own| ==> GroupEvent(own[k])
    ensures var row := GroupAfterAll(GroupAfter(g, e), own);
            GroupAfter(row, e) == row <==> own == [] || SaysTheSame(e, own[|own| - 1], row)
  {
    if own == [] {
      GroupTwice(g, e);
    } else {
      GroupAfterLast(GroupAfter(g, e), own);
      GroupAfterSame(GroupAfterAll(GroupAfter(g, e), own[..|own| - 1]), own[|own| - 1], e);
    }
  }

  lemma GroupTwice(g: Group, e: Event)
    ensures GroupAfter(GroupAfter(g, e), e) == GroupAfter(g, e)
  {
  }

  // ---- Rows and results on their own ----

  /** A closed group balances exactly if no more symbols failed than were processed; its completed
      count is never negative. */
  lemma ClosedGroupBalances(g: Group, e: Event)
    requires e.GroupCompleted?
    ensures var after := GroupAfter(g, e);
            && after.completed >= 0
            && (after.completed + after.failed == after.total <==> after.failed <= after.total)
  {
  }

  /** A stored result keeps every field it had exactly if the payload has fewer fields, or all of
      its fields; the payload's own fields are always stored. */
  lemma ResultKeepsFieldsIff(results: map<string, map<string, string>>, fields: map<string, string>)
    requires "symbol" in fields && fields["symbol"] in results
    ensures var symbol := fields["symbol"];
            var after := Stored(results, fields);
            symbol != "" ==>
              && (forall f :: f in fields ==> f in after[symbol] && after[symbol][f] == fields[f])
              && (results[symbol].Keys <= after[symbol].Keys
                  <==> |fields.Keys| < |results[symbol].Keys| || results[symbol].Keys <= fields.Keys)
              && (forall other :: other in results && other != symbol ==> after[other] == results[other])
  {
    var held := results[fields["symbol"]];
    if held.Keys <= fields.Keys {
      SubsetSize(held.Keys, fields.Keys);
    }
  }

  lemma CompletedIs(u: Tracker, overall: Option<string>, total: Option<int>, success: Option<int>, failed: Option<int>,
                    status: string, t: int, s: int, f: int)
    requires ValidJob(u.job) && status == if overall.Some? && overall.value != "" then overall.value else "SUCCESS"
    requires var sums := Recomputed(u.job);
             (t, s, f) == if OrZero(total) == 0 && OrZero(success) == 0 && OrZero(failed) == 0
                          then (sums.total, sums.completed, sums.failed)
                          else (OrZero(total), OrZero(success), OrZero(failed))
    ensures Handle(u, Completed(overall, total, success, failed))
         == u.(job := Job(status, None, None, t, s, f, Closed(u.job.groups)))
  {
  }

  // ---- The module's state, updated in place ----

  class JobState {
    var job: Job
    var results: map<string, map<string, string>>

    ghost predicate Valid() reads this { ValidJob(job) }

    ghost function View(): Tracker reads this { Tracker(job, results) }

    constructor ()
      ensures Valid() && View() == Tracker(DefaultJob(), map[])
      ensures job.overall == "PENDING" && job.currentGroup == None && SumsUp(job) && job.total == 0
      ensures forall g :: g in job.groups ==> job.groups[g] == Group(0, 0, 0, Pending)
    {
      job, results := DefaultJob(), map[];
    }

    method HandleEvent(e: Event) returns (saved: bool)
      requires Valid()
      modifies this
      ensures Valid() && View() == Handle(old(View()), e) && saved == Saves(old(View()), e)
    {
      match e {
        case Progress(group, total, completed, symbol) => saved := UpdateStatus(group, total, completed, symbol);
        case GroupCompleted(group, processed, failed) => saved := GroupDone(group, processed, failed);
        case Completed(overall, total, success, failed) => AllDone(overall, total, success, failed); saved := true;
        case SymbolUpdated(fields) => RecordSymbolResult(fields); saved := false;
        case Derived => saved := false;
      }
    }

    method UpdateStatus(group: string, total: Option<int>, completed: Option<int>, symbol: Option<string>)
      returns (saved: bool)
      requires Valid()
      modifies this`job
      ensures Valid() && View() == Handle(old(View()), Progress(group, total, completed, symbol))
      ensures saved == (group in old(job.groups))
    {
      if group !in job.groups {
        return false;
      }
      var meta := job.groups[group].(total := OrZero(total), completed := OrZero(completed), status := Running);
      job := job.(groups := job.groups[group := meta], currentGroup := Some(group), currentSymbol := symbol);
      RecomputeOverall();
      return true;
    }

    method GroupDone(group: string, processed: Option<int>, failed: Option<int>) returns (saved: bool)
      requires Valid()
      modifies this`job
      ensures Valid() && View() == Handle(old(View()), GroupCompleted(group, processed, failed))
      ensures saved == (group in old(job.groups))
    {
      if group !in job.groups {
        return false;
      }
      var n := if OrZero(processed) != 0 then OrZero(processed) else job.groups[group].total;
      var left := n - OrZero(failed);
      var meta := Group(n, if left > 0 then left else 0, OrZero(failed), Succeeded);
      job := job.(groups := job.groups[group := meta], currentGroup := NextGroup(group));
      RecomputeOverall();
      return true;
    }

    method AllDone(overall: Option<string>, total: Option<int>, success: Option<int>, failed: Option<int>)
      requires Valid()
      modifies this`job
      ensures Valid() && View() == Handle(old(View()), Completed(overall, total, success, failed))
    {
      var t, s, f := FinalCounters(OrZero(total), OrZero(success), OrZero(failed));
      var groups := CloseOpenGroups();
      var status := if overall.Some? && overall.value != "" then overall.value else "SUCCESS";
      job := Job(status, None, None, t, s, f, groups);
      CompletedIs(old(View()), overall, total, success, failed, status, t, s, f);
    }

    /** The event's own counters, or the sums over the groups if it is zeroed. */
    method FinalCounters(total: int, success: int, failed: int) returns (t: int, s: int, f: int)
      requires Valid()
      modifies this`job
      ensures Valid() && job.groups == old(job.groups)
      ensures var sums := Recomputed(old(job));
              (t, s, f) == if total == 0 && success == 0 && failed == 0 then (sums.total, sums.completed, sums.failed)
                           else (total, success, failed)
    {
      t, s, f := total, success, failed;
      if t == 0 && s == 0 && f == 0 {
        RecomputeOverall();
        t, s, f := job.total, job.completed, job.failed;
      }
    }

    /** Every group still pending or running counts as succeeded. */
    method CloseOpenGroups() returns (groups: map<string, Group>)
      requires Valid()
      ensures groups == Closed(job.groups)
    {
      groups := map g | g in job.groups ::
        if job.groups[g].status.Pending? || job.groups[g].status.Running? then job.groups[g].(status := Succeeded)
        else job.groups[g];
    }

    method RecordSymbolResult(fields: map<string, string>)
      requires Valid()
      modifies this`results
      ensures Valid() && View() == Handle(old(View()), SymbolUpdated(fields))
    {
      if "symbol" !in fields || fields["symbol"] == "" {
        return;
      }
      var symbol := fields["symbol"];
      if symbol in results && |results[symbol].Keys| > 0 && |fields.Keys| < |results[symbol].Keys| {
        results := results[symbol := results[symbol] + fields];
        return;
      }
      results := results[symbol := fields];
    }

    method RecomputeOverall()
      requires Valid()
      modifies this`job
      ensures Valid() && job == Recomputed(old(job)) && SumsUp(job)
    {
      var total, completed, failed := 0, 0, 0;
      var order := ["A", "B", "C"];
      for k := 0 to 3
        invariant k == 0 ==> total == completed == failed == 0
        invariant k == 1 ==> total == job.groups["A"].total && completed == job.groups["A"].completed
                             && failed == job.groups["A"].failed
        invariant k == 2 ==> total == job.groups["A"].total + job.groups["B"].total
                             && completed == job.groups["A"].completed + job.groups["B"].completed
                             && failed == job.groups["A"].failed + job.groups["B"].failed
        invariant k == 3 ==> total == Recomputed(job).total && completed == Recomputed(job).completed
                             && failed == Recomputed(job).failed
      {
        assert order[k] in GROUPS;
        var meta := job.groups[order[k]];
        total, completed, failed := total + meta.total, completed + meta.completed, failed + meta.failed;
      }
      job := job.(total := total, completed := completed, failed := failed);
    }
  }
}
