/** _validate_and_persist of bulk_importer/orchestrator.py: the counters of an import against what
    the database keeps when saves fail and commits roll back. */
module Importing {

  datatype Status = Saved | Failed | Unsupported

  /** A worker's result for one file, with what becomes of it: an error, no usable parse, failed
      validation, or a valid parse whose record is found or not and whose save works or raises. */
  datatype Result =
    | WorkerError
    | NotParsed
    | Invalid
    | Valid(hasRecord: bool, saves: bool, partial: bool)

  datatype Item = Item(path: string, result: Result)

  datatype Stats = Stats(
    saved: nat, failed: nat, parseFailed: nat, validationFailed: nat, parsedOk: nat, parsedPartial: nat)

  const ZERO := Stats(0, 0, 0, 0, 0, 0)

  /** File statuses in the database and in the open transaction, and how many SAVED statuses
      rollbacks have thrown away. */
  datatype Session = Session(durable: map<string, Status>, pending: map<string, Status>, discarded: nat) {
    function Write(path: string, status: Status): Session { this.(pending := pending[path := status]) }

    function Commit(): Session { Session(durable + pending, map[], discarded) }

    function Rollback(): Session { Session(durable, map[], discarded + SavedIn(pending)) }

    function EndBatch(works: bool): Session { if works then Commit() else Rollback() }
  }

  function SavedIn(m: map<string, Status>): nat { |SavedPaths(m)| }

  function SavedPaths(m: map<string, Status>): set<string> { set p | p in m && m[p] == Saved }

  predicate Distinct(items: seq<Item>) {
    forall i, j :: 0 <= i < j < |items| ==> items[i].path != items[j].path
  }

  // ---- Classification ----

  function Classified(stats: Stats, r: Result): Stats {
    match r
    case WorkerError => stats.(failed := stats.failed + 1)
    case NotParsed => stats.(parseFailed := stats.parseFailed + 1)
    case Invalid => stats.(validationFailed := stats.validationFailed + 1)
    case Valid(_, _, _) => stats
  }

  /** The counters after every item has been counted once. */
  function Counted(stats: Stats, r: Result): Stats {
    if !r.Valid? then Classified(stats, r)
    else if !r.hasRecord || !r.saves then stats.(failed := stats.failed + 1)
    else if r.partial then stats.(saved := stats.saved + 1, parsedPartial := stats.parsedPartial + 1)
    else stats.(saved := stats.saved + 1, parsedOk := stats.parsedOk + 1)
  }

  function Total(stats: Stats): nat { stats.saved + stats.failed + stats.parseFailed + stats.validationFailed }

  /** What can become of a file. */
  datatype Kind = Error | Unparsed | Rejected | Whole | Partial | Unsaved

  predicate IsA(r: Result, kind: Kind) {
    match kind
    case Error => r == WorkerError
    case Unparsed => r == NotParsed
    case Rejected => r == Invalid
    case Whole => r == Valid(true, true, false)
    case Partial => r == Valid(true, true, true)
    case Unsaved => r.Valid? && !(r.hasRecord && r.saves)
  }

  function HowMany(items: seq<Item>, kind: Kind): nat {
    if items == [] then 0
    else HowMany(items[..|items| - 1], kind) + (if IsA(items[|items| - 1].result, kind) then 1 else 0)
  }

  lemma HowManyNext(items: seq<Item>, k: nat, kind: Kind)
    requires k < |items|
    ensures HowMany(items[..k + 1], kind) == HowMany(items[..k], kind) + (if IsA(items[k].result, kind) then 1 else 0)
  {
    assert items[..k + 1][..k] == items[..k];
  }

  /** The items with a valid parse. */
  function ValidOf(items: seq<Item>): seq<Item> {
    if items == [] then []
    else ValidOf(items[..|items| - 1]) + (if items[|items| - 1].result.Valid? then [items[|items| - 1]] else [])
  }

  /** A kind of valid results is counted among the valid ones. */
  lemma {:induction false} HowManyValid(items: seq<Item>, kind: Kind)
    requires kind.Whole? || kind.Partial? || kind.Unsaved?
    ensures HowMany(ValidOf(items), kind) == HowMany(items, kind)
  {
    if items != [] {
      var init, last := items[..|items| - 1], items[|items| - 1];
      HowManyValid(init, kind);
      assert (ValidOf(init) + [last])[..|ValidOf(init)|] == ValidOf(init);
      assert ValidOf(init) + [] == ValidOf(init);
    }
  }

  /** After k of the valid results, on top of the counters of the classification. */
  ghost predicate SavesCounted(stats: Stats, base: Stats, valid: seq<Item>, k: nat)
    requires k <= |valid|
  {
    && stats.parseFailed == base.parseFailed && stats.validationFailed == base.validationFailed
    && stats.failed == base.failed + HowMany(valid[..k], Unsaved)
    && stats.parsedOk == HowMany(valid[..k], Whole) && stats.parsedPartial == HowMany(valid[..k], Partial)
    && stats.saved == stats.parsedOk + stats.parsedPartial
  }

  lemma SavesCountedStep(stats: Stats, base: Stats, valid: seq<Item>, k: nat)
    requires k < |valid| && SavesCounted(stats, base, valid, k) && valid[k].result.Valid?
    ensures SavesCounted(Counted(stats, valid[k].result), base, valid, k + 1)
  {
    HowManyNext(valid, k, Unsaved);
    HowManyNext(valid, k, Whole);
    HowManyNext(valid, k, Partial);
  }

  /** Every counter is the number of results of its kind. */
  ghost predicate CountedByKind(stats: Stats, items: seq<Item>) {
    && stats.failed == HowMany(items, Error) + HowMany(items, Unsaved)
    && stats.parseFailed == HowMany(items, Unparsed) && stats.validationFailed == HowMany(items, Rejected)
    && stats.parsedOk == HowMany(items, Whole) && stats.parsedPartial == HowMany(items, Partial)
    && stats.saved == HowMany(items, Whole) + HowMany(items, Partial)
  }

  /** The same after the classification, which only knows the failures. */
  ghost predicate FailuresByKind(stats: Stats, items: seq<Item>) {
    && stats.failed == HowMany(items, Error) && stats.parseFailed == HowMany(items, Unparsed)
    && stats.validationFailed == HowMany(items, Rejected)
    && stats.saved == stats.parsedOk == stats.parsedPartial == 0
  }

  lemma BothByKind(stats: Stats, base: Stats, items: seq<Item>)
    requires FailuresByKind(base, items) && SavesCounted(stats, base, ValidOf(items), |ValidOf(items)|)
    ensures CountedByKind(stats, items)
  {
    var valid := ValidOf(items);
    assert valid[..|valid|] == valid;
    HowManyValid(items, Unsaved);
    HowManyValid(items, Whole);
    HowManyValid(items, Partial);
  }

  // ---- The save loop ----

  /** The loop's state: batchCount counts the files tried, commits the batches ended. */
  datatype Loop = Loop(stats: Stats, session: Session, batchCount: nat, commits: nat)

  /** One valid result: saved, or rolled back and marked failed; a full batch is committed, and a
      commit that fails is rolled back and the loop goes on. */
  function SaveOne(l: Loop, item: Item, batchSize: nat, commitWorks: nat -> bool): Loop
    requires item.result.Valid? && batchSize > 0
  {
    var stats := Counted(l.stats, item.result);
    if !item.result.hasRecord then l.(stats := stats)
    else
      var session := if item.result.saves then l.session.Write(item.path, Saved)
                     else l.session.Rollback().Write(item.path, Failed);
      if (l.batchCount + 1) % batchSize == 0 then
        Loop(stats, session.EndBatch(commitWorks(l.commits)), l.batchCount + 1, l.commits + 1)
      else Loop(stats, session, l.batchCount + 1, l.commits)
  }

  lemma WriteSaved(m: map<string, Status>, path: string, status: Status)
    requires path !in m
    ensures SavedIn(m[path := status]) == SavedIn(m) + (if status.Saved? then 1 else 0)
  {
    var after := SavedPaths(m[path := status]);
    if status.Saved? {
      assert after == SavedPaths(m) + {path};
    } else {
      assert after == SavedPaths(m);
    }
  }

  lemma SavedUnion(a: map<string, Status>, b: map<string, Status>)
    requires SavedPaths(a) !! b.Keys
    ensures SavedIn(a + b) == SavedIn(a) + SavedIn(b)
  {
    assert SavedPaths(a + b) == SavedPaths(a) + SavedPaths(b);
  }

  /** The saved counter is durable plus pending plus discarded SAVED files, above `base` that were
      there before; nothing in flight is durable as SAVED. */
  ghost predicate SavesBooked(l: Loop, base: nat) {
    && base + l.stats.saved == SavedIn(l.session.durable) + SavedIn(l.session.pending) + l.session.discarded
    && SavedPaths(l.session.durable) !! l.session.pending.Keys
    && l.stats.saved == l.stats.parsedOk + l.stats.parsedPartial
  }

  /** Neither store knows the file as SAVED, and the transaction does not know it at all. */
  ghost predicate Fresh(s: Session, path: string) { path !in SavedPaths(s.durable) && path !in s.pending }

  lemma SaveOneBooks(l: Loop, item: Item, batchSize: nat, commitWorks: nat -> bool, base: nat)
    requires SavesBooked(l, base) && item.result.Valid? && batchSize > 0 && Fresh(l.session, item.path)
    ensures SavesBooked(SaveOne(l, item, batchSize, commitWorks), base)
  {
    var none: map<string, Status> := map[];
    assert SavedPaths(none) == {};
    WriteSaved(l.session.pending, item.path, Saved);
    WriteSaved(none, item.path, Failed);
    if item.result.hasRecord {
      var session := if item.result.saves then l.session.Write(item.path, Saved)
                     else l.session.Rollback().Write(item.path, Failed);
      assert SavedPaths(session.durable) !! session.pending.Keys;
      SavedUnion(session.durable, session.pending);
    }
  }

  /** A full batch ends the transaction: committed, or thrown away.  Before that a save waits in it as
      SAVED, a failing one throws it away and leaves the file FAILED, and a missing record is only
      counted. */
  lemma SaveOneEnds(l: Loop, item: Item, batchSize: nat, commitWorks: nat -> bool)
    requires item.result.Valid? && batchSize > 0
    ensures var m := SaveOne(l, item, batchSize, commitWorks);
            var tried := item.result.hasRecord;
            var full := tried && (l.batchCount + 1) % batchSize == 0;
            var open := if !tried then l.session.pending
                        else if item.result.saves then l.session.pending[item.path := Saved]
                        else map[item.path := Failed];
            && m.batchCount == l.batchCount + (if tried then 1 else 0)
            && m.commits == l.commits + (if full then 1 else 0)
            && m.session.pending == (if full then map[] else open)
            && m.session.durable ==
                 (if full && commitWorks(l.commits) then l.session.durable + open else l.session.durable)
  {
    var none: map<string, Status> := map[];
    assert none[item.path := Failed] == map[item.path := Failed];
  }

  lemma SaveOneKeepsFresh(l: Loop, item: Item, batchSize: nat, commitWorks: nat -> bool, path: string)
    requires item.result.Valid? && batchSize > 0 && Fresh(l.session, path) && path != item.path
    ensures Fresh(SaveOne(l, item, batchSize, commitWorks).session, path)
  {
  }

  // ---- The method ----

  /** No save raises. */
  ghost predicate Smooth(items: seq<Item>) {
    forall i :: 0 <= i < |items| && items[i].result.Valid? && items[i].result.hasRecord ==> items[i].result.saves
  }

  /** Of the files that are not being saved the save loop knows nothing. */
  ghost predicate OthersKept(first: map<string, Status>, session: Session, valid: seq<Item>) {
    forall p :: (forall i :: 0 <= i < |valid| ==> valid[i].path != p) ==>
      p !in session.pending && (p in session.durable <==> p in first) && (p in first ==> session.durable[p] == first[p])
  }

  /** The first k of the files with a record are SAVED, in the database or the open transaction. */
  ghost predicate AllSaved(session: Session, valid: seq<Item>, k: nat) {
    forall i :: 0 <= i < k && i < |valid| && valid[i].result.Valid? && valid[i].result.hasRecord ==>
      valid[i].path in session.durable + session.pending && (session.durable + session.pending)[valid[i].path] == Saved
  }

  lemma SaveOneKeepsOthers(l: Loop, first: map<string, Status>, valid: seq<Item>, k: nat, batchSize: nat,
                           commitWorks: nat -> bool)
    requires OthersKept(first, l.session, valid) && k < |valid| && valid[k].result.Valid? && batchSize > 0
    ensures OthersKept(first, SaveOne(l, valid[k], batchSize, commitWorks).session, valid)
  {
    SaveOneEnds(l, valid[k], batchSize, commitWorks);
  }

  lemma SaveOneSaves(l: Loop, valid: seq<Item>, k: nat, batchSize: nat, commitWorks: nat -> bool)
    requires AllSaved(l.session, valid, k) && k < |valid| && valid[k].result.Valid? && batchSize > 0
    requires valid[k].result.hasRecord ==> valid[k].result.saves
    requires forall j :: commitWorks(j)
    ensures AllSaved(SaveOne(l, valid[k], batchSize, commitWorks).session, valid, k + 1)
  {
    SaveOneEnds(l, valid[k], batchSize, commitWorks);
  }

  /** The save loop over the valid results, from the counters and the database that the first commit
      left. */
  method SaveAll(base: Stats, first: map<string, Status>, valid: seq<Item>, batchSize: nat, commitWorks: nat -> bool)
    returns (l: Loop)
    requires batchSize > 0 && base.saved == base.parsedOk == base.parsedPartial == 0
    requires Distinct(valid) && forall i :: 0 <= i < |valid| ==> valid[i].result.Valid?
    requires forall i :: 0 <= i < |valid| ==> valid[i].path !in SavedPaths(first)
    ensures SavesBooked(l, SavedIn(first)) && SavesCounted(l.stats, base, valid, |valid|)
    ensures OthersKept(first, l.session, valid)
    ensures Smooth(valid) && (forall j :: commitWorks(j)) ==>
              l.session.discarded == 0 && AllSaved(l.session, valid, |valid|)
  {
    assert SavedPaths(map[]) == {};
    l := Loop(base, Session(first, map[], 0), 0, 0);
    for k := 0 to |valid|
      invariant SavesBooked(l, SavedIn(first)) && SavesCounted(l.stats, base, valid, k)
      invariant OthersKept(first, l.session, valid)
      invariant forall i :: k <= i < |valid| ==> Fresh(l.session, valid[i].path)
      invariant Smooth(valid) && (forall j :: commitWorks(j)) ==>
                  l.session.discarded == 0 && AllSaved(l.session, valid, k)
    {
      l := SaveNext(l, base, first, valid, k, batchSize, commitWorks);
    }
  }

  /** One turn of the save loop. */
  method SaveNext(l: Loop, ghost base: Stats, ghost first: map<string, Status>, valid: seq<Item>, k: nat,
                  batchSize: nat, commitWorks: nat -> bool)
    returns (m: Loop)
    requires batchSize > 0 && k < |valid| && valid[k].result.Valid? && Distinct(valid)
    requires SavesBooked(l, SavedIn(first)) && SavesCounted(l.stats, base, valid, k)
    requires OthersKept(first, l.session, valid)
    requires forall i :: k <= i < |valid| ==> valid[i].result.Valid? && Fresh(l.session, valid[i].path)
    ensures m == SaveOne(l, valid[k], batchSize, commitWorks)
    ensures SavesBooked(m, SavedIn(first)) && SavesCounted(m.stats, base, valid, k + 1)
    ensures OthersKept(first, m.session, valid)
    ensures forall i :: k < i < |valid| ==> Fresh(m.session, valid[i].path)
    ensures Smooth(valid) && (forall j :: commitWorks(j))
            && l.session.discarded == 0 && AllSaved(l.session, valid, k) ==>
              m.session.discarded == 0 && AllSaved(m.session, valid, k + 1)
  {
    m := SaveOne(l, valid[k], batchSize, commitWorks);
    SaveOneBooks(l, valid[k], batchSize, commitWorks, SavedIn(first));
    SavesCountedStep(l.stats, base, valid, k);
    SaveOneKeepsOthers(l, first, valid, k, batchSize, commitWorks);
    forall i | k < i < |valid| ensures Fresh(m.session, valid[i].path) {
      SaveOneKeepsFresh(l, valid[k], batchSize, commitWorks, valid[i].path);
    }
    if Smooth(valid) && (forall j :: commitWorks(j)) && l.session.discarded == 0 && AllSaved(l.session, valid, k) {
      SaveOneSaves(l, valid, k, batchSize, commitWorks);
    }
  }

  /** The failures are marked in the database: errors and rejected files FAILED, the rest of the
      unusable ones UNSUPPORTED. */
  ghost predicate FailuresMarked(durable: map<string, Status>, items: seq<Item>) {
    forall k :: 0 <= k < |items| ==>
      && (items[k].result == WorkerError || items[k].result == Invalid ==>
            items[k].path in durable && durable[items[k].path] == Failed)
      && (items[k].result == NotParsed ==> items[k].path in durable && durable[items[k].path] == Unsupported)
  }

  /** Classifies every result, commits the failures, saves the valid ones in batches, commits at
      the end.  Either of the two commits outside the loop raises when it fails.

      Past the first commit every counter is the number of results of its kind, failures are marked
      in the database, and the files that became SAVED there are the saved counter minus the saves
      that later rollbacks discarded.  When no save and no commit fails, nothing is discarded and
      every valid result with a record is SAVED. */
  method ValidateAndPersist(results: seq<Item>, before: map<string, Status>, batchSize: nat,
                            commitWorks: nat -> bool, firstCommit: bool, lastCommit: bool)
    returns (stats: Stats, session: Session, raised: bool)
    requires Distinct(results) && batchSize > 0
    requires forall i :: 0 <= i < |results| ==> results[i].path !in SavedPaths(before)
    ensures raised <==> !firstCommit || (!lastCommit && ValidOf(results) != [])
    ensures session.pending == map[]
    ensures !firstCommit ==> session.durable == before && FailuresByKind(stats, results)
    ensures firstCommit ==>
              && CountedByKind(stats, results) && Total(stats) == |results|
              && SavedIn(session.durable) + session.discarded == SavedIn(before) + stats.saved
              && FailuresMarked(session.durable, results)
    ensures firstCommit && lastCommit && Smooth(results) && (forall k :: commitWorks(k)) ==>
              session.discarded == 0 && AllSaved(session, results, |results|)
  {
    var valid;
    stats, session, valid := ClassifyAndMark(results, before, firstCommit);
    if !firstCommit || valid == [] {
      return stats, session, !firstCommit;
    }
    stats, session := PersistValid(stats, session.durable, results, valid, batchSize, commitWorks, lastCommit);
    raised := !lastCommit;
  }

  /** The classification and the first commit. */
  method ClassifyAndMark(results: seq<Item>, before: map<string, Status>, firstCommit: bool)
    returns (stats: Stats, session: Session, valid: seq<Item>)
    requires Distinct(results)
    requires forall i :: 0 <= i < |results| ==> results[i].path !in SavedPaths(before)
    ensures valid == ValidOf(results) && Distinct(valid) && FailuresByKind(stats, results) && session.pending == map[]
    ensures forall i :: 0 <= i < |valid| ==> valid[i].result.Valid?
    ensures Smooth(results) ==> Smooth(valid)
    ensures !firstCommit ==> session.durable == before
    ensures firstCommit ==>
              && SavedIn(session.durable) == SavedIn(before) && session.discarded == 0
              && FailuresMarked(session.durable, results)
              && (forall i :: 0 <= i < |valid| ==> valid[i].path !in SavedPaths(session.durable))
    ensures valid == [] ==>
              CountedByKind(stats, results) && Total(stats) == |results| && AllSaved(session, results, |results|)
  {
    var c := Classify(results, before);
    FirstCommit(c, results, before);
    stats, session, valid := c.stats, if firstCommit then c.session.Commit() else c.session.Rollback(), c.valid;
    if valid == [] {
      NoneValid(stats, session, results);
    }
  }

  /** From the first commit on: the save loop and the last commit. */
  method PersistValid(base: Stats, first: map<string, Status>, ghost results: seq<Item>, valid: seq<Item>,
                      batchSize: nat, commitWorks: nat -> bool, lastCommit: bool)
    returns (stats: Stats, session: Session)
    requires batchSize > 0 && Distinct(results) && valid == ValidOf(results) && Distinct(valid)
    requires FailuresByKind(base, results) && FailuresMarked(first, results)
    requires forall i :: 0 <= i < |valid| ==> valid[i].result.Valid? && valid[i].path !in SavedPaths(first)
    ensures session.pending == map[] && CountedByKind(stats, results) && Total(stats) == |results|
    ensures SavedIn(session.durable) + session.discarded == SavedIn(first) + stats.saved
    ensures FailuresMarked(session.durable, results)
    ensures lastCommit && Smooth(valid) && (forall k :: commitWorks(k)) ==>
              session.discarded == 0 && AllSaved(session, results, |results|)
  {
    var l := SaveAll(base, first, valid, batchSize, commitWorks);
    LastCommit(base, first, l, results, lastCommit);
    return l.stats, l.session.EndBatch(lastCommit);
  }

  lemma {:induction false} ValidIsPart(items: seq<Item>)
    ensures forall v :: v in ValidOf(items) ==> v in items && v.result.Valid?
    ensures forall v :: v in items && v.result.Valid? ==> v in ValidOf(items)
  {
    if items != [] {
      ValidIsPart(items[..|items| - 1]);
    }
  }

  /** Each kind is one of the six, so the counters add up to the number of results. */
  lemma {:induction false} KindsAddUp(items: seq<Item>)
    ensures HowMany(items, Error) + HowMany(items, Unparsed) + HowMany(items, Rejected)
          + HowMany(items, Whole) + HowMany(items, Partial) + HowMany(items, Unsaved) == |items|
  {
    if items != [] {
      KindsAddUp(items[..|items| - 1]);
    }
  }

  /** What the first commit leaves for the save loop. */
  lemma FirstCommit(c: Classes, results: seq<Item>, before: map<string, Status>)
    requires Distinct(results) && ClassifiedUpTo(c, results, |results|, before)
    ensures var first := c.session.Commit();
            && first.pending == map[] && first.discarded == 0
            && SavedIn(first.durable) == SavedIn(before) && FailuresMarked(first.durable, results)
            && (forall i :: 0 <= i < |c.valid| ==> c.valid[i].path !in SavedPaths(first.durable))
    ensures c.valid == ValidOf(results) && FailuresByKind(c.stats, results) && c.session.durable == before
    ensures Distinct(c.valid) && (forall i :: 0 <= i < |c.valid| ==> c.valid[i].result.Valid?)
    ensures Smooth(results) ==> Smooth(c.valid)
  {
    assert results[..|results|] == results;
    assert SavedPaths(c.session.pending) == {};
    SavedUnion(c.session.durable, c.session.pending);
  }

  /** The case without any valid result. */
  lemma NoneValid(stats: Stats, session: Session, results: seq<Item>)
    requires ValidOf(results) == [] && FailuresByKind(stats, results)
    ensures CountedByKind(stats, results) && Total(stats) == |results| && AllSaved(session, results, |results|)
  {
    BothByKind(stats, stats, results);
    KindsAddUp(results);
    ValidIsPart(results);
  }

  /** What the save loop and the commit after it leave in the database. */
  lemma LastCommit(base: Stats, first: map<string, Status>, l: Loop, results: seq<Item>, works: bool)
    requires Distinct(results) && FailuresByKind(base, results) && FailuresMarked(first, results)
    requires SavesBooked(l, SavedIn(first)) && OthersKept(first, l.session, ValidOf(results))
    requires SavesCounted(l.stats, base, ValidOf(results), |ValidOf(results)|)
    ensures var end := l.session.EndBatch(works);
            && end.pending == map[] && CountedByKind(l.stats, results) && Total(l.stats) == |results|
            && SavedIn(end.durable) + end.discarded == SavedIn(first) + l.stats.saved
            && FailuresMarked(end.durable, results)
            && (works ==> end.discarded == l.session.discarded)
            && (works && AllSaved(l.session, ValidOf(results), |ValidOf(results)|) ==>
                  AllSaved(end, results, |results|))
  {
    BothByKind(l.stats, base, results);
    KindsAddUp(results);
    SavedUnion(l.session.durable, l.session.pending);
    FailuresStay(first, l, results, works);
    if works && AllSaved(l.session, ValidOf(results), |ValidOf(results)|) {
      SavedInAll(l.session, results);
    }
  }

  lemma FailuresStay(first: map<string, Status>, l: Loop, results: seq<Item>, works: bool)
    requires Distinct(results) && FailuresMarked(first, results) && OthersKept(first, l.session, ValidOf(results))
    ensures FailuresMarked(l.session.EndBatch(works).durable, results)
  {
    var end := l.session.EndBatch(works);
    forall k | 0 <= k < |results| && !results[k].result.Valid?
      ensures results[k].path in first ==>
                results[k].path in end.durable && end.durable[results[k].path] == first[results[k].path]
    {
      NotAmongValid(results, k);
    }
  }

  lemma NotAmongValid(results: seq<Item>, k: nat)
    requires Distinct(results) && k < |results| && !results[k].result.Valid?
    ensures forall i :: 0 <= i < |ValidOf(results)| ==> ValidOf(results)[i].path != results[k].path
  {
    ValidIsPart(results);
    forall i | 0 <= i < |ValidOf(results)| ensures ValidOf(results)[i].path != results[k].path {
      assert ValidOf(results)[i] in results;
    }
  }

  lemma SavedInAll(session: Session, results: seq<Item>)
    requires AllSaved(session, ValidOf(results), |ValidOf(results)|)
    ensures AllSaved(session.Commit(), results, |results|)
  {
    ValidIsPart(results);
    forall k | 0 <= k < |results| && results[k].result.Valid? && results[k].result.hasRecord
      ensures results[k].path in session.Commit().durable && session.Commit().durable[results[k].path] == Saved
    {
      assert results[k] in ValidOf(results);
      var i :| 0 <= i < |ValidOf(results)| && ValidOf(results)[i] == results[k];
    }
    assert session.Commit().durable + session.Commit().pending == session.Commit().durable;
  }

  /** Counters, statuses to write and results to save, after some of the results. */
  datatype Classes = Classes(stats: Stats, session: Session, valid: seq<Item>)

  function ClassifyOne(c: Classes, item: Item): Classes {
    var stats := Classified(c.stats, item.result);
    match item.result
    case WorkerError | Invalid => c.(stats := stats, session := c.session.Write(item.path, Failed))
    case NotParsed => c.(stats := stats, session := c.session.Write(item.path, Unsupported))
    case Valid(_, _, _) => c.(valid := c.valid + [item])
  }

  /** The first k results are counted or kept as valid. */
  ghost predicate CountsAdd(c: Classes, k: nat, before: map<string, Status>) {
    && Total(c.stats) + |c.valid| == k && c.stats.saved == c.stats.parsedOk == c.stats.parsedPartial == 0
    && c.session.durable == before && c.session.discarded == 0
  }

  /** The statuses pending are failures, of files already seen. */
  ghost predicate PendingFailures(c: Classes, results: seq<Item>, k: nat, before: map<string, Status>) {
    && (forall p :: p in c.session.pending ==> c.session.pending[p] != Saved && p !in SavedPaths(before))
    && (forall i :: k <= i < |results| ==> results[i].path !in c.session.pending)
  }

  /** The results kept are valid, of distinct files, seen and not written yet. */
  ghost predicate KeptValid(c: Classes, results: seq<Item>, k: nat, before: map<string, Status>) {
    && (forall i :: 0 <= i < |c.valid| ==> c.valid[i].result.Valid? && Fresh(c.session, c.valid[i].path))
    && (forall i, j :: 0 <= i < |c.valid| && k <= j < |results| ==> c.valid[i].path != results[j].path)
    && Distinct(c.valid) && (Smooth(results) ==> Smooth(c.valid))
  }

  ghost predicate SetApart(c: Classes, results: seq<Item>, k: nat, before: map<string, Status>) {
    CountsAdd(c, k, before) && PendingFailures(c, results, k, before) && KeptValid(c, results, k, before)
  }

  ghost predicate ClassifiedUpTo(c: Classes, results: seq<Item>, k: nat, before: map<string, Status>) {
    SetApart(c, results, k, before) && k <= |results| && KindsKnown(c, results, k)
  }

  /** The counters, the marks and the kept results of the first k, kind by kind. */
  ghost predicate KindsKnown(c: Classes, results: seq<Item>, k: nat)
    requires k <= |results|
  {
    && FailuresByKind(c.stats, results[..k]) && c.valid == ValidOf(results[..k])
    && FailuresMarked(c.session.pending, results[..k])
  }

  lemma KindsStep(c: Classes, results: seq<Item>, k: nat)
    requires Distinct(results) && k < |results| && KindsKnown(c, results, k)
    ensures KindsKnown(ClassifyOne(c, results[k]), results, k + 1)
  {
    HowManyNext(results, k, Error);
    HowManyNext(results, k, Unparsed);
    HowManyNext(results, k, Rejected);
    assert results[..k + 1][..k] == results[..k];
    assert c.valid + [] == c.valid;
    var d := ClassifyOne(c, results[k]);
    forall i | 0 <= i < k ensures results[..k + 1][i] == results[..k][i] && results[i].path != results[k].path {
    }
  }

  lemma ClassifyStep(c: Classes, results: seq<Item>, k: nat, before: map<string, Status>)
    requires Distinct(results) && k < |results| && ClassifiedUpTo(c, results, k, before)
    requires results[k].path !in SavedPaths(before)
    ensures ClassifiedUpTo(ClassifyOne(c, results[k]), results, k + 1, before)
  {
    SetApartStep(c, results, k, before);
    KindsStep(c, results, k);
  }

  lemma SetApartStep(c: Classes, results: seq<Item>, k: nat, before: map<string, Status>)
    requires Distinct(results) && k < |results| && SetApart(c, results, k, before)
    requires results[k].path !in SavedPaths(before)
    ensures SetApart(ClassifyOne(c, results[k]), results, k + 1, before)
  {
    var d := ClassifyOne(c, results[k]);
    assert forall i :: k < i < |results| ==> results[i].path != results[k].path;
    if d.valid != c.valid {
      assert forall i :: 0 <= i < |c.valid| ==> d.valid[i] == c.valid[i];
    }
  }

  lemma NothingKept(c: Classes, results: seq<Item>, before: map<string, Status>)
    requires c.valid == []
    ensures KeptValid(c, results, 0, before)
  {
  }

  lemma NothingPending(c: Classes, results: seq<Item>, before: map<string, Status>)
    requires c.session.pending == map[]
    ensures PendingFailures(c, results, 0, before)
  {
  }

  /** One turn of the first loop. */
  method ClassifyInto(c: Classes, item: Item) returns (d: Classes)
    ensures d == ClassifyOne(c, item)
  {
    d := c.(stats := Classified(c.stats, item.result));
    match item.result
    case WorkerError | Invalid => d := d.(session := c.session.Write(item.path, Failed));
    case NotParsed => d := d.(session := c.session.Write(item.path, Unsupported));
    case Valid(_, _, _) => d := d.(valid := c.valid + [item]);
  }

  /** The first loop and the two bulk updates. */
  method Classify(results: seq<Item>, before: map<string, Status>) returns (c: Classes)
    requires Distinct(results)
    requires forall i :: 0 <= i < |results| ==> results[i].path !in SavedPaths(before)
    ensures ClassifiedUpTo(c, results, |results|, before)
  {
    c := Classes(ZERO, Session(before, map[], 0), []);
    assert results[..0] == [];
    NothingPending(c, results, before);
    NothingKept(c, results, before);
    for k := 0 to |results|
      invariant ClassifiedUpTo(c, results, k, before)
    {
      ClassifyStep(c, results, k, before);
      c := ClassifyInto(c, results[k]);
    }
  }

  /** A failing save discards exactly the SAVED files of the open batch. */
  lemma FailingSaveDiscardsBatch(l: Loop, item: Item, batchSize: nat, commitWorks: nat -> bool)
    requires item.result.Valid? && batchSize > 0 && item.result.hasRecord && !item.result.saves
    ensures var after := SaveOne(l, item, batchSize, commitWorks);
            && after.session.discarded == l.session.discarded + SavedIn(l.session.pending)
            && after.stats.saved == l.stats.saved && after.stats.failed == l.stats.failed + 1
  {
    var none: map<string, Status> := map[];
    WriteSaved(none, item.path, Failed);
    assert SavedPaths(none) == {};
  }
}
