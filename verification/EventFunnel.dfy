/** api/ws_manager.py: the single funnel every event passes, and its bounded dedupe ring.

    Deliveries are processed one at a time.  The ring remembers the last 1024 ids it accepted; the
    funnel behaves like one that remembers every id exactly as long as no redelivery is late. */
module EventFunnel {
  import opened JobStatus

  const RING: nat := 1024

  /** One arrival: its event_id ("" if missing, then `newId` is used) and the id given to the
      status snapshot it may trigger. */
  datatype Delivery = Delivery(id: string, newId: string, event: Event, snapshotId: string)

  /** What connected clients are sent. */
  datatype Message = Raw(id: string, event: Event) | Snapshot(id: string, job: Job)

  /** `accepted` is every id ever accepted, in order. */
  datatype Funnel = Funnel(tracker: Tracker, sends: seq<Message>, accepted: seq<string>)

  /** How far back the funnel looks for duplicates. */
  datatype Memory = LastOnly | Everything

  function Last(ids: seq<string>, n: nat): seq<string> {
    if |ids| <= n then ids else ids[|ids| - n..]
  }

  predicate Seen(accepted: seq<string>, id: string, memory: Memory) {
    id != "" && id in (if memory.LastOnly? then Last(accepted, RING) else accepted)
  }

  function Accept(accepted: seq<string>, id: string): seq<string> {
    if id == "" then accepted else accepted + [id]
  }

  function IdOf(d: Delivery): string { if d.id == "" then d.newId else d.id }

  /** _broadcast of one message that is not fed to the job state. */
  function Send(f: Funnel, m: Message, memory: Memory): Funnel {
    if Seen(f.accepted, m.id, memory) then f
    else f.(sends := f.sends + [m], accepted := Accept(f.accepted, m.id))
  }

  /** _broadcast: clients first, then the state machine, whose save broadcasts a snapshot. */
  function Process(f: Funnel, d: Delivery, memory: Memory): (g: Funnel)
    requires ValidJob(f.tracker.job)
    ensures ValidJob(g.tracker.job)
  {
    if Seen(f.accepted, IdOf(d), memory) then f
    else
      var sent := Send(f, Raw(IdOf(d), d.event), memory).(tracker := Handle(f.tracker, d.event));
      if Saves(f.tracker, d.event) then Send(sent, Snapshot(d.snapshotId, sent.tracker.job), memory) else sent
  }

  function ProcessAll(f: Funnel, ds: seq<Delivery>, memory: Memory): (g: Funnel)
    requires ValidJob(f.tracker.job)
    ensures ValidJob(g.tracker.job)
  {
    if ds == [] then f
    else Process(ProcessAll(f, ds[..|ds| - 1], memory), ds[|ds| - 1], memory)
  }

  // ---- Refinement ----

  /** The id is new or still among the last 1024 accepted. */
  predicate TimelyId(accepted: seq<string>, id: string) {
    id != "" && id in accepted ==> id in Last(accepted, RING)
  }

  /** The delivery, and the snapshot it triggers, are new or redelivered in time. */
  predicate Timely(f: Funnel, d: Delivery)
    requires ValidJob(f.tracker.job)
  {
    && TimelyId(f.accepted, IdOf(d))
    && ((!Seen(f.accepted, IdOf(d), Everything) && Saves(f.tracker, d.event))
        ==> TimelyId(Accept(f.accepted, IdOf(d)), d.snapshotId))
  }

  lemma LastIsPart(ids: seq<string>, id: string)
    ensures id in Last(ids, RING) ==> id in ids
  {
  }

  /** On one delivery the bounded ring does what unbounded memory does exactly if it is timely. */
  lemma TimelyStep(f: Funnel, d: Delivery)
    requires ValidJob(f.tracker.job)
    ensures Process(f, d, LastOnly) == Process(f, d, Everything) <==> Timely(f, d)
  {
    var id := IdOf(d);
    LastIsPart(f.accepted, id);
    LastIsPart(Accept(f.accepted, id), d.snapshotId);
    if !TimelyId(f.accepted, id) {
      assert |Process(f, d, LastOnly).sends| > |f.sends| && Process(f, d, Everything) == f;
    } else if !Timely(f, d) {
      assert |Process(f, d, LastOnly).sends| == |f.sends| + 2 && |Process(f, d, Everything).sends| == |f.sends| + 1;
    }
  }

  /** Every delivery of the run is timely, judged by exactly-once processing. */
  ghost predicate TimelyRun(f: Funnel, ds: seq<Delivery>)
    requires ValidJob(f.tracker.job)
  {
    forall k :: 0 <= k < |ds| ==> Timely(ProcessAll(f, ds[..k], Everything), ds[k])
  }

  ghost predicate AgreeUpTo(f: Funnel, ds: seq<Delivery>, n: nat)
    requires ValidJob(f.tracker.job)
  {
    forall k :: 0 <= k <= n && k <= |ds| ==> ProcessAll(f, ds[..k], LastOnly) == ProcessAll(f, ds[..k], Everything)
  }

  lemma {:induction false} TimelyAgrees(f: Funnel, ds: seq<Delivery>)
    requires ValidJob(f.tracker.job) && TimelyRun(f, ds)
    ensures ProcessAll(f, ds, LastOnly) == ProcessAll(f, ds, Everything)
  {
    if ds != [] {
      var init := ds[..|ds| - 1];
      forall k | 0 <= k < |init| ensures Timely(ProcessAll(f, init[..k], Everything), init[k]) {
        assert init[..k] == ds[..k];
      }
      TimelyAgrees(f, init);
      assert Timely(ProcessAll(f, init, Everything), ds[|ds| - 1]);
      TimelyStep(ProcessAll(f, init, Everything), ds[|ds| - 1]);
    }
  }

  lemma TimelyAgreesThroughout(f: Funnel, ds: seq<Delivery>)
    requires ValidJob(f.tracker.job) && TimelyRun(f, ds)
    ensures AgreeUpTo(f, ds, |ds|)
  {
    forall k | 0 <= k <= |ds|
      ensures ProcessAll(f, ds[..k], LastOnly) == ProcessAll(f, ds[..k], Everything)
    {
      assert forall j :: 0 <= j < k ==> ds[..k][..j] == ds[..j];
      TimelyAgrees(f, ds[..k]);
    }
  }

  lemma AgreementIsTimely(f: Funnel, ds: seq<Delivery>)
    requires ValidJob(f.tracker.job) && AgreeUpTo(f, ds, |ds|)
    ensures TimelyRun(f, ds)
  {
    forall k | 0 <= k < |ds| ensures Timely(ProcessAll(f, ds[..k], Everything), ds[k]) {
      assert ds[..k + 1][..k] == ds[..k];
      TimelyStep(ProcessAll(f, ds[..k], Everything), ds[k]);
    }
  }

  /** Job state and client sends are those of exactly-once processing after every delivery if
      and only if every redelivery comes while its id is among the last 1024 accepted. */
  lemma RingIsExactlyOnceIffTimely(f: Funnel, ds: seq<Delivery>)
    requires ValidJob(f.tracker.job)
    ensures AgreeUpTo(f, ds, |ds|) <==> TimelyRun(f, ds)
  {
    if TimelyRun(f, ds) {
      TimelyAgreesThroughout(f, ds);
    }
    if AgreeUpTo(f, ds, |ds|) {
      AgreementIsTimely(f, ds);
    }
  }

  /** The events of first deliveries, by exactly-once processing. */
  function FirstEvents(f: Funnel, ds: seq<Delivery>): seq<Event>
    requires ValidJob(f.tracker.job)
  {
    if ds == [] then []
    else
      var init, d := ds[..|ds| - 1], ds[|ds| - 1];
      FirstEvents(f, init)
        + (var id := if d.id == "" then d.newId else d.id;
           if id != "" && id in ProcessAll(f, init, Everything).accepted then [] else [d.event])
  }

  /** Under timely redelivery the job state is that of handling each first delivery once. */
  lemma {:induction false} DuplicatesAreHarmless(f: Funnel, ds: seq<Delivery>)
    requires ValidJob(f.tracker.job) && TimelyRun(f, ds)
    ensures ProcessAll(f, ds, LastOnly).tracker == HandleAll(f.tracker, FirstEvents(f, ds))
  {
    TimelyAgrees(f, ds);
    ExactlyOnce(f, ds);
  }

  lemma {:induction false} ExactlyOnce(f: Funnel, ds: seq<Delivery>)
    requires ValidJob(f.tracker.job)
    ensures ProcessAll(f, ds, Everything).tracker == HandleAll(f.tracker, FirstEvents(f, ds))
  {
    if ds != [] {
      var init, d := ds[..|ds| - 1], ds[|ds| - 1];
      ExactlyOnce(f, init);
      HandleLast(f.tracker, FirstEvents(f, init), d.event);
      assert FirstEvents(f, init) + [] == FirstEvents(f, init);
    }
  }

  // ---- What an id decides ----

  /** The id is among the last 1024 accepted. */
  ghost predicate Recent(accepted: seq<string>, id: string) {
    exists k :: 0 <= k < |accepted| && k >= |accepted| - 1024 && accepted[k] == id
  }

  /** A delivery whose own id was accepted recently changes nothing at all. */
  lemma RecentIdIsDropped(f: Funnel, d: Delivery, memory: Memory)
    requires ValidJob(f.tracker.job) && d.id != "" && Recent(f.accepted, d.id)
    ensures Process(f, d, memory) == f
  {
    var k :| 0 <= k < |f.accepted| && k >= |f.accepted| - 1024 && f.accepted[k] == d.id;
    if |f.accepted| > RING {
      assert Last(f.accepted, RING)[k - (|f.accepted| - RING)] == d.id;
    }
  }

  /** One whose own id is new goes out under that id, before the snapshot it triggers, and is handled
      once; its id is remembered, and the snapshot's after it. */
  lemma NewIdIsDelivered(f: Funnel, d: Delivery, memory: Memory)
    requires ValidJob(f.tracker.job) && d.id != "" && d.id !in f.accepted
    requires d.snapshotId != "" && d.snapshotId !in f.accepted && d.snapshotId != d.id
    ensures var g := Process(f, d, memory);
            && g.tracker == Handle(f.tracker, d.event)
            && g.sends == f.sends + [Raw(d.id, d.event)]
                          + (if Saves(f.tracker, d.event) then [Snapshot(d.snapshotId, g.tracker.job)] else [])
            && g.accepted == f.accepted + [d.id] + (if Saves(f.tracker, d.event) then [d.snapshotId] else [])
  {
    LastIsPart(f.accepted, d.id);
    LastIsPart(f.accepted + [d.id], d.snapshotId);
  }

  /** Only a delivery without an id of its own uses the one made for it. */
  lemma OwnIdDecides(f: Funnel, d: Delivery, other: string, memory: Memory)
    requires ValidJob(f.tracker.job)
    ensures d.id != "" ==> Process(f, d.(newId := other), memory) == Process(f, d, memory)
    ensures d.id == "" ==> Process(f, d, memory) == Process(f, d.(id := d.newId), memory)
  {
  }

  /** Ids are only ever added. */
  lemma {:induction false} AcceptedGrows(f: Funnel, ds: seq<Delivery>, memory: Memory)
    requires ValidJob(f.tracker.job)
    ensures f.accepted <= ProcessAll(f, ds, memory).accepted
  {
    if ds != [] {
      AcceptedGrows(f, ds[..|ds| - 1], memory);
      StepGrows(ProcessAll(f, ds[..|ds| - 1], memory), ds[|ds| - 1], memory);
    }
  }

  lemma StepGrows(f: Funnel, d: Delivery, memory: Memory)
    requires ValidJob(f.tracker.job)
    ensures f.accepted <= Process(f, d, memory).accepted
  {
  }

  lemma FirstIsRemembered(f: Funnel, d: Delivery, memory: Memory)
    requires ValidJob(f.tracker.job) && d.id != "" && d.id !in f.accepted
    ensures f.accepted + [d.id] <= Process(f, d, memory).accepted
  {
    LastIsPart(f.accepted, d.id);
  }

  /** The echo of a delivery, whatever came in between, is dropped as long as fewer than 1024 other
      ids were accepted meanwhile, snapshots included. */
  lemma EchoIsDropped(f: Funnel, d: Delivery, ds: seq<Delivery>, echo: Delivery)
    requires ValidJob(f.tracker.job) && d.id != "" && d.id !in f.accepted && echo.id == d.id
    ensures var g := ProcessAll(Process(f, d, LastOnly), ds, LastOnly);
            |g.accepted| - (|f.accepted| + 1) < 1024 ==> Process(g, echo, LastOnly) == g
  {
    var g := ProcessAll(Process(f, d, LastOnly), ds, LastOnly);
    FirstIsRemembered(f, d, LastOnly);
    AcceptedGrows(Process(f, d, LastOnly), ds, LastOnly);
    assert g.accepted[|f.accepted|] == d.id;
    if |g.accepted| - (|f.accepted| + 1) < 1024 {
      RecentIdIsDropped(g, echo, LastOnly);
    }
  }

  // ---- The ring in place ----

  ghost predicate Distinct(ids: seq<string>) {
    forall i, j :: 0 <= i < j < |ids| ==> ids[i] != ids[j]
  }

  function Elements(ids: seq<string>): set<string> { set id | id in ids }

  lemma {:induction false} DistinctSize(ids: seq<string>)
    requires Distinct(ids)
    ensures |Elements(ids)| == |ids|
  {
    if ids != [] {
      var init, last := ids[..|ids| - 1], ids[|ids| - 1];
      DistinctSize(init);
      assert Elements(ids) == Elements(init) + {last};
      assert last !in Elements(init);
    }
  }

  lemma DropOldest(ids: seq<string>)
    requires ids != [] && Distinct(ids)
    ensures Distinct(ids[1..]) && Elements(ids) - {ids[0]} == Elements(ids[1..])
  {
    assert forall id :: id in ids[1..] ==> id in ids;
  }

  /** Dropping the oldest of a full ring leaves room for one; a ring with room is kept. */
  lemma RingShift(accepted: seq<string>)
    ensures var ring := Last(accepted, RING);
            Last(accepted, RING - 1) == if |ring| >= RING then ring[1..] else ring
  {
  }

  lemma RingAppend(accepted: seq<string>, id: string)
    ensures Last(accepted + [id], RING) == Last(accepted, RING - 1) + [id]
    ensures forall x :: x in Last(accepted, RING - 1) ==> x in Last(accepted, RING)
  {
  }

  class ArmorWsManager {
    var seen: set<string>
    var recent: seq<string>
    var sends: seq<Message>
    const jobs: JobState
    ghost var accepted: seq<string>

    /** Ring and set hold the same distinct ids. */
    ghost predicate Mirrored()
      reads this
    {
      Distinct(recent) && seen == Elements(recent) && |seen| == |recent| && "" !in recent
    }

    /** And those are the last 1024 accepted. */
    ghost predicate Valid()
      reads this, jobs
    {
      && jobs.Valid()
      && Mirrored() && recent == Last(accepted, RING)
    }

    ghost function View(): Funnel
      reads this, jobs
    {
      Funnel(jobs.View(), sends, accepted)
    }

    constructor (jobs: JobState)
      requires jobs.Valid()
      ensures Valid() && View() == Funnel(jobs.View(), [], []) && this.jobs == jobs
    {
      this.jobs := jobs;
      seen, recent, sends, accepted := {}, [], [], [];
    }

    /** _mark_seen. */
    method MarkSeen(id: string) returns (first: bool)
      requires Valid()
      modifies this`seen, this`recent, this`accepted
      ensures Valid() && |recent| <= RING
      ensures first == !Seen(old(accepted), id, LastOnly)
      ensures accepted == if first then Accept(old(accepted), id) else old(accepted)
    {
      if id == "" {
        return true;
      }
      if id in seen {
        return false;
      }
      MakeRoom();
      RingAppend(accepted, id);
      Append(id);
      accepted := accepted + [id];
      return true;
    }

    method Append(id: string)
      requires Mirrored() && id !in recent && id != ""
      modifies this`seen, this`recent
      ensures Mirrored() && recent == old(recent) + [id]
    {
      seen := seen + {id};
      recent := recent + [id];
      assert seen == Elements(recent);
      DistinctSize(recent);
    }

    /** The eviction loop of _mark_seen: oldest ids leave both structures together. */
    method MakeRoom()
      requires Mirrored() && recent == Last(accepted, RING)
      modifies this`seen, this`recent
      ensures Mirrored() && recent == Last(accepted, RING - 1)
    {
      RingShift(accepted);
      while |recent| >= RING || |seen| >= RING
        invariant Mirrored()
        invariant recent == old(recent) || (|old(recent)| >= RING && recent == old(recent)[1..])
        decreases |recent|
      {
        if recent == [] {
          break;
        }
        EvictOldest();
      }
    }

    method EvictOldest()
      requires Mirrored() && recent != []
      modifies this`seen, this`recent
      ensures Mirrored() && recent == old(recent)[1..]
    {
      DropOldest(recent);
      seen := seen - {recent[0]};
      recent := recent[1..];
      DistinctSize(recent);
    }

    /** _broadcast. */
    method Broadcast(d: Delivery)
      requires Valid()
      modifies this`seen, this`recent, this`sends, this`accepted, jobs
      ensures Valid() && View() == Process(old(View()), d, LastOnly)
    {
      var id := if d.id == "" then d.newId else d.id;
      var first := MarkSeen(id);
      if !first {
        return;
      }
      sends := sends + [Raw(id, d.event)];
      if d.event.Derived? {
        return;
      }
      var saved := jobs.HandleEvent(d.event);
      if saved {
        BroadcastSnapshot(d.snapshotId);
      }
    }

    method BroadcastSnapshot(id: string)
      requires Valid()
      modifies this`seen, this`recent, this`sends, this`accepted
      ensures Valid() && View() == Send(old(View()), Snapshot(id, jobs.job), LastOnly)
    {
      var first := MarkSeen(id);
      if first {
        sends := sends + [Snapshot(id, jobs.job)];
      }
    }
  }
}
