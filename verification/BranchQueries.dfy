/** The read side of research branches: which events and streams a branch contributes to a merge. */
module BranchQueries {
  import opened Base
  import opened EventLog

  datatype BranchStatus = Active | Merged | Archived

  datatype Branch = Branch(id: Uuid, name: string, description: string, base: nat, status: BranchStatus, mergeNote: string)

  /** The two sides a merge resolution can name. */
  const BRANCH := "branch"
  const MAIN := "main"

  /** The cap on how many events any one side of a comparison reads. */
  const MAX_COMPARISON_EVENTS: nat := 1000

  function NotLifecycle(): StoredEvent -> bool
  {
    (e: StoredEvent) => !IsLifecycle(e.event)
  }

  /** Drops the events that describe a branch rather than the data on it. */
  method WithoutLifecycle(events: Log) returns (filtered: Log)
    ensures filtered == Filter(NotLifecycle(), events)
  {
    filtered := [];
    for i := 0 to |events|
      invariant filtered == Filter(NotLifecycle(), events[..i])
    {
      assert events[..i + 1][..i] == events[..i];
      if IsLifecycle(events[i].event) {
        continue;
      }
      filtered := filtered + [events[i]];
    }
    assert events[..|events|] == events;
  }

  /** The distinct streams of `events`, in the order they are first touched. */
  function StreamIds(events: Log): seq<Uuid>
  {
    if events == [] then []
    else
      var last := events[|events| - 1];
      var ids := StreamIds(events[..|events| - 1]);
      if last.stream in ids then ids else ids + [last.stream]
  }

  lemma {:induction false} StreamIdsMembers(events: Log)
    ensures forall s :: s in StreamIds(events) <==> exists e :: e in events && e.stream == s
  {
    if events != [] {
      var shorter, last := events[..|events| - 1], events[|events| - 1];
      StreamIdsMembers(shorter);
      assert events == shorter + [last];
      forall s ensures s in StreamIds(events) <==> exists e :: e in events && e.stream == s {
        if s == last.stream {
          assert last in events;
        }
      }
    }
  }

  lemma {:induction false} StreamIdsDistinct(events: Log)
    ensures Distinct(StreamIds(events))
  {
    if events != [] {
      StreamIdsDistinct(events[..|events| - 1]);
    }
  }

  /** First-touch order: a stream stands before another exactly when its first event does. */
  lemma {:induction false} StreamIdsOrder(events: Log, i: nat, j: nat)
    requires i < j < |events| && events[j].stream !in StreamIds(events[..j]) && events[i].stream in StreamIds(events)
    ensures exists a, b :: (
      0 <= a < b < |StreamIds(events)| && StreamIds(events)[a] == events[i].stream && StreamIds(events)[b] == events[j].stream)
    decreases |events|
  {
    var m := |events| - 1;
    if j == m {
      var ids := StreamIds(events[..m]);
      assert events[i] in events[..m];
      StreamIdsMembers(events[..m]);
      var a :| 0 <= a < |ids| && ids[a] == events[i].stream;
      assert StreamIds(events) == ids + [events[j].stream];
      assert StreamIds(events)[|ids|] == events[j].stream && StreamIds(events)[a] == events[i].stream;
    } else {
      assert events[..m][..j] == events[..j];
      assert events[..m][i] in events[..m];
      StreamIdsMembers(events[..m]);
      StreamIdsOrder(events[..m], i, j);
      var ids := StreamIds(events[..m]);
      var a, b :| 0 <= a < b < |ids| && ids[a] == events[i].stream && ids[b] == events[j].stream;
      assert StreamIds(events)[a] == events[i].stream && StreamIds(events)[b] == events[j].stream;
    }
  }

  method BranchStreamIds(events: Log) returns (ids: seq<Uuid>)
    ensures ids == StreamIds(events)
  {
    var seen: set<Uuid> := {};
    ids := [];
    for i := 0 to |events|
      invariant ids == StreamIds(events[..i])
      invariant forall s :: s in seen <==> s in ids
    {
      assert events[..i + 1][..i] == events[..i];
      if events[i].stream in seen {
        continue;
      }
      seen := seen + {events[i].stream};
      ids := ids + [events[i].stream];
    }
    assert events[..|events|] == events;
  }

  function InStreams(streams: set<Uuid>): Uuid -> bool
  {
    (s: Uuid) => s in streams
  }

  /** The streams both sides moved, in the branch's first-touch order. */
  method OverlappingStreamIds(branchEvents: Log, mainEvents: Log) returns (overlapping: seq<Uuid>)
    ensures overlapping == Filter(InStreams(SetOf(StreamIds(mainEvents))), StreamIds(branchEvents))
  {
    var mainStreams: set<Uuid> := {};
    for i := 0 to |mainEvents|
      invariant forall s :: s in mainStreams <==> s in StreamIds(mainEvents[..i])
    {
      assert mainEvents[..i + 1][..i] == mainEvents[..i];
      mainStreams := mainStreams + {mainEvents[i].stream};
    }
    assert mainEvents[..|mainEvents|] == mainEvents;
    assert mainStreams == SetOf(StreamIds(mainEvents));
    var ids := BranchStreamIds(branchEvents);
    overlapping := [];
    for i := 0 to |ids|
      invariant overlapping == Filter(InStreams(mainStreams), ids[..i])
    {
      assert ids[..i + 1][..i] == ids[..i];
      if ids[i] in mainStreams {
        overlapping := overlapping + [ids[i]];
      }
    }
    assert ids[..|ids|] == ids;
  }

  /** What the branch-side read of a comparison returns over a given log. */
  function BranchSide(log: Log, b: Branch): Log
  {
    Filter(NotLifecycle(), Capped(Filter(After(b.id, b.base), log), MAX_COMPARISON_EVENTS))
  }

  function BranchTruncated(log: Log, b: Branch): bool
  {
    |Capped(Filter(After(b.id, b.base), log), MAX_COMPARISON_EVENTS)| >= MAX_COMPARISON_EVENTS
  }

  /** What the main-side read returns: main's events after the fork on the branch's streams. */
  function MainSide(log: Log, ids: seq<Uuid>, base: nat): Log
  {
    Filter(NotLifecycle(), RawMainSide(log, ids, base))
  }

  function RawMainSide(log: Log, ids: seq<Uuid>, base: nat): Log
  {
    if |ids| == 0 then []
    else Capped(Filter(AfterOn(NIL, base, SetOf(ids)), log), MAX_COMPARISON_EVENTS)
  }

  function MainTruncated(log: Log, ids: seq<Uuid>, base: nat): bool
  {
    |RawMainSide(log, ids, base)| >= MAX_COMPARISON_EVENTS
  }

  /** A side counts as cut exactly when there are a thousand events to read on it. */
  lemma CutIff(log: Log, b: Branch, ids: seq<Uuid>, base: nat)
    ensures BranchTruncated(log, b) <==> |Filter(After(b.id, b.base), log)| >= 1000
    ensures MainTruncated(log, ids, base) <==> ids != [] && |Filter(AfterOn(NIL, base, SetOf(ids)), log)| >= 1000
  {
  }

  /** The log holds the event that opened the branch, with the name, description and fork the row shows. */
  predicate OpenedAs(log: Log, b: Branch)
  {
    exists i :: 0 <= i < |log| && IsFork(log[i]) && log[i].branch == b.id
      && log[i].event == BranchCreated(b.base, b.name, b.description)
  }

  lemma OpenedLater(before: Log, after: Log, b: Branch)
    requires OpenedAs(before, b) && before <= after
    ensures OpenedAs(after, b)
  {
    var i :| 0 <= i < |before| && IsFork(before[i]) && before[i].branch == b.id
      && before[i].event == BranchCreated(b.base, b.name, b.description);
    assert after[i] == before[i];
  }

  /** A branch that was opened has a version. */
  lemma OpenedHasVersion(log: Log, b: Branch)
    requires ValidLog(log) && OpenedAs(log, b)
    ensures StreamVersion(log, b.id, b.id) > 0
  {
    var i :| 0 <= i < |log| && IsFork(log[i]) && log[i].branch == b.id
      && log[i].event == BranchCreated(b.base, b.name, b.description);
    StreamVersionIsMax(log, b.id, b.id, i);
  }

  function DataEventOf(branch: Uuid): StoredEvent -> bool
  {
    (e: StoredEvent) => e.branch == branch && !IsLifecycle(e.event)
  }

  /**
   * The branch side loses nothing: when every event of the branch lies after its fork, an
   * untruncated read returns exactly the branch's own data events, in log order.
   */
  lemma BranchSideComplete(log: Log, b: Branch)
    requires forall e :: e in log && e.branch == b.id ==> e.position > b.base
    requires !BranchTruncated(log, b)
    ensures BranchSide(log, b) == Filter(DataEventOf(b.id), log)
  {
    FilterTwice(NotLifecycle(), After(b.id, b.base), DataEventOf(b.id), log) by {
      FilterAgreeOnLog(log, b);
    }
  }

  /** What a branch-side read saw of an opened branch is all there was. */
  lemma ForkedSideComplete(log: Log, b: Branch)
    requires Forked(log) && OpenedAs(log, b) && !BranchTruncated(log, b)
    ensures BranchSide(log, b) == Filter(DataEventOf(b.id), log)
  {
    var i :| 0 <= i < |log| && IsFork(log[i]) && log[i].branch == b.id
      && log[i].event == BranchCreated(b.base, b.name, b.description);
    forall e | e in log && e.branch == b.id ensures e.position > b.base {
      var j :| 0 <= j < |log| && log[j] == e;
    }
    BranchSideComplete(log, b);
  }

  lemma FilterAgreeOnLog(log: Log, b: Branch)
    requires forall e :: e in log && e.branch == b.id ==> e.position > b.base
    ensures forall e :: e in log ==> DataEventOf(b.id)(e) == (NotLifecycle()(e) && After(b.id, b.base)(e))
  {
  }

  /**
   * The main side of an untruncated comparison, restricted to one of the branch's streams, is all
   * that main did to that stream after the fork.
   */
  lemma MainSideComplete(log: Log, ids: seq<Uuid>, base: nat, stream: Uuid)
    requires stream in ids && !MainTruncated(log, ids, base)
    ensures Filter(OfStream(stream), MainSide(log, ids, base)) == PostForkOnMain(log, stream, base)
  {
    var keep := AfterOn(NIL, base, SetOf(ids));
    var dataKept := (e: StoredEvent) => keep(e) && NotLifecycle()(e);
    FilterTwice(NotLifecycle(), keep, dataKept, log);
    FilterTwice(OfStream(stream), dataKept, PostFork(stream, base), log);
  }

  function PostFork(stream: Uuid, base: nat): StoredEvent -> bool
  {
    (e: StoredEvent) => e.stream == stream && e.branch == NIL && e.position > base && !IsLifecycle(e.event)
  }

  /** Main's own data events on a stream after a fork position. */
  function PostForkOnMain(log: Log, stream: Uuid, base: nat): Log
  {
    Filter(PostFork(stream, base), log)
  }

  /** Post-fork events are part of the history, so they are determined by it. */
  lemma PostForkFromHistory(log: Log, stream: Uuid, base: nat)
    ensures PostForkOnMain(log, stream, base)
         == Filter(PostFork(stream, base), History(log, stream, NIL))
  {
    FilterTwice(PostFork(stream, base), On(stream, NIL), PostFork(stream, base), log);
  }
}
