/**
 * Grouping a branch's replay set by stream, and why replaying it group by group is as good as
 * replaying it in its original order.
 */
module Replay {
  import opened Base
  import opened EventLog
  import opened BranchQueries

  datatype StreamGroup = StreamGroup(stream: Uuid, events: Log)

  function GroupFor(events: Log, stream: Uuid): StreamGroup
  {
    StreamGroup(stream, Filter(OfStream(stream), events))
  }

  /** The groups of an event sequence: one per stream in first-touch order, each holding the stream's events in order. */
  function GroupsOf(events: Log): (groups: seq<StreamGroup>)
    ensures |groups| == |StreamIds(events)|
    ensures forall i :: 0 <= i < |groups| ==> groups[i] == GroupFor(events, StreamIds(events)[i])
  {
    var ids := StreamIds(events);
    seq(|ids|, i requires 0 <= i < |ids| => GroupFor(events, ids[i]))
  }

  function Flatten(groups: seq<StreamGroup>): Log
  {
    if groups == [] then [] else Flatten(groups[..|groups| - 1]) + groups[|groups| - 1].events
  }

  lemma {:induction false} FlattenConcat(a: seq<StreamGroup>, b: seq<StreamGroup>)
    ensures Flatten(a + b) == Flatten(a) + Flatten(b)
  {
    if b == [] {
      assert a + b == a;
    } else {
      var n := |b| - 1;
      FlattenConcat(a, b[..n]);
      assert (a + b)[..|a + b| - 1] == a + b[..n] && (a + b)[|a + b| - 1] == b[n];
      Associates(Flatten(a), Flatten(b[..n]), b[n].events);
    }
  }

  lemma {:induction false} FlattenMembers(groups: seq<StreamGroup>, e: StoredEvent)
    ensures e in Flatten(groups) <==> exists i :: 0 <= i < |groups| && e in groups[i].events
  {
    if groups != [] {
      FlattenMembers(groups[..|groups| - 1], e);
    }
  }

  lemma FlattenOne(g: StreamGroup)
    ensures Flatten([g]) == g.events
  {
    assert [g][..0] == [];
  }

  function Grow(groups: seq<StreamGroup>, k: nat, e: StoredEvent): seq<StreamGroup>
    requires k < |groups|
  {
    groups[k := StreamGroup(e.stream, groups[k].events + [e])]
  }

  lemma GroupForStep(events: Log, e: StoredEvent)
    ensures forall s {:trigger GroupFor(events + [e], s)} ::
      GroupFor(events + [e], s)
        == if s == e.stream then StreamGroup(s, GroupFor(events, s).events + [e]) else GroupFor(events, s)
  {
    forall s
      ensures GroupFor(events + [e], s)
        == if s == e.stream then StreamGroup(s, GroupFor(events, s).events + [e]) else GroupFor(events, s)
    {
      FilterConcat(OfStream(s), events, [e]);
      FilterOne(OfStream(s), e);
    }
  }

  /** The next event of a known stream joins that stream's group. */
  lemma GroupsStepKnown(events: Log, e: StoredEvent, k: nat)
    requires k < |StreamIds(events)| && StreamIds(events)[k] == e.stream
    ensures GroupsOf(events + [e]) == Grow(GroupsOf(events), k, e)
  {
    StreamIdsStep(events, e);
    StreamIdsDistinct(events);
    GroupForStep(events, e);
    var ids, grown := StreamIds(events), GroupsOf(events + [e]);
    forall i | 0 <= i < |ids| ensures grown[i] == Grow(GroupsOf(events), k, e)[i] {
      assert grown[i] == GroupFor(events + [e], ids[i]);
    }
  }

  lemma NewGroup(events: Log, e: StoredEvent)
    requires e.stream !in StreamIds(events)
    ensures GroupFor(events + [e], e.stream) == StreamGroup(e.stream, [e])
  {
    GroupForStep(events, e);
    StreamIdsMembers(events);
    FilterNone(OfStream(e.stream), events);
  }

  /** The first event of a stream opens a new last group. */
  lemma GroupsStepNew(events: Log, e: StoredEvent)
    requires e.stream !in StreamIds(events)
    ensures GroupsOf(events + [e]) == GroupsOf(events) + [StreamGroup(e.stream, [e])]
  {
    hide GroupFor, StreamIds;
    StreamIdsStep(events, e);
    GroupForStep(events, e);
    NewGroup(events, e);
    var ids, groups, grown := StreamIds(events), GroupsOf(events), GroupsOf(events + [e]);
    forall i | 0 <= i < |ids| ensures grown[i] == groups[i] {
      assert ids[i] in ids;
      assert grown[i] == GroupFor(events + [e], ids[i]) == GroupFor(events, ids[i]);
    }
    assert grown[|ids|] == GroupFor(events + [e], e.stream);
  }

  /** Groups are never empty and name their streams once. */
  lemma GroupsShape(events: Log)
    ensures forall i :: 0 <= i < |GroupsOf(events)| ==> GroupsOf(events)[i].events != []
    ensures forall i, j :: 0 <= i < j < |GroupsOf(events)| ==> GroupsOf(events)[i].stream != GroupsOf(events)[j].stream
  {
    StreamIdsDistinct(events);
    StreamIdsMembers(events);
    var ids := StreamIds(events);
    forall i | 0 <= i < |ids| ensures GroupsOf(events)[i].events != [] {
      assert ids[i] in ids;
      var e :| e in events && e.stream == ids[i];
      FilterMembers(OfStream(ids[i]), events);
      assert e in Filter(OfStream(ids[i]), events);
    }
  }

  lemma LastGroup(groups: seq<StreamGroup>, e: StoredEvent)
    ensures (groups + [StreamGroup(e.stream, [])])[|groups| := StreamGroup(e.stream, [] + [e])]
         == groups + [StreamGroup(e.stream, [e])]
  {
    assert [] + [e] == [e];
  }

  lemma EmptyGroups()
    ensures StreamIds([]) == [] && GroupsOf([]) == []
  {
  }

  /**
   * Partitions the replay set by stream in one pass. The groups come in the order of
   * `BranchStreamIds`, each with its stream's events in their original order.
   */
  method GroupEventsByStream(events: Log) returns (groups: seq<StreamGroup>)
    ensures groups == GroupsOf(events)
  {
    EmptyGroups();
    hide StreamIds, GroupFor;
    var index: map<Uuid, nat> := map[];
    groups := [];
    for i := 0 to |events|
      invariant groups == GroupsOf(events[..i])
      invariant forall s :: s in index <==> s in StreamIds(events[..i])
      invariant forall s :: s in index ==> index[s] < |groups| && groups[index[s]].stream == s
    {
      var e := events[i];
      ghost var before := events[..i];
      assert events[..i + 1] == before + [e];
      StreamsInIds(before);
      GroupsShape(before);
      var at;
      if e.stream in index {
        at := index[e.stream];
        GroupsStepKnown(before, e, at);
      } else {
        GroupsStepNew(before, e);
        LastGroup(groups, e);
        index := index[e.stream := |groups|];
        groups := groups + [StreamGroup(e.stream, [])];
        at := |groups| - 1;
      }
      groups := groups[at := StreamGroup(e.stream, groups[at].events + [e])];
      StreamIdsStep(before, e);
    }
    assert events[..|events|] == events;
  }

  lemma StreamsInIds(events: Log)
    ensures forall i :: 0 <= i < |GroupsOf(events)| ==> GroupsOf(events)[i].stream == StreamIds(events)[i]
  {
  }

  lemma StreamIdsStep(events: Log, e: StoredEvent)
    ensures StreamIds(events + [e]) == if e.stream in StreamIds(events) then StreamIds(events) else StreamIds(events) + [e.stream]
  {
    assert (events + [e])[..|events|] == events;
  }

  // --- Order of replay ---

  function Fold<S>(step: (S, StoredEvent) -> S, s: S, events: Log): S
  {
    if events == [] then s else step(Fold(step, s, events[..|events| - 1]), events[|events| - 1])
  }

  lemma {:induction false} FoldConcat<S>(step: (S, StoredEvent) -> S, s: S, a: Log, b: Log)
    ensures Fold(step, s, a + b) == Fold(step, Fold(step, s, a), b)
  {
    if b == [] {
      assert a + b == a;
    } else {
      FoldConcat(step, s, a, b[..|b| - 1]);
      assert (a + b)[..|a + b| - 1] == a + b[..|b| - 1];
    }
  }

  /** Projecting events of different streams in either order ends in the same state. */
  ghost predicate StreamsCommute<S(!new)>(step: (S, StoredEvent) -> S)
  {
    forall s: S, a: StoredEvent, b: StoredEvent ::
      a.stream != b.stream ==> step(step(s, a), b) == step(step(s, b), a)
  }

  lemma {:induction false} MovePast<S(!new)>(step: (S, StoredEvent) -> S, s: S, e: StoredEvent, others: Log)
    requires StreamsCommute(step)
    requires forall o :: o in others ==> o.stream != e.stream
    ensures Fold(step, step(s, e), others) == step(Fold(step, s, others), e)
  {
    if others != [] {
      var shorter, last := others[..|others| - 1], others[|others| - 1];
      MovePast(step, s, e, shorter);
      assert last in others;
      assert step(step(Fold(step, s, shorter), e), last) == step(step(Fold(step, s, shorter), last), e);
    }
  }

  /** Splitting a grouped replay around one group. */
  lemma {:induction false} FlattenSplit(groups: seq<StreamGroup>, k: nat)
    requires k < |groups|
    ensures Flatten(groups) == Flatten(groups[..k]) + groups[k].events + Flatten(groups[k + 1..])
  {
    SplitAt(groups, k);
    FlattenAround(groups[..k], groups[k], groups[k + 1..]);
  }

  lemma FlattenAround(before: seq<StreamGroup>, g: StreamGroup, after: seq<StreamGroup>)
    ensures Flatten(before + [g] + after) == Flatten(before) + g.events + Flatten(after)
  {
    hide Flatten;
    FlattenConcat(before + [g], after);
    FlattenConcat(before, [g]);
    FlattenOne(g);
  }

  /** Growing a group inserts its event between that group and the later ones. */
  lemma {:induction false} FlattenGrow(groups: seq<StreamGroup>, k: nat, e: StoredEvent)
    requires k < |groups|
    ensures Flatten(groups) == Flatten(groups[..k]) + groups[k].events + Flatten(groups[k + 1..])
    ensures Flatten(Grow(groups, k, e)) == Flatten(groups[..k]) + groups[k].events + [e] + Flatten(groups[k + 1..])
  {
    FlattenSplit(groups, k);
    FlattenSplit(Grow(groups, k, e), k);
    GrowSlices(groups, k, e);
    Reassociate(Flatten(groups[..k]), groups[k].events, [e], Flatten(groups[k + 1..]));
  }

  lemma GrowSlices(groups: seq<StreamGroup>, k: nat, e: StoredEvent)
    requires k < |groups|
    ensures Grow(groups, k, e)[..k] == groups[..k] && Grow(groups, k, e)[k + 1..] == groups[k + 1..]
  {
  }

  lemma Reassociate<T>(a: seq<T>, b: seq<T>, c: seq<T>, d: seq<T>)
    ensures a + (b + c) + d == a + b + c + d
  {
    assert a + (b + c) == a + b + c;
  }

  lemma OtherGroupsOtherStreams(events: Log, k: nat)
    requires k < |GroupsOf(events)|
    ensures forall o :: o in Flatten(GroupsOf(events)[k + 1..]) ==> o.stream != GroupsOf(events)[k].stream
  {
    var groups := GroupsOf(events);
    StreamIdsDistinct(events);
    forall o | o in Flatten(groups[k + 1..]) ensures o.stream != groups[k].stream {
      FlattenMembers(groups[k + 1..], o);
      var i :| 0 <= i < |groups[k + 1..]| && o in groups[k + 1..][i].events;
      FilterMembers(OfStream(StreamIds(events)[k + 1 + i]), events);
    }
  }

  /**
   * Replaying one stream after another gives the same state as replaying the events in position
   * order, for every projection under which events of different streams commute.
   */
  lemma {:induction false} GroupedReplaySameState<S(!new)>(step: (S, StoredEvent) -> S, s: S, events: Log)
    requires StreamsCommute(step)
    ensures Fold(step, s, Flatten(GroupsOf(events))) == Fold(step, s, events)
  {
    if events != [] {
      var before, e := events[..|events| - 1], events[|events| - 1];
      assert events == before + [e];
      GroupedReplaySameState(step, s, before);
      var ids, groups := StreamIds(before), GroupsOf(before);
      if e.stream in ids {
        var k :| 0 <= k < |ids| && ids[k] == e.stream;
        GroupsStepKnown(before, e, k);
        FlattenGrow(groups, k, e);
        OtherGroupsOtherStreams(before, k);
        InsertIsLast(step, s, Flatten(groups[..k]) + groups[k].events, e, Flatten(groups[k + 1..]));
      } else {
        GroupsStepNew(before, e);
        FlattenConcat(groups, [StreamGroup(e.stream, [e])]);
        FlattenOne(StreamGroup(e.stream, [e]));
        FoldConcat(step, s, Flatten(groups), [e]);
        assert [e][..0] == [];
      }
    }
  }

  /** An event inserted before events of other streams might as well come last. */
  lemma InsertIsLast<S(!new)>(step: (S, StoredEvent) -> S, s: S, head: Log, e: StoredEvent, tail: Log)
    requires StreamsCommute(step)
    requires forall o :: o in tail ==> o.stream != e.stream
    ensures Fold(step, s, head + [e] + tail) == step(Fold(step, s, head + tail), e)
  {
    FoldConcat(step, s, head, tail);
    FoldConcat(step, s, head + [e], tail);
    assert (head + [e])[..|head|] == head;
    MovePast(step, Fold(step, s, head), e, tail);
  }

  lemma InsertedOnce(head: Log, e: StoredEvent, tail: Log)
    ensures multiset(head + [e] + tail) == multiset(head + tail) + multiset{e}
  {
  }

  /** Grouping loses nothing and repeats nothing. */
  lemma {:induction false} GroupingConserves(events: Log)
    ensures multiset(Flatten(GroupsOf(events))) == multiset(events)
  {
    if events != [] {
      var before, e := events[..|events| - 1], events[|events| - 1];
      assert before + [e] == events;
      GroupingConserves(before);
      GroupingConservesStep(before, e);
      assert multiset(before + [e]) == multiset(before) + multiset{e};
    }
  }

  lemma GroupingConservesStep(before: Log, e: StoredEvent)
    ensures multiset(Flatten(GroupsOf(before + [e]))) == multiset(Flatten(GroupsOf(before))) + multiset{e}
  {
    var ids, groups := StreamIds(before), GroupsOf(before);
    if e.stream in ids {
      var k :| 0 <= k < |ids| && ids[k] == e.stream;
      GroupsStepKnown(before, e, k);
      FlattenGrow(groups, k, e);
      InsertedOnce(Flatten(groups[..k]) + groups[k].events, e, Flatten(groups[k + 1..]));
    } else {
      GroupsStepNew(before, e);
      FlattenConcat(groups, [StreamGroup(e.stream, [e])]);
      FlattenOne(StreamGroup(e.stream, [e]));
    }
  }

  // --- The groups that are replayed ---

  type Resolutions = map<Uuid, string>

  /** Resolving to "main" is the only way to keep a stream out of the replay. */
  predicate KeepsMain(resolutions: Resolutions, stream: Uuid)
  {
    stream in resolutions && resolutions[stream] == MAIN
  }

  function Replayed(resolutions: Resolutions): StreamGroup -> bool
  {
    (g: StreamGroup) => !KeepsMain(resolutions, g.stream)
  }

  function Skipped(resolutions: Resolutions): StreamGroup -> bool
  {
    (g: StreamGroup) => KeepsMain(resolutions, g.stream)
  }

  function ReplayedEvent(resolutions: Resolutions): StoredEvent -> bool
  {
    (e: StoredEvent) => !KeepsMain(resolutions, e.stream)
  }

  /** The groups a merge replays, in order. */
  function ActiveGroups(groups: seq<StreamGroup>, resolutions: Resolutions): seq<StreamGroup>
  {
    Filter(Replayed(resolutions), groups)
  }

  function StreamOf(): StreamGroup -> Uuid
  {
    (g: StreamGroup) => g.stream
  }

  /** The streams a merge leaves to main, in order. */
  function SkippedStreams(groups: seq<StreamGroup>, resolutions: Resolutions): seq<Uuid>
  {
    Map(StreamOf(), Filter(Skipped(resolutions), groups))
  }

  /** Leaving groups out of the replay is leaving their streams' events out of the replay set. */
  lemma {:induction false} ActiveGroupsOfEvents(events: Log, resolutions: Resolutions, groups: seq<StreamGroup>)
    requires forall i :: 0 <= i < |groups| ==> forall e :: e in groups[i].events ==> e.stream == groups[i].stream
    ensures Flatten(ActiveGroups(groups, resolutions)) == Filter(ReplayedEvent(resolutions), Flatten(groups))
  {
    if groups != [] {
      var n := |groups| - 1;
      var g := groups[n];
      ActiveGroupsOfEvents(events, resolutions, groups[..n]);
      FilterConcat(ReplayedEvent(resolutions), Flatten(groups[..n]), g.events);
      if KeepsMain(resolutions, g.stream) {
        FilterNone(ReplayedEvent(resolutions), g.events);
      } else {
        FilterAll(ReplayedEvent(resolutions), g.events);
        var kept := ActiveGroups(groups[..n], resolutions);
        assert (kept + [g])[..|kept|] == kept;
      }
    }
  }

  /** A projection that ignores the events of streams left to main. */
  function Sparing<S(!new)>(step: (S, StoredEvent) -> S, resolutions: Resolutions): (S, StoredEvent) -> S
  {
    (s: S, e: StoredEvent) => if KeepsMain(resolutions, e.stream) then s else step(s, e)
  }

  lemma {:induction false} SparingIsFiltering<S(!new)>(step: (S, StoredEvent) -> S, s: S, resolutions: Resolutions, events: Log)
    ensures Fold(Sparing(step, resolutions), s, events) == Fold(step, s, Filter(ReplayedEvent(resolutions), events))
  {
    if events != [] {
      var shorter, last := events[..|events| - 1], events[|events| - 1];
      SparingIsFiltering(step, s, resolutions, shorter);
      var kept := Filter(ReplayedEvent(resolutions), shorter);
      assert (kept + [last])[..|kept|] == kept;
    }
  }

  /** Replaying the groups that are not skipped gives the state of the kept events in position order. */
  lemma {:induction false} PartialReplaySameState<S(!new)>(step: (S, StoredEvent) -> S, s: S, resolutions: Resolutions, events: Log)
    requires StreamsCommute(step)
    ensures Fold(step, s, Flatten(ActiveGroups(GroupsOf(events), resolutions)))
         == Fold(step, s, Filter(ReplayedEvent(resolutions), events))
  {
    GroupMembersStream(events);
    ActiveGroupsOfEvents(events, resolutions, GroupsOf(events));
    SparingIsFiltering(step, s, resolutions, Flatten(GroupsOf(events)));
    SparingIsFiltering(step, s, resolutions, events);
    GroupedReplaySameState(Sparing(step, resolutions), s, events);
  }

  /** Replayed and skipped events together account for the whole replay set. */
  lemma ReplayAccountsForAll(events: Log, resolutions: Resolutions)
    ensures |Flatten(ActiveGroups(GroupsOf(events), resolutions))|
          + |Filter((e: StoredEvent) => KeepsMain(resolutions, e.stream), events)| == |events|
    ensures multiset(Flatten(ActiveGroups(GroupsOf(events), resolutions)))
         == multiset(Filter(ReplayedEvent(resolutions), events))
  {
    var skip := (e: StoredEvent) => KeepsMain(resolutions, e.stream);
    GroupMembersStream(events);
    ActiveGroupsOfEvents(events, resolutions, GroupsOf(events));
    GroupingConserves(events);
    FilterMultiset(ReplayedEvent(resolutions), Flatten(GroupsOf(events)), events);
    FilterSplitCount(ReplayedEvent(resolutions), skip, events);
    MultisetLength(Flatten(ActiveGroups(GroupsOf(events), resolutions)), Filter(ReplayedEvent(resolutions), events));
  }

  lemma GroupMembersStream(events: Log)
    ensures forall i :: 0 <= i < |GroupsOf(events)| ==>
      forall e :: e in GroupsOf(events)[i].events ==> e.stream == GroupsOf(events)[i].stream
  {
    forall i | 0 <= i < |GroupsOf(events)|
      ensures forall e :: e in GroupsOf(events)[i].events ==> e.stream == GroupsOf(events)[i].stream
    {
      FilterMembers(OfStream(StreamIds(events)[i]), events);
    }
  }

  lemma {:induction false} FilterCount(keep: StoredEvent -> bool, s: Log, e: StoredEvent)
    ensures multiset(Filter(keep, s))[e] == if keep(e) then multiset(s)[e] else 0
  {
    if s != [] {
      FilterCount(keep, s[..|s| - 1], e);
      assert s == s[..|s| - 1] + [s[|s| - 1]];
    }
  }

  lemma FilterMultiset(keep: StoredEvent -> bool, a: Log, b: Log)
    requires multiset(a) == multiset(b)
    ensures multiset(Filter(keep, a)) == multiset(Filter(keep, b))
  {
    forall e: StoredEvent ensures multiset(Filter(keep, a))[e] == multiset(Filter(keep, b))[e] {
      FilterCount(keep, a, e);
      FilterCount(keep, b, e);
    }
  }

  lemma {:induction false} FilterSplitCount(f: StoredEvent -> bool, g: StoredEvent -> bool, s: Log)
    requires forall e: StoredEvent :: f(e) == !g(e)
    ensures |Filter(f, s)| + |Filter(g, s)| == |s|
  {
    if s != [] {
      FilterSplitCount(f, g, s[..|s| - 1]);
    }
  }

  lemma MultisetLength(a: Log, b: Log)
    requires multiset(a) == multiset(b)
    ensures |a| == |b|
  {
    assert |multiset(a)| == |a| && |multiset(b)| == |b|;
  }
}
