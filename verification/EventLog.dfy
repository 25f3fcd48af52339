/**
 * The append-only event log and the in-memory event store that keeps it.
 *
 * `Log` is the abstract value: one global sequence of stored events. Versions are counted per
 * (stream, branch) pair, positions over the whole log. `EventStore` is the store itself, with its
 * per-stream index and version table; every method is proved against the functions on `Log`.
 */
module EventLog {
  import opened Base

  datatype Kind = Person | Family | Source | Misc(tag: nat)

  /** A name as the name events carry it, without the envelope (ids and timestamp). */
  datatype NameFields = NameFields(text: string, primary: bool)

  /** The domain events, grouped by the shape of their payload. */
  datatype Event =
    | BranchCreated(base: nat, title: string, about: string)
    | BranchDeleted
    | BranchMerged(base: nat, mergedAt: nat, note: string)
    | Created(kind: Kind, xref: string)
    | Updated(kind: Kind, changes: map<string, string>)
    | Deleted(kind: Kind)
    | ChildLinked(person: Uuid)
    | ChildUnlinked(person: Uuid)
    | NameAdded(nameId: Uuid, name: NameFields)
    | NameUpdated(nameId: Uuid, name: NameFields)
    | NameRemoved(nameId: Uuid)
    | Other(kind: Kind)

  predicate IsLifecycle(e: Event)
  {
    e.BranchCreated? || e.BranchDeleted? || e.BranchMerged?
  }

  /**
   * `writer` identifies the request whose Append stored the event. The store does not keep it;
   * it lets a contract say "what this call appended" while other requests write too.
   */
  datatype StoredEvent = StoredEvent(
    stream: Uuid, branch: Uuid, version: nat, position: nat, event: Event, writer: nat)

  type Log = seq<StoredEvent>

  datatype Scope = Scope(branch: Uuid, base: nat)

  const MAIN_SCOPE := Scope(NIL, 0)

  // --- Reading the log ---

  function On(stream: Uuid, branch: Uuid): StoredEvent -> bool
  {
    (e: StoredEvent) => e.stream == stream && e.branch == branch
  }

  /** The history of one stream on one branch. */
  function History(log: Log, stream: Uuid, branch: Uuid): Log
  {
    Filter(On(stream, branch), log)
  }

  /** The version of a stream on a branch: that of its newest event, 0 when it has none. */
  function StreamVersion(log: Log, stream: Uuid, branch: Uuid): nat
  {
    if log == [] then 0
    else
      var last := log[|log| - 1];
      if last.stream == stream && last.branch == branch then last.version
      else StreamVersion(log[..|log| - 1], stream, branch)
  }

  /** Main's version of a stream as of a fork position: where a branch's own numbering starts. */
  function SeedVersion(log: Log, stream: Uuid, base: nat): nat
  {
    if log == [] then 0
    else
      var rest := SeedVersion(log[..|log| - 1], stream, base);
      var last := log[|log| - 1];
      if last.stream == stream && last.branch == NIL && last.position <= base && last.version > rest
      then last.version else rest
  }

  /** The version an Append compares against: the pair's own, or the seed for a branch's first write. */
  function CurrentVersion(log: Log, stream: Uuid, scope: Scope): nat
  {
    var own := StreamVersion(log, stream, scope.branch);
    if own == 0 && scope.branch != NIL then SeedVersion(log, stream, scope.base) else own
  }

  function After(branch: Uuid, from: nat): StoredEvent -> bool
  {
    (e: StoredEvent) => e.branch == branch && e.position > from
  }

  function AfterOn(branch: Uuid, from: nat, streams: set<Uuid>): StoredEvent -> bool
  {
    (e: StoredEvent) => e.branch == branch && e.position > from && e.stream in streams
  }

  function EventOf(): StoredEvent -> Event
  {
    (e: StoredEvent) => e.event
  }

  function By(writer: nat): StoredEvent -> bool
  {
    (e: StoredEvent) => e.writer == writer
  }

  /** A capped read stops as soon as it holds `limit` events, so it never returns fewer than one it found. */
  function Capped(s: Log, limit: nat): (r: Log)
    ensures r <= s
    ensures |r| < |s| ==> |r| == limit || (|r| == 1 && limit == 0)
  {
    var cap := if limit == 0 then 1 else limit;
    if |s| <= cap then s else s[..cap]
  }

  /** Stopping at the cap returns what reading on and cutting would. */
  lemma CappedEarly(keep: StoredEvent -> bool, log: Log, n: nat, limit: nat)
    requires n <= |log|
    requires |Filter(keep, log[..n])| == if limit == 0 then 1 else limit
    ensures Capped(Filter(keep, log), limit) == Filter(keep, log[..n])
  {
    FilterConcat(keep, log[..n], log[n..]);
    assert log == log[..n] + log[n..];
  }

  // --- Appending ---

  function Stored(stream: Uuid, branch: Uuid, version: nat, position: nat, events: seq<Event>, writer: nat): (r: Log)
    ensures |r| == |events|
    ensures forall i :: 0 <= i < |r| ==>
      r[i] == StoredEvent(stream, branch, version + 1 + i, position + 1 + i, events[i], writer)
  {
    if events == [] then []
    else
      var n := |events| - 1;
      Stored(stream, branch, version, position, events[..n], writer)
        + [StoredEvent(stream, branch, version + 1 + n, position + 1 + n, events[n], writer)]
  }

  /** Append with optimistic concurrency: a negative expected version switches the check off. */
  function Append(log: Log, stream: Uuid, events: seq<Event>, expected: int, scope: Scope, writer: nat): Option<Log>
  {
    var current := CurrentVersion(log, stream, scope);
    if expected >= 0 && current != expected then None
    else Some(log + Stored(stream, scope.branch, current, |log|, events, writer))
  }

  /** Positions number the log from 1; a pair's versions count up by one after its first event. */
  predicate Follows(log: Log, e: StoredEvent)
  {
    var before := StreamVersion(log, e.stream, e.branch);
    && e.position == |log| + 1
    && e.version > before
    && (e.branch == NIL || before != 0 ==> e.version == before + 1)
  }

  predicate ValidLog(log: Log)
  {
    log == [] || (ValidLog(log[..|log| - 1]) && Follows(log[..|log| - 1], log[|log| - 1]))
  }

  lemma {:induction false} ValidPrefix(log: Log, n: nat)
    requires ValidLog(log) && n <= |log|
    ensures ValidLog(log[..n])
    ensures n < |log| ==> Follows(log[..n], log[n])
  {
    if n + 1 < |log| {
      var m := |log| - 1;
      ValidPrefix(log[..m], n);
      assert log[..m][..n] == log[..n];
    } else if n == |log| {
      assert log[..n] == log;
    }
  }

  lemma {:induction false} StreamVersionPrefix(log: Log, stream: Uuid, branch: Uuid, n: nat)
    requires ValidLog(log) && n <= |log|
    ensures StreamVersion(log[..n], stream, branch) <= StreamVersion(log, stream, branch)
  {
    if n < |log| {
      var m := |log| - 1;
      StreamVersionPrefix(log[..m], stream, branch, n);
      assert log[..m][..n] == log[..n];
    } else {
      assert log[..n] == log;
    }
  }

  /** The version of a pair is the largest version any of its events carries. */
  lemma {:induction false} StreamVersionIsMax(log: Log, stream: Uuid, branch: Uuid, i: nat)
    requires ValidLog(log) && i < |log| && log[i].stream == stream && log[i].branch == branch
    ensures 1 <= log[i].version <= StreamVersion(log, stream, branch)
    ensures log[i].position == i + 1
  {
    ValidPrefix(log, i);
    StreamVersionPrefix(log, stream, branch, i + 1);
    assert log[..i + 1][..i] == log[..i];
  }

  /** Every later event of a pair has a version above the pair's earlier one. */
  lemma NewEventsAreNewer(log: Log, later: Log, i: nat)
    requires ValidLog(later) && log <= later && |log| <= i < |later|
    ensures later[i].version > StreamVersion(log, later[i].stream, later[i].branch)
    ensures later[i].position == i + 1
  {
    ValidPrefix(later, i);
    ValidPrefix(later, |later|);
    StreamVersionPrefix(later[..i], later[i].stream, later[i].branch, |log|);
    assert later[..i][..|log|] == log;
  }

  lemma PositionsAreIndices(log: Log)
    requires ValidLog(log)
    ensures forall i :: 0 <= i < |log| ==> log[i].position == i + 1
  {
    forall i | 0 <= i < |log| ensures log[i].position == i + 1 {
      ValidPrefix(log, i);
    }
  }

  /** No event of the pair lies between the two log lengths. */
  ghost predicate NothingBetween(log: Log, stream: Uuid, branch: Uuid, from: nat, to: nat)
  {
    forall i :: from <= i < to && i < |log| ==> log[i].stream != stream || log[i].branch != branch
  }

  /** The version of a pair still stands exactly when nothing was appended to the pair since it was read. */
  lemma VersionStandsIff(log: Log, stream: Uuid, branch: Uuid, read: nat)
    requires ValidLog(log) && read <= |log|
    ensures StreamVersion(log, stream, branch) == StreamVersion(log[..read], stream, branch)
      <==> NothingBetween(log, stream, branch, read, |log|)
  {
    if i :| read <= i < |log| && log[i].stream == stream && log[i].branch == branch {
      NewEventsAreNewer(log[..read], log, i);
      StreamVersionIsMax(log, stream, branch, i);
    } else {
      NothingKeepsVersion(log, stream, branch, read);
    }
  }

  lemma {:induction false} NothingKeepsVersion(log: Log, stream: Uuid, branch: Uuid, read: nat)
    requires read <= |log| && NothingBetween(log, stream, branch, read, |log|)
    ensures StreamVersion(log, stream, branch) == StreamVersion(log[..read], stream, branch)
  {
    if read < |log| {
      var m := |log| - 1;
      NothingKeepsVersion(log[..m], stream, branch, read);
      assert log[..m][..read] == log[..read];
    } else {
      assert log[..read] == log;
    }
  }

  // --- Forks ---

  /** The event that opens a branch, on the branch's own stream. */
  predicate IsFork(e: StoredEvent)
  {
    e.event.BranchCreated? && e.stream == e.branch && e.branch != NIL
  }

  /** The opening event at `i` is its branch's only one, and everything on the branch lies after its fork. */
  predicate OpensAlone(log: Log, i: nat)
    requires i < |log| && IsFork(log[i])
  {
    forall j :: 0 <= j < |log| && log[j].branch == log[i].branch ==>
      log[j].position > log[i].event.base && (IsFork(log[j]) ==> i == j)
  }

  /** A branch is opened once, and everything on it lies after its fork. */
  predicate Forked(log: Log)
  {
    forall i {:trigger IsFork(log[i])} :: 0 <= i < |log| && IsFork(log[i]) ==> OpensAlone(log, i)
  }

  /** Events that open no branch keep every fork where it is. */
  lemma ForksStand(log: Log, later: Log)
    requires Forked(log) && log <= later && ValidLog(later)
    requires forall i :: |log| <= i < |later| ==> !IsFork(later[i])
    ensures Forked(later)
  {
    PositionsAreIndices(later);
    forall i | 0 <= i < |later| && IsFork(later[i]) ensures OpensAlone(later, i) {
      assert later[i] == log[i] && OpensAlone(log, i);
      assert log[i].position > log[i].event.base;
      forall j | 0 <= j < |later| && later[j].branch == later[i].branch
        ensures later[j].position > later[i].event.base && (IsFork(later[j]) ==> i == j)
      {
        assert j < |log| ==> later[j] == log[j];
      }
    }
  }

  /** Nothing was ever written on the branch. */
  ghost predicate NoneOn(log: Log, branch: Uuid)
  {
    forall i :: 0 <= i < |log| ==> log[i].branch != branch
  }

  /** A request that keeps an id to itself finds it unused still. */
  lemma StillNoneOn(before: Log, after: Log, branch: Uuid)
    requires NoneOn(before, branch) && before <= after
    requires forall i :: |before| <= i < |after| ==> after[i].branch != branch
    ensures NoneOn(after, branch)
  {
    forall i | 0 <= i < |after| ensures after[i].branch != branch {
      assert i < |before| ==> after[i] == before[i];
    }
  }

  /** Opening a branch nothing was ever written on. */
  lemma ForkAdded(log: Log, later: Log)
    requires Forked(log) && log <= later && |later| == |log| + 1 && ValidLog(later)
    requires IsFork(later[|log|]) && later[|log|].event.base <= |log|
    requires NoneOn(log, later[|log|].branch)
    ensures Forked(later)
  {
    PositionsAreIndices(later);
    var n := |log|;
    forall i | 0 <= i < |later| && IsFork(later[i]) ensures OpensAlone(later, i) {
      assert i < n ==> later[i] == log[i] && OpensAlone(log, i) && log[i].branch != later[n].branch;
      forall j | 0 <= j < |later| && later[j].branch == later[i].branch
        ensures later[j].position > later[i].event.base && (IsFork(later[j]) ==> i == j)
      {
        assert j < n ==> later[j] == log[j];
      }
    }
  }

  lemma OneMore(log: Log, e: StoredEvent)
    ensures ValidLog(log + [e]) <==> ValidLog(log) && Follows(log, e)
    ensures StreamVersion(log + [e], e.stream, e.branch) == e.version
  {
    assert (log + [e])[..|log|] == log;
  }

  lemma {:induction false} StoredKeepsValid(log: Log, stream: Uuid, branch: Uuid, version: nat, events: seq<Event>, writer: nat)
    requires ValidLog(log) && version >= StreamVersion(log, stream, branch)
    requires branch == NIL || StreamVersion(log, stream, branch) != 0 ==> version == StreamVersion(log, stream, branch)
    ensures ValidLog(log + Stored(stream, branch, version, |log|, events, writer))
    ensures events != [] ==>
      StreamVersion(log + Stored(stream, branch, version, |log|, events, writer), stream, branch) == version + |events|
    decreases |events|
  {
    if events == [] {
      assert log + Stored(stream, branch, version, |log|, events, writer) == log;
    } else {
      var n := |events| - 1;
      var before := log + Stored(stream, branch, version, |log|, events[..n], writer);
      StoredKeepsValid(log, stream, branch, version, events[..n], writer);
      assert n == 0 ==> before == log;
      assert events[..n + 1] == events;
      StoredStep(log, stream, branch, version, events, writer, n);
      OneMore(before, StoredEvent(stream, branch, version + n + 1, |log| + n + 1, events[n], writer));
    }
  }

  /** Appending keeps the log valid, whatever the stream, scope and expected version. */
  lemma AppendKeepsValid(log: Log, stream: Uuid, scope: Scope, events: seq<Event>, writer: nat)
    requires ValidLog(log)
    ensures ValidLog(log + Stored(stream, scope.branch, CurrentVersion(log, stream, scope), |log|, events, writer))
    ensures events != [] ==>
      StreamVersion(log + Stored(stream, scope.branch, CurrentVersion(log, stream, scope), |log|, events, writer),
                    stream, scope.branch) == CurrentVersion(log, stream, scope) + |events|
  {
    StoredKeepsValid(log, stream, scope.branch, CurrentVersion(log, stream, scope), events, writer);
  }

  /** Appending on main: the stream's own version counts, and -1 switches the check off. */
  lemma AppendOnMain(log: Log, stream: Uuid, events: seq<Event>, expected: int, writer: nat)
    requires ValidLog(log)
    ensures Append(log, stream, events, expected, MAIN_SCOPE, writer).Some?
      <==> expected < 0 || StreamVersion(log, stream, NIL) == expected
    ensures Append(log, stream, events, expected, MAIN_SCOPE, writer).Some? ==>
      && Append(log, stream, events, expected, MAIN_SCOPE, writer).value
         == log + Stored(stream, NIL, StreamVersion(log, stream, NIL), |log|, events, writer)
      && ValidLog(Append(log, stream, events, expected, MAIN_SCOPE, writer).value)
  {
    AppendKeepsValid(log, stream, MAIN_SCOPE, events, writer);
  }

  /** What an Append on one pair does to the version of another pair: nothing. */
  lemma {:induction false} StoredOtherPair(log: Log, stream: Uuid, branch: Uuid, version: nat, events: seq<Event>, writer: nat,
                                           s: Uuid, b: Uuid)
    requires s != stream || b != branch
    ensures StreamVersion(log + Stored(stream, branch, version, |log|, events, writer), s, b) == StreamVersion(log, s, b)
    decreases |events|
  {
    var full := log + Stored(stream, branch, version, |log|, events, writer);
    if events == [] {
      assert full == log;
    } else {
      var n := |events| - 1;
      StoredOtherPair(log, stream, branch, version, events[..n], writer, s, b);
      assert full[..|full| - 1] == log + Stored(stream, branch, version, |log|, events[..n], writer);
    }
  }

  /**
   * The compare-and-set fact everything else rests on: along a growing log, a pair whose version is
   * unchanged has an unchanged history.
   */
  lemma {:induction false} SameVersionSameHistory(earlier: Log, later: Log, stream: Uuid, branch: Uuid)
    requires ValidLog(later) && earlier <= later
    requires StreamVersion(earlier, stream, branch) == StreamVersion(later, stream, branch)
    ensures History(earlier, stream, branch) == History(later, stream, branch)
  {
    if |earlier| == |later| {
      assert earlier == later;
    } else {
      var m := |later| - 1;
      var shorter := later[..m];
      assert earlier == shorter[..|earlier|];
      StreamVersionPrefix(shorter, stream, branch, |earlier|);
      SameVersionSameHistory(earlier, shorter, stream, branch);
    }
  }

  /** On main the version of a stream is the number of its events. */
  lemma {:induction false} MainVersionCounts(log: Log, stream: Uuid)
    requires ValidLog(log)
    ensures StreamVersion(log, stream, NIL) == |History(log, stream, NIL)|
  {
    if log != [] {
      var m := |log| - 1;
      MainVersionCounts(log[..m], stream);
    }
  }

  /** Where a branch's numbering of a stream starts: at the version main had of it at the fork. */
  lemma {:induction false} SeedIsVersionAtFork(log: Log, stream: Uuid, base: nat)
    requires ValidLog(log) && base <= |log|
    ensures SeedVersion(log, stream, base) == StreamVersion(log[..base], stream, NIL)
  {
    if base < |log| {
      var m := |log| - 1;
      ValidPrefix(log, m);
      SeedIsVersionAtFork(log[..m], stream, base);
      assert log[..m][..base] == log[..base];
    } else {
      assert log[..base] == log;
      SeedOfAll(log, stream, base);
    }
  }

  lemma {:induction false} SeedOfAll(log: Log, stream: Uuid, base: nat)
    requires ValidLog(log) && |log| <= base
    ensures SeedVersion(log, stream, base) == StreamVersion(log, stream, NIL)
  {
    if log != [] {
      SeedOfAll(log[..|log| - 1], stream, base);
    }
  }

  /**
   * Appending on a branch: its first write to a stream is compared with, and numbered after, the version main had
   * of it at the fork; every later one with the branch's own.
   */
  lemma AppendOnBranch(log: Log, stream: Uuid, events: seq<Event>, expected: int, scope: Scope, writer: nat)
    requires ValidLog(log) && scope.branch != NIL && scope.base <= |log|
    ensures
      var own := StreamVersion(log, stream, scope.branch);
      var current := if own == 0 then StreamVersion(log[..scope.base], stream, NIL) else own;
      var appended := Append(log, stream, events, expected, scope, writer);
      && (appended.Some? <==> expected < 0 || expected == current)
      && (appended.Some? ==> |appended.value| == |log| + |events| && log <= appended.value)
      && (appended.Some? ==> forall i :: 0 <= i < |events| ==>
            appended.value[|log| + i] == StoredEvent(stream, scope.branch, current + 1 + i, |log| + 1 + i, events[i], writer))
  {
    SeedIsVersionAtFork(log, stream, scope.base);
  }

  /** Of two Appends that expect the same version of a pair, at most one can succeed. */
  lemma {:induction false} CompareAndSet(log: Log, later: Log, stream: Uuid, scope: Scope, v: nat,
                                         first: seq<Event>, second: seq<Event>, w1: nat, w2: nat)
    requires ValidLog(log) && first != []
    requires Append(log, stream, first, v, scope, w1).Some?
    requires Append(log, stream, first, v, scope, w1).value <= later && ValidLog(later)
    ensures Append(later, stream, second, v, scope, w2).None?
  {
    AppendKeepsValid(log, stream, scope, first, w1);
    var won := Append(log, stream, first, v, scope, w1).value;
    assert won == later[..|won|];
    StreamVersionPrefix(later, stream, scope.branch, |won|);
  }

  // --- The store ---

  /** The rows of a stream in an index, none when the stream is unknown. */
  function RowsIn(streams: map<Uuid, Log>, s: Uuid): Log
  {
    if s in streams then streams[s] else []
  }

  /** The entry of a pair in a version table, 0 when the pair is unknown. */
  function VersionIn(versions: map<(Uuid, Uuid), nat>, s: Uuid, b: Uuid): nat
  {
    if (s, b) in versions then versions[(s, b)] else 0
  }

  /** The index and the version table agree with the log. */
  ghost predicate Indexed(log: Log, streams: map<Uuid, Log>, versions: map<(Uuid, Uuid), nat>)
  {
    && (forall s: Uuid {:trigger RowsIn(streams, s)} :: RowsIn(streams, s) == Filter(OfStream(s), log))
    && (forall s: Uuid, b: Uuid {:trigger VersionIn(versions, s, b)} :: VersionIn(versions, s, b) == StreamVersion(log, s, b))
  }

  lemma RowsAfterAppend(log: Log, streams: map<Uuid, Log>, stream: Uuid, stored: Log, rows: Log)
    requires forall s: Uuid {:trigger RowsIn(streams, s)} :: RowsIn(streams, s) == Filter(OfStream(s), log)
    requires forall e :: e in stored ==> e.stream == stream
    requires rows == Filter(OfStream(stream), log + stored)
    ensures forall s: Uuid {:trigger RowsIn(streams[stream := rows], s)} ::
      RowsIn(streams[stream := rows], s) == Filter(OfStream(s), log + stored)
  {
    forall s: Uuid ensures RowsIn(streams[stream := rows], s) == Filter(OfStream(s), log + stored) {
      if s != stream {
        assert RowsIn(streams[stream := rows], s) == RowsIn(streams, s);
        FilterConcat(OfStream(s), log, stored);
        FilterNone(OfStream(s), stored);
      }
    }
  }

  lemma VersionsAfterAppend(log: Log, versions: map<(Uuid, Uuid), nat>, stream: Uuid, branch: Uuid,
                            version: nat, events: seq<Event>, writer: nat, newest: nat)
    requires forall s: Uuid, b: Uuid {:trigger VersionIn(versions, s, b)} ::
      VersionIn(versions, s, b) == StreamVersion(log, s, b)
    requires newest == StreamVersion(log + Stored(stream, branch, version, |log|, events, writer), stream, branch)
    ensures forall s: Uuid, b: Uuid {:trigger VersionIn(versions[(stream, branch) := newest], s, b)} ::
      VersionIn(versions[(stream, branch) := newest], s, b)
        == StreamVersion(log + Stored(stream, branch, version, |log|, events, writer), s, b)
  {
    forall s: Uuid, b: Uuid
      ensures VersionIn(versions[(stream, branch) := newest], s, b)
        == StreamVersion(log + Stored(stream, branch, version, |log|, events, writer), s, b)
    {
      if s != stream || b != branch {
        assert VersionIn(versions[(stream, branch) := newest], s, b) == VersionIn(versions, s, b);
        StoredOtherPair(log, stream, branch, version, events, writer, s, b);
      }
    }
  }

  /** One more event stored. */
  lemma StoredStep(log: Log, stream: Uuid, branch: Uuid, version: nat, events: seq<Event>, writer: nat, i: nat)
    requires i < |events|
    ensures log + Stored(stream, branch, version, |log|, events[..i + 1], writer)
         == log + Stored(stream, branch, version, |log|, events[..i], writer)
            + [StoredEvent(stream, branch, version + i + 1, |log| + i + 1, events[i], writer)]
  {
    assert events[..i + 1][..i] == events[..i];
  }

  lemma RowsStep(log: Log, e: StoredEvent)
    ensures Filter(OfStream(e.stream), log + [e]) == Filter(OfStream(e.stream), log) + [e]
  {
    FilterConcat(OfStream(e.stream), log, [e]);
    FilterOne(OfStream(e.stream), e);
  }

  /** The in-memory event store: the log, an index by stream, the version table and the head position. */
  class EventStore {
    var events: Log
    var streams: map<Uuid, Log>
    var versions: map<(Uuid, Uuid), nat>
    var position: nat

    ghost predicate Valid()
      reads this
    {
      ValidLog(events) && position == |events| && Indexed(events, streams, versions)
    }

    constructor ()
      ensures Valid() && events == []
    {
      events, streams, versions, position := [], map[], map[], 0;
    }

    /** Reads the version table; the pair's own version, without the fork seed. */
    method GetStreamVersion(stream: Uuid, branch: Uuid) returns (version: nat)
      requires Valid()
      ensures version == StreamVersion(events, stream, branch)
    {
      assert VersionIn(versions, stream, branch) == StreamVersion(events, stream, branch);
      version := if (stream, branch) in versions then versions[(stream, branch)] else 0;
    }

    method SeedFor(stream: Uuid, base: nat) returns (seed: nat)
      requires Valid()
      ensures seed == SeedVersion(events, stream, base)
    {
      var rows := if stream in streams then streams[stream] else [];
      seed := 0;
      for i := 0 to |rows|
        invariant seed == SeedVersion(rows[..i], stream, base)
      {
        assert rows[..i + 1][..i] == rows[..i];
        if rows[i].branch == NIL && rows[i].position <= base && rows[i].version > seed {
          seed := rows[i].version;
        }
        assert rows[i] in Filter(OfStream(stream), events) by {
          assert RowsIn(streams, stream) == rows;
        }
        FilterMembers(OfStream(stream), events);
      }
      assert rows[..|rows|] == rows;
      assert RowsIn(streams, stream) == rows;
      SeedOfIndex(events, stream, base);
    }

    /**
     * Appends atomically. On a version conflict nothing changes; otherwise the new log is exactly
     * the one `Append` describes.
     */
    method AppendEvents(stream: Uuid, newEvents: seq<Event>, expected: int, scope: Scope, writer: nat) returns (ok: bool)
      requires Valid()
      modifies this
      ensures Valid()
      ensures ok <==> Append(old(events), stream, newEvents, expected, scope, writer).Some?
      ensures ok ==> events == Append(old(events), stream, newEvents, expected, scope, writer).value
      ensures !ok ==> unchanged(this)
    {
      var current := GetStreamVersion(stream, scope.branch);
      if current == 0 && scope.branch != NIL {
        current := SeedFor(stream, scope.base);
      }
      if expected >= 0 && current != expected {
        return false;
      }
      if |newEvents| > 0 {
        Commit(stream, scope, current, newEvents, writer);
      } else {
        assert events + Stored(stream, scope.branch, current, |events|, newEvents, writer) == events;
      }
      ok := true;
    }

    /** The writing half of an Append: store every event, then record the rows and the version. */
    method Commit(stream: Uuid, scope: Scope, current: nat, newEvents: seq<Event>, writer: nat)
      requires Valid() && newEvents != [] && current == CurrentVersion(events, stream, scope)
      modifies this
      ensures Valid()
      ensures events == old(events) + Stored(stream, scope.branch, current, |old(events)|, newEvents, writer)
    {
      hide ValidLog, StreamVersion, Filter, Stored, CurrentVersion;
      var rows := if stream in streams then streams[stream] else [];
      assert rows == RowsIn(streams, stream);
      AppendKeepsValid(events, stream, scope, newEvents, writer);
      ghost var log := events;
      rows := StoreAll(stream, scope.branch, current, newEvents, writer, rows);
      RowsAfterAppend(log, streams, stream, Stored(stream, scope.branch, current, |log|, newEvents, writer), rows);
      VersionsAfterAppend(log, versions, stream, scope.branch, current, newEvents, writer, current + |newEvents|);
      streams := streams[stream := rows];
      versions := versions[(stream, scope.branch) := current + |newEvents|];
    }

    /** The storing loop of an Append: extends the log and the stream's rows by every event. */
    method StoreAll(stream: Uuid, branch: Uuid, version: nat, newEvents: seq<Event>, writer: nat, rows: Log)
      returns (grown: Log)
      requires position == |events| && rows == Filter(OfStream(stream), events)
      modifies this`events, this`position
      ensures events == old(events) + Stored(stream, branch, version, |old(events)|, newEvents, writer)
      ensures position == |events| && grown == Filter(OfStream(stream), events)
    {
      grown := rows;
      ghost var log := events;
      assert log + Stored(stream, branch, version, |log|, newEvents[..0], writer) == log;
      for i := 0 to |newEvents|
        invariant position == |log| + i
        invariant events == log + Stored(stream, branch, version, |log|, newEvents[..i], writer)
        invariant grown == Filter(OfStream(stream), events)
      {
        StoredStep(log, stream, branch, version, newEvents, writer, i);
        position := position + 1;
        var stored := StoredEvent(stream, branch, version + i + 1, position, newEvents[i], writer);
        RowsStep(events, stored);
        events := events + [stored];
        grown := grown + [stored];
      }
      assert newEvents[..|newEvents|] == newEvents;
    }

    /** All events of a stream, across every branch. */
    method ReadStream(stream: Uuid) returns (r: Log)
      requires Valid()
      ensures r == Filter(OfStream(stream), events)
    {
      assert RowsIn(streams, stream) == Filter(OfStream(stream), events);
      r := if stream in streams then streams[stream] else [];
    }

    /** One branch's own events after a position, in order, capped. */
    method ReadBranch(branch: Uuid, from: nat, limit: nat) returns (r: Log)
      requires Valid()
      ensures r == Capped(Filter(After(branch, from), events), limit)
    {
      r := [];
      for i := 0 to |events|
        invariant r == Filter(After(branch, from), events[..i])
        invariant |r| == 0 || |r| < limit
      {
        assert events[..i + 1][..i] == events[..i];
        if events[i].branch != branch || events[i].position <= from {
          continue;
        }
        r := r + [events[i]];
        if |r| >= limit {
          CappedEarly(After(branch, from), events, i + 1, limit);
          return;
        }
      }
      assert events[..|events|] == events;
    }

    /** One branch's events after a position, restricted to a set of streams, in order, capped. */
    method ReadStreamsForBranch(ids: seq<Uuid>, branch: Uuid, from: nat, limit: nat) returns (r: Log)
      requires Valid()
      ensures r == if |ids| == 0 || limit == 0 then []
                   else Capped(Filter(AfterOn(branch, from, SetOf(ids)), events), limit)
    {
      if |ids| == 0 || limit == 0 {
        return [];
      }
      var wanted: set<Uuid> := {};
      for i := 0 to |ids|
        invariant forall id :: id in wanted <==> id in ids[..i]
      {
        wanted := wanted + {ids[i]};
      }
      assert wanted == SetOf(ids);
      r := [];
      for i := 0 to |events|
        invariant r == Filter(AfterOn(branch, from, wanted), events[..i])
        invariant |r| < limit
      {
        assert events[..i + 1][..i] == events[..i];
        if events[i].branch != branch || events[i].position <= from || events[i].stream !in wanted {
          continue;
        }
        r := r + [events[i]];
        if |r| >= limit {
          CappedEarly(AfterOn(branch, from, wanted), events, i + 1, limit);
          return;
        }
      }
      assert events[..|events|] == events;
    }
  }

  function OfStream(stream: Uuid): StoredEvent -> bool
  {
    (e: StoredEvent) => e.stream == stream
  }

  lemma FilterOne<T>(keep: T -> bool, x: T)
    ensures Filter(keep, [x]) == if keep(x) then [x] else []
  {
    assert [x][..0] == [];
  }

  /** The seed computed from a stream's index is the seed computed from the whole log. */
  lemma {:induction false} SeedOfIndex(log: Log, stream: Uuid, base: nat)
    ensures SeedVersion(Filter(OfStream(stream), log), stream, base) == SeedVersion(log, stream, base)
  {
    if log != [] {
      SeedOfIndex(log[..|log| - 1], stream, base);
      var rows := Filter(OfStream(stream), log);
      if log[|log| - 1].stream == stream {
        assert rows[..|rows| - 1] == Filter(OfStream(stream), log[..|log| - 1]);
      }
    }
  }
}
