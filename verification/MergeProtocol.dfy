/**
 * The life of every branch as one state machine over a shared log: any number of requests that
 * create, edit, merge and delete branches, each advancing one store operation at a time.
 *
 * A request that fails or crashes is one that takes no further step; a client retry is a new request.
 * A projection may happen late, more than once, or never. Ordinary writers may append any data event
 * to main or to any branch at any time, with any expected version.
 */
module MergeProtocol {
  import opened Base
  import opened EventLog
  import opened BranchQueries
  import opened Replay
  import opened MergeModel

  /**
   * What a request has learned or done so far: `read` is the log length at which it read the version
   * of the branch's own stream, `claim` and `at` the index its claim or its delete landed at.
   */
  datatype Request =
    | Creating(id: Uuid, base: nat, name: string, description: string)
    | Opened(id: Uuid, base: nat, name: string, description: string)
    | Merging(id: Uuid, base: nat)
    | Planned(id: Uuid, base: nat, groups: seq<StreamGroup>)
    | Versioned(id: Uuid, base: nat, groups: seq<StreamGroup>, version: nat, read: nat)
    | Searched(id: Uuid, base: nat, groups: seq<StreamGroup>, version: nat, read: nat)
    | Claimed(id: Uuid, base: nat, groups: seq<StreamGroup>, read: nat, claim: nat, next: nat)
    | Deleting(id: Uuid, base: nat)
    | DeleteVersioned(id: Uuid, base: nat, version: nat, read: nat)
    | Removed(id: Uuid, base: nat, read: nat, at: nat)
    | Ended(id: Uuid, base: nat)

  /** The branch event at position `source` was copied to main, as the event at position `target`. */
  datatype Copy = Copy(source: nat, target: nat, merge: nat)

  /** `bases` remembers the fork position of every branch id ever generated. */
  datatype State = State(
    log: Log, registry: map<Uuid, Branch>, bases: map<Uuid, nat>, requests: map<nat, Request>, copies: seq<Copy>)

  const INIT := State([], map[], map[], map[], [])

  /** Every step names its request; ordinary writers have names of their own. */
  datatype Step =
    | CreateReads(p: nat, id: Uuid, name: string, description: string)
    | CreateAppends(p: nat)
    | CreateProjects(p: nat)
    | Writes(p: nat, stream: Uuid, branch: Uuid, events: seq<Event>, expected: int)
    | MergeReads(p: nat, id: Uuid)
    | MergePlans(p: nat, resolutions: Resolutions)
    | MergeReadsVersion(p: nat)
    | MergeSearches(p: nat)
    | MergeClaims(p: nat, mergedAt: nat, note: string)
    | MergeProjects(p: nat)
    | MergeReplays(p: nat, expected: int)
    | DeleteReads(p: nat, id: Uuid)
    | DeleteReadsVersion(p: nat)
    | DeleteAppends(p: nat)
    | DeleteProjects(p: nat)

  function BranchOf(r: Request): Branch
  {
    Branch(r.id, "", "", r.base, BranchStatus.Active, "")
  }

  /** The registry row of a branch just opened. */
  function RowOf(r: Request): Branch
    requires r.Opened?
  {
    Branch(r.id, r.name, r.description, r.base, BranchStatus.Active, "")
  }

  function Advance(s: State, p: nat, r: Request): State
  {
    s.(requests := s.requests[p := r])
  }

  /** A projection reaches the registry; a row that is not there is left alone. */
  function WithStatus(s: State, id: Uuid, status: BranchStatus): State
  {
    if id in s.registry then s.(registry := s.registry[id := s.registry[id].(status := status)]) else s
  }

  /** The copies one replay append makes: the group's events land in a row after the first `n` positions. */
  function CopiesOf(events: Log, n: nat, p: nat): (r: seq<Copy>)
    ensures |r| == |events|
  {
    seq(|events|, i requires 0 <= i < |events| => Copy(events[i].position, n + 1 + i, p))
  }

  /** The name has been used, by a request or by a writer. */
  predicate Used(s: State, p: nat)
  {
    p in s.requests || exists i :: 0 <= i < |s.log| && s.log[i].writer == p
  }

  /** One step of one request. A step whose guard fails changes nothing. */
  ghost function Next(s: State, step: Step): State
  {
    match step
    case CreateReads(p, id, name, description) =>
      if Used(s, p) || id in s.bases || id == NIL then s
      else Advance(s.(bases := s.bases[id := |s.log|]), p, Creating(id, |s.log|, name, description))
    case Writes(p, stream, branch, events, expected) =>
      if p in s.requests || (branch != NIL && branch !in s.registry) || (exists e :: e in events && IsLifecycle(e)) then s
      else
        var scope := if branch == NIL then MAIN_SCOPE else Scope(branch, s.registry[branch].base);
        var appended := Append(s.log, stream, events, expected, scope, p);
        if appended.None? then s else s.(log := appended.value)
    case MergeReads(p, id) =>
      if Used(s, p) || id !in s.registry || s.registry[id].status != Active then s
      else Advance(s, p, Merging(id, s.registry[id].base))
    case DeleteReads(p, id) =>
      if Used(s, p) || id !in s.registry || s.registry[id].status != Active then s
      else Advance(s, p, Deleting(id, s.registry[id].base))
    case _ =>
      if step.p !in s.requests then s else Continue(s, step.p, s.requests[step.p], step)
  }

  /** The steps of a request that is already under way. */
  ghost function Continue(s: State, p: nat, r: Request, step: Step): State
  {
    if r.Creating? || r.Opened? || r.Deleting? || r.DeleteVersioned? || r.Removed? then OpenOrClose(s, p, r, step)
    else MergeStep(s, p, r, step)
  }

  function OpenOrClose(s: State, p: nat, r: Request, step: Step): State
  {
    match (r, step)
    case (Creating(id, base, name, description), CreateAppends(_)) =>
      Logged(s, p, BranchCreated(base, name, description), -1, r, Opened(id, base, name, description))
    case (Opened(id, _, _, _), CreateProjects(_)) =>
      s.(registry := s.registry[id := RowOf(r)])
    case (Deleting(id, base), DeleteReadsVersion(_)) =>
      Advance(s, p, DeleteVersioned(id, base, StreamVersion(s.log, id, id), |s.log|))
    case (DeleteVersioned(id, base, version, read), DeleteAppends(_)) =>
      Logged(s, p, BranchDeleted, if version == 0 then -1 else version, r, Removed(id, base, read, |s.log|))
    case (Removed(id, _, _, _), DeleteProjects(_)) => WithStatus(s, id, BranchStatus.Archived)
    case _ => s
  }

  ghost function MergeStep(s: State, p: nat, r: Request, step: Step): State
  {
    match (r, step)
    case (Merging(id, base), MergePlans(_, resolutions)) =>
      if BranchTruncated(s.log, BranchOf(r)) then s
      else Advance(s, p, Planned(id, base, ActiveGroups(GroupsOf(BranchSide(s.log, BranchOf(r))), resolutions)))
    case (Planned(id, base, groups), MergeReadsVersion(_)) =>
      var version := StreamVersion(s.log, id, id);
      Advance(s, p, if version == 0 then Ended(id, base) else Versioned(id, base, groups, version, |s.log|))
    case (Versioned(id, base, groups, version, read), MergeSearches(_)) =>
      if NoClaim(s.log, id) then Advance(s, p, Searched(id, base, groups, version, read))
      else Advance(WithStatus(s, id, BranchStatus.Merged), p, Ended(id, base))
    case (Searched(id, base, groups, version, read), MergeClaims(_, mergedAt, note)) =>
      Logged(s, p, BranchMerged(base, mergedAt, note), version, r, Claimed(id, base, groups, read, |s.log|, 0))
    case (Claimed(id, _, _, _, _, _), MergeProjects(_)) => WithStatus(s, id, BranchStatus.Merged)
    case (Claimed(id, base, groups, read, claim, next), MergeReplays(_, expected)) =>
      if next >= |groups| then s
      else
        var appended := ReplayAppend(s, p, r, expected);
        if appended.None? then s else AfterReplay(s, p, r, appended.value)
    case _ => s
  }

  /** A lifecycle event appended to the branch's own stream; losing the version check ends the request. */
  function Logged(s: State, p: nat, event: Event, expected: int, r: Request, then_: Request): State
  {
    var appended := Append(s.log, r.id, [event], expected, Scope(r.id, r.base), p);
    if appended.None? then Advance(s, p, Ended(r.id, r.base)) else Advance(s.(log := appended.value), p, then_)
  }

  function ReplayAppend(s: State, p: nat, r: Request, expected: int): Option<Log>
    requires r.Claimed? && r.next < |r.groups|
  {
    Append(s.log, r.groups[r.next].stream, Map(EventOf(), r.groups[r.next].events), expected, MAIN_SCOPE, p)
  }

  /** The state after one replay append that left the log at `later`. */
  function AfterReplay(s: State, p: nat, r: Request, later: Log): State
    requires r.Claimed? && r.next < |r.groups|
  {
    Advance(s.(log := later, copies := s.copies + CopiesOf(r.groups[r.next].events, |s.log|, p)),
            p, r.(next := r.next + 1))
  }

  ghost function Exec(run: seq<Step>): State
  {
    if run == [] then INIT else Next(Exec(run[..|run| - 1]), run[|run| - 1])
  }

  // --- What every step keeps ---

  predicate IsClaimOf(e: StoredEvent, id: Uuid)
  {
    e.event.BranchMerged? && e.stream == id && e.branch == id
  }

  predicate IsDeleteOf(e: StoredEvent, id: Uuid)
  {
    e.event.BranchDeleted? && e.stream == id && e.branch == id
  }

  /** No claim on the branch carries a version up to `version`. */
  ghost predicate NoClaimUpTo(log: Log, id: Uuid, version: nat)
  {
    forall i :: 0 <= i < |log| && IsClaimOf(log[i], id) ==> log[i].version > version
  }

  /** The part of a valid state that only the log and the generated ids decide. */
  ghost predicate LogOk(log: Log, bases: map<Uuid, nat>)
  {
    && ValidLog(log) && Forked(log)
    && NIL !in bases
    && (forall id :: id in bases ==> bases[id] <= |log|)
    && (forall i :: 0 <= i < |log| ==> InScope(log[i], bases))
    && (forall i, j :: 0 <= i < j < |log| && log[i].event.BranchMerged? && log[j].event.BranchMerged? ==>
          log[i].branch != log[j].branch)
  }

  /** An event lies after the fork of its branch, and lifecycle events stand on their branch's own stream. */
  predicate InScope(e: StoredEvent, bases: map<Uuid, nat>)
  {
    && (e.branch == NIL || (e.branch in bases && e.position > bases[e.branch]))
    && (IsLifecycle(e.event) ==> e.branch != NIL && e.stream == e.branch)
    && (e.event.BranchCreated? ==> e.event.base == bases[e.branch])
  }

  predicate Known(id: Uuid, base: nat, bases: map<Uuid, nat>)
  {
    id in bases && bases[id] == base
  }

  /** The log holds the branch's opening event. */
  ghost predicate OpenedIn(log: Log, id: Uuid)
  {
    exists i :: 0 <= i < |log| && IsFork(log[i]) && log[i].branch == id
  }

  /** An event read from the log, on the branch and the stream. */
  predicate FromLog(log: Log, e: StoredEvent, id: Uuid, stream: Uuid)
  {
    0 < e.position <= |log| && log[e.position - 1] == e && e.branch == id && e.stream == stream && !IsLifecycle(e.event)
  }

  ghost predicate GroupsOk(log: Log, id: Uuid, groups: seq<StreamGroup>)
  {
    && (forall k, i :: 0 <= k < |groups| && 0 <= i < |groups[k].events| ==>
          FromLog(log, groups[k].events[i], id, groups[k].stream))
    && (forall k, l :: 0 <= k < l < |groups| ==> groups[k].stream != groups[l].stream)
    && (forall k, i, j :: 0 <= k < |groups| && 0 <= i < j < |groups[k].events| ==>
          groups[k].events[i].position != groups[k].events[j].position)
  }

  /** `version` is what the branch's own stream had when the log was `read` events long. */
  ghost predicate VersionRead(log: Log, id: Uuid, version: nat, read: nat)
  {
    0 < version && read <= |log| && StreamVersion(log[..read], id, id) == version
  }

  /** An own-stream event of the request at index `at`, with nothing on that stream since the version read. */
  ghost predicate LandedAt(log: Log, p: nat, id: Uuid, read: nat, at: nat)
  {
    read <= at < |log| && log[at].writer == p && NothingBetween(log, id, id, read, at)
  }

  ghost predicate RequestOk(p: nat, r: Request, log: Log, bases: map<Uuid, nat>)
  {
    && Known(r.id, r.base, bases)
    && (r.Creating? ==> NoneOn(log, r.id))
    && (r.Creating? || r.Ended? || OpenedIn(log, r.id))
    && (r.Opened? ==> OpenedAs(log, RowOf(r)))
    && (r.Planned? || r.Versioned? || r.Searched? || r.Claimed? ==> GroupsOk(log, r.id, r.groups))
    && (r.Versioned? || r.Searched? || r.DeleteVersioned? ==> VersionRead(log, r.id, r.version, r.read))
    && (r.Searched? ==> NoClaimUpTo(log, r.id, r.version))
    && (r.Claimed? ==> LandedAt(log, p, r.id, r.read, r.claim) && IsClaimOf(log[r.claim], r.id) && r.next <= |r.groups|)
    && (r.Removed? ==> LandedAt(log, p, r.id, r.read, r.at) && IsDeleteOf(log[r.at], r.id))
  }

  /** A copy is of one of its merge's replayed events, is faithful, and came after its merge's claim. */
  ghost predicate CopyOk(c: Copy, log: Log, requests: map<nat, Request>)
  {
    && c.merge in requests && requests[c.merge].Claimed?
    && 0 < c.source <= |log| && 0 < c.target <= |log|
    && var r := requests[c.merge];
    var source, target := log[c.source - 1], log[c.target - 1];
    && source.branch == r.id && !IsLifecycle(source.event)
    && target.branch == NIL && target.writer == c.merge && Payload()(target) == Payload()(source)
    && r.claim + 1 < c.target
    && exists k :: 0 <= k < r.next <= |r.groups| && r.groups[k].stream == source.stream
  }

  ghost predicate RegistryOk(s: State)
  {
    forall id :: id in s.registry ==>
      s.registry[id].id == id && Known(id, s.registry[id].base, s.bases) && OpenedAs(s.log, s.registry[id])
  }

  ghost predicate RequestsOk(s: State)
  {
    && (forall p :: p in s.requests ==> RequestOk(p, s.requests[p], s.log, s.bases))
    && (forall p, q :: p in s.requests && q in s.requests && s.requests[p].Creating? && s.requests[q].Creating? && p != q ==>
          s.requests[p].id != s.requests[q].id)
  }

  /** Every claim and every delete in the log is the doing of the request that says so. */
  predicate Authored(e: StoredEvent, i: nat, requests: map<nat, Request>)
  {
    && (e.event.BranchMerged? ==>
          e.writer in requests && requests[e.writer].Claimed? && requests[e.writer].claim == i)
    && (e.event.BranchDeleted? ==>
          e.writer in requests && requests[e.writer].Removed? && requests[e.writer].at == i)
  }

  /** A copy was recorded for the main event at index `i`. */
  ghost predicate Recorded(copies: seq<Copy>, i: nat)
  {
    exists k :: 0 <= k < |copies| && copies[k].target == i + 1
  }

  ghost predicate EventsOk(log: Log, requests: map<nat, Request>, copies: seq<Copy>)
  {
    && (forall i :: 0 <= i < |log| ==> Authored(log[i], i, requests))
    && (forall i :: 0 <= i < |log| && log[i].branch == NIL && log[i].writer in requests ==> Recorded(copies, i))
  }

  ghost predicate CopiesOk(log: Log, requests: map<nat, Request>, copies: seq<Copy>)
  {
    && (forall i :: 0 <= i < |copies| ==> CopyOk(copies[i], log, requests))
    && (forall i, j :: 0 <= i < j < |copies| ==> copies[i].source != copies[j].source)
    && (forall i, j :: 0 <= i < j < |copies| ==> copies[i].target < copies[j].target)
  }

  ghost predicate Inv(s: State)
  {
    && LogOk(s.log, s.bases) && RegistryOk(s) && RequestsOk(s)
    && EventsOk(s.log, s.requests, s.copies) && CopiesOk(s.log, s.requests, s.copies)
  }

  // --- Growing the log ---

  predicate FromAppend(e: StoredEvent, stream: Uuid, branch: Uuid, event: Event, writer: nat)
  {
    e.stream == stream && e.branch == branch && e.event == event && e.writer == writer
  }

  /** One append on a pair, as the log shows it. */
  ghost predicate Grew(log: Log, later: Log, stream: Uuid, branch: Uuid, events: seq<Event>, writer: nat)
  {
    && log <= later && ValidLog(later) && |later| == |log| + |events|
    && forall i :: |log| <= i < |later| ==> FromAppend(later[i], stream, branch, events[i - |log|], writer)
  }

  lemma AppendGrows(log: Log, stream: Uuid, events: seq<Event>, expected: int, scope: Scope, writer: nat)
    requires ValidLog(log) && Append(log, stream, events, expected, scope, writer).Some?
    ensures Grew(log, Append(log, stream, events, expected, scope, writer).value, stream, scope.branch, events, writer)
  {
    hide CurrentVersion, ValidLog;
    AppendKeepsValid(log, stream, scope, events, writer);
  }

  lemma OpenedInLater(log: Log, later: Log, id: Uuid)
    requires OpenedIn(log, id) && log <= later
    ensures OpenedIn(later, id)
  {
    var i :| 0 <= i < |log| && IsFork(log[i]) && log[i].branch == id;
    assert later[i] == log[i];
  }

  lemma OpenedInVersion(log: Log, id: Uuid)
    requires ValidLog(log) && OpenedIn(log, id)
    ensures StreamVersion(log, id, id) > 0
  {
    var i :| 0 <= i < |log| && IsFork(log[i]) && log[i].branch == id;
    StreamVersionIsMax(log, id, id, i);
  }

  lemma RequestGrows(p: nat, r: Request, log: Log, later: Log, bases: map<Uuid, nat>, more: map<Uuid, nat>)
    requires RequestOk(p, r, log, bases) && log <= later && ValidLog(later)
    requires forall id :: id in bases ==> id in more && more[id] == bases[id]
    requires r.Creating? ==> forall i :: |log| <= i < |later| ==> later[i].branch != r.id
    ensures RequestOk(p, r, later, more)
  {
    hide OpenedIn, OpenedAs, ValidLog, StreamVersion, Forked, GroupsOk, LandedAt, VersionRead, NoClaimUpTo, NoneOn,
         NothingBetween;
    if r.Creating? {
      StillNoneOn(log, later, r.id);
    } else if !r.Ended? {
      OpenedInLater(log, later, r.id);
    }
    if r.Opened? {
      OpenedLater(log, later, RowOf(r));
    }
    if r.Planned? || r.Versioned? || r.Searched? || r.Claimed? {
      GroupsGrow(log, later, r.id, r.groups);
    }
    if r.Versioned? || r.Searched? || r.DeleteVersioned? {
      VersionReadLater(log, later, r.id, r.version, r.read);
    }
    if r.Searched? {
      StillNoClaim(log, later, r.id, r.version, r.read);
    }
    if r.Claimed? {
      LandedLater(log, later, p, r.id, r.read, r.claim);
    }
    if r.Removed? {
      LandedLater(log, later, p, r.id, r.read, r.at);
    }
  }

  lemma GroupsGrow(log: Log, later: Log, id: Uuid, groups: seq<StreamGroup>)
    requires GroupsOk(log, id, groups) && log <= later
    ensures GroupsOk(later, id, groups)
  {
    forall k, i | 0 <= k < |groups| && 0 <= i < |groups[k].events|
      ensures FromLog(later, groups[k].events[i], id, groups[k].stream)
    {
      assert FromLog(log, groups[k].events[i], id, groups[k].stream);
    }
  }

  lemma VersionReadLater(log: Log, later: Log, id: Uuid, version: nat, read: nat)
    requires VersionRead(log, id, version, read) && log <= later
    ensures VersionRead(later, id, version, read)
  {
    assert later[..read] == log[..read];
  }

  lemma LandedLater(log: Log, later: Log, p: nat, id: Uuid, read: nat, at: nat)
    requires LandedAt(log, p, id, read, at) && log <= later
    ensures LandedAt(later, p, id, read, at) && at < |log| && later[at] == log[at]
  {
  }

  lemma StillNoClaim(log: Log, later: Log, id: Uuid, version: nat, read: nat)
    requires VersionRead(log, id, version, read) && NoClaimUpTo(log, id, version) && log <= later && ValidLog(later)
    ensures NoClaimUpTo(later, id, version)
  {
    forall i | 0 <= i < |later| && IsClaimOf(later[i], id) ensures later[i].version > version {
      if i < |log| {
        assert log[i] == later[i];
      } else {
        assert later[..read] == log[..read];
        NewEventsAreNewer(later[..read], later, i);
      }
    }
  }

  /** Data events, on main or on a branch whose id is known. */
  lemma LogGrowsData(log: Log, later: Log, bases: map<Uuid, nat>, stream: Uuid, branch: Uuid, events: seq<Event>, writer: nat)
    requires LogOk(log, bases) && (branch == NIL || branch in bases)
    requires Grew(log, later, stream, branch, events, writer) && forall e :: e in events ==> !IsLifecycle(e)
    ensures LogOk(later, bases)
  {
    hide ValidLog, Forked;
    PositionsAreIndices(later);
    forall i | |log| <= i < |later| ensures !IsLifecycle(later[i].event) && InScope(later[i], bases) {
      assert FromAppend(later[i], stream, branch, events[i - |log|], writer) && events[i - |log|] in events;
    }
    ForksStand(log, later);
  }

  /** One lifecycle event on a branch's own stream: an opening where nothing was, or a claim where none was. */
  lemma LogGrowsOwn(log: Log, later: Log, bases: map<Uuid, nat>, id: Uuid, event: Event, writer: nat)
    requires LogOk(log, bases) && id in bases && IsLifecycle(event)
    requires Grew(log, later, id, id, [event], writer)
    requires event.BranchMerged? ==> NoClaim(log, id)
    requires event.BranchCreated? ==> NoneOn(log, id) && event.base == bases[id]
    ensures LogOk(later, bases)
  {
    hide ValidLog, Forked;
    PositionsAreIndices(later);
    var n := |log|;
    assert FromAppend(later[n], id, id, [event][0], writer);
    forall i | 0 <= i < |later| ensures InScope(later[i], bases) {
      assert i < n ==> later[i] == log[i];
    }
    forall i | 0 <= i < n && later[i].event.BranchMerged? && event.BranchMerged? ensures later[i].branch != id {
      assert later[i] == log[i] && log[i] in log && InScope(log[i], bases);
    }
    if event.BranchCreated? {
      ForkAdded(log, later);
    } else {
      ForksStand(log, later);
    }
  }

  /** A request keeps its name for what it did: a claim stays its claim, a delete its delete. */
  predicate Onward(r: Request, t: Request)
  {
    && (r.Claimed? ==>
          t.Claimed? && t.id == r.id && t.groups == r.groups && t.claim == r.claim && r.next <= t.next <= |t.groups|)
    && (r.Removed? ==> t == r)
  }

  ghost predicate AllOnward(requests: map<nat, Request>, later: map<nat, Request>)
  {
    forall p :: p in requests ==> p in later && Onward(requests[p], later[p])
  }

  lemma CopyGrows(c: Copy, log: Log, later: Log, requests: map<nat, Request>, onward: map<nat, Request>)
    requires CopyOk(c, log, requests) && log <= later && AllOnward(requests, onward)
    ensures CopyOk(c, later, onward)
  {
    var r, u := requests[c.merge], onward[c.merge];
    assert later[c.source - 1] == log[c.source - 1] && later[c.target - 1] == log[c.target - 1];
    var k :| 0 <= k < r.next <= |r.groups| && r.groups[k].stream == log[c.source - 1].stream;
    assert u.groups[k].stream == later[c.source - 1].stream;
  }

  lemma CopiesGrow(log: Log, later: Log, requests: map<nat, Request>, onward: map<nat, Request>, copies: seq<Copy>)
    requires CopiesOk(log, requests, copies) && log <= later && AllOnward(requests, onward)
    ensures CopiesOk(later, onward, copies)
  {
    hide CopyOk, AllOnward;
    forall i | 0 <= i < |copies| ensures CopyOk(copies[i], later, onward) {
      CopyGrows(copies[i], log, later, requests, onward);
    }
  }

  /** What was authored and recorded stays so; the new events have to be. */
  lemma EventsGrow(log: Log, later: Log, requests: map<nat, Request>, onward: map<nat, Request>, copies: seq<Copy>, more: seq<Copy>)
    requires EventsOk(log, requests, copies) && log <= later && AllOnward(requests, onward) && copies <= more
    requires forall i :: 0 <= i < |log| && log[i].branch == NIL && log[i].writer in onward ==> log[i].writer in requests
    requires forall i :: |log| <= i < |later| ==> Authored(later[i], i, onward)
    requires forall i :: |log| <= i < |later| && later[i].branch == NIL && later[i].writer in onward ==> Recorded(more, i)
    ensures EventsOk(later, onward, more)
  {
    forall i | 0 <= i < |later| ensures Authored(later[i], i, onward) {
      if i < |log| {
        assert later[i] == log[i] && Authored(log[i], i, requests);
      }
    }
    forall i | 0 <= i < |later| && later[i].branch == NIL && later[i].writer in onward ensures Recorded(more, i) {
      if i < |log| {
        assert later[i] == log[i] && Recorded(copies, i);
        var k :| 0 <= k < |copies| && copies[k].target == i + 1;
        assert more[k] == copies[k];
      }
    }
  }

  /** Nobody who is creating a branch sees an event on it, when the log grows on main or on an open branch. */
  lemma RequestsGrow(s: State, later: Log, more: map<Uuid, nat>, branch: Uuid, p: nat)
    requires RequestsOk(s) && s.log <= later && ValidLog(later) && NIL !in s.bases
    requires forall id :: id in s.bases ==> id in more && more[id] == s.bases[id]
    requires forall i :: |s.log| <= i < |later| ==> later[i].branch == branch
    requires branch == NIL || OpenedIn(s.log, branch)
      || (p in s.requests && s.requests[p].Creating? && s.requests[p].id == branch)
    ensures forall q :: q in s.requests && q != p ==> RequestOk(q, s.requests[q], later, more)
    ensures p in s.requests && !s.requests[p].Creating? ==> RequestOk(p, s.requests[p], later, more)
  {
    hide RequestOk, ValidLog, OpenedIn;
    forall q | q in s.requests && (q != p || !s.requests[q].Creating?) ensures RequestOk(q, s.requests[q], later, more) {
      assert RequestOk(q, s.requests[q], s.log, s.bases);
      if s.requests[q].Creating? && (branch == NIL || OpenedIn(s.log, branch)) {
        UnopenedBranch(q, s.requests[q], s.log, s.bases, branch);
      }
      RequestGrows(q, s.requests[q], s.log, later, s.bases, more);
    }
  }

  lemma UnopenedBranch(p: nat, r: Request, log: Log, bases: map<Uuid, nat>, branch: Uuid)
    requires RequestOk(p, r, log, bases) && r.Creating? && NIL !in bases && (branch == NIL || OpenedIn(log, branch))
    ensures r.id != branch
  {
  }

  lemma KnownId(p: nat, r: Request, log: Log, bases: map<Uuid, nat>)
    requires RequestOk(p, r, log, bases)
    ensures r.id in bases && bases[r.id] == r.base
  {
  }

  lemma RequestIsOk(s: State, p: nat)
    requires Inv(s) && p in s.requests
    ensures RequestOk(p, s.requests[p], s.log, s.bases) && ValidLog(s.log)
  {
  }

  // --- The steps ---

  /**
   * The step after which request `p` stands at `u`, with one event more on its branch's own stream, or
   * none.
   */
  lemma Advances(s: State, t: State, p: nat, u: Request)
    requires Inv(s) && LogOk(t.log, t.bases) && RegistryOk(t) && s.log <= t.log && t.copies == s.copies
    requires forall id :: id in s.bases ==> id in t.bases && t.bases[id] == s.bases[id]
    requires t.requests == s.requests[p := u] && RequestOk(p, u, t.log, t.bases)
    requires if p in s.requests then Onward(s.requests[p], u) else !Used(s, p)
    requires u.Creating? ==> u.id !in s.bases
    requires forall i :: |s.log| <= i < |t.log| ==> t.log[i].branch == u.id && Authored(t.log[i], i, t.requests)
    requires t.log == s.log || OpenedIn(s.log, u.id) || (p in s.requests && s.requests[p].Creating? && s.requests[p].id == u.id)
    ensures Inv(t)
  {
    hide RequestOk, CopyOk, Authored, ValidLog, Forked, OpenedIn, Recorded, InScope, OpenedAs;
    ClaimsStand(s);
    assert AllOnward(s.requests, t.requests);
    RequestsGrow(s, t.log, t.bases, if t.log == s.log then NIL else u.id, p);
    assert u.Creating? ==> forall q :: q in s.requests && q != p ==> s.requests[q].id != u.id by {
      forall q | q in s.requests ensures s.requests[q].id in s.bases {
        KnownId(q, s.requests[q], s.log, s.bases);
      }
    }
    CopiesGrow(s.log, t.log, s.requests, t.requests, s.copies);
    KnownId(p, u, t.log, t.bases);
    EventsGrow(s.log, t.log, s.requests, t.requests, s.copies, t.copies);
  }

  lemma RegistryGrows(s: State, t: State)
    requires RegistryOk(s) && s.log <= t.log && t.registry == s.registry
    requires forall id :: id in s.bases ==> id in t.bases && t.bases[id] == s.bases[id]
    ensures RegistryOk(t)
  {
    hide OpenedAs;
    forall id | id in t.registry
      ensures t.registry[id].id == id && Known(id, t.registry[id].base, t.bases) && OpenedAs(t.log, t.registry[id])
    {
      OpenedLater(s.log, t.log, s.registry[id]);
    }
  }

  /**
   * A lifecycle append at a version that was read lands exactly when nothing has been written to the
   * branch's own stream since.
   */
  lemma LandsIff(log: Log, id: Uuid, base: nat, version: nat, read: nat, event: Event, p: nat)
    requires ValidLog(log) && VersionRead(log, id, version, read)
    ensures Append(log, id, [event], version, Scope(id, base), p).Some? <==> NothingBetween(log, id, id, read, |log|)
  {
    VersionStandsIff(log, id, id, read);
    StreamVersionPrefix(log, id, id, read);
  }

  lemma LoggedKeeps(s: State, p: nat, event: Event, expected: int, r: Request, u: Request)
    requires Inv(s) && p in s.requests && s.requests[p] == r && !r.Claimed? && !r.Removed? && !u.Creating?
    requires r.Creating? || OpenedIn(s.log, r.id)
    requires IsLifecycle(event) && u.id == r.id && (event.BranchCreated? ==> NoneOn(s.log, r.id) && event.base == r.base)
    requires event.BranchMerged? ==> u.Claimed? && u.claim == |s.log|
    requires event.BranchDeleted? ==> u.Removed? && u.at == |s.log|
    requires Append(s.log, r.id, [event], expected, Scope(r.id, r.base), p).Some? ==>
      && (event.BranchMerged? ==> NoClaim(s.log, r.id))
      && RequestOk(p, u, Append(s.log, r.id, [event], expected, Scope(r.id, r.base), p).value, s.bases)
    ensures Inv(Logged(s, p, event, expected, r, u))
  {
    hide RequestOk, CopiesOk, EventsOk, ValidLog, Forked, OpenedIn, InScope, RegistryOk, RequestsOk, Append;
    var appended := Append(s.log, r.id, [event], expected, Scope(r.id, r.base), p);
    var t := Logged(s, p, event, expected, r, u);
    RequestIsOk(s, p);
    KnownId(p, r, s.log, s.bases);
    if appended.Some? {
      AppendGrows(s.log, r.id, [event], expected, Scope(r.id, r.base), p);
      LogGrowsOwn(s.log, t.log, s.bases, r.id, event, p);
      RegistryGrows(s, t);
      assert FromAppend(t.log[|s.log|], r.id, r.id, [event][0], p);
      Advances(s, t, p, u);
    } else {
      EndedOk(p, r, s.log, s.bases);
      RegistryGrows(s, t);
      Advances(s, t, p, Ended(r.id, r.base));
    }
  }

  lemma EndedOk(p: nat, r: Request, log: Log, bases: map<Uuid, nat>)
    requires RequestOk(p, r, log, bases)
    ensures RequestOk(p, Ended(r.id, r.base), log, bases)
  {
  }

  /** Where an own-stream append at a version that was read landed. */
  lemma Lands(log: Log, id: Uuid, base: nat, version: nat, read: nat, event: Event, p: nat)
    requires ValidLog(log) && VersionRead(log, id, version, read)
    requires Append(log, id, [event], version, Scope(id, base), p).Some?
    ensures
      var later := Append(log, id, [event], version, Scope(id, base), p).value;
      && Grew(log, later, id, id, [event], p)
      && LandedAt(later, p, id, read, |log|) && later[|log|].event == event && later[|log|].stream == id && later[|log|].branch == id
      && StreamVersion(log, id, id) == version
  {
    hide Append, ValidLog;
    LandsIff(log, id, base, version, read, event, p);
    VersionStandsIff(log, id, id, read);
    AppendGrows(log, id, [event], version, Scope(id, base), p);
    var later := Append(log, id, [event], version, Scope(id, base), p).value;
    assert FromAppend(later[|log|], id, id, [event][0], p);
  }

  /** A claim that wins its version check finds the branch unclaimed, however old the search is. */
  lemma ClaimKeeps(s: State, p: nat, r: Request, mergedAt: nat, note: string)
    requires Inv(s) && p in s.requests && s.requests[p] == r && r.Searched?
    ensures Inv(MergeStep(s, p, r, MergeClaims(p, mergedAt, note)))
  {
    hide Inv, Append, ValidLog, OpenedIn, GroupsOk, StreamVersion, NoClaim, NoClaimUpTo, VersionRead, LandedAt, Logged;
    var event := BranchMerged(r.base, mergedAt, note);
    var u := Claimed(r.id, r.base, r.groups, r.read, |s.log|, 0);
    RequestIsOk(s, p);
    if Append(s.log, r.id, [event], r.version, Scope(r.id, r.base), p).Some? {
      var later := Append(s.log, r.id, [event], r.version, Scope(r.id, r.base), p).value;
      Lands(s.log, r.id, r.base, r.version, r.read, event, p);
      Unclaimed(s.log, r.id, r.version);
      RequestGrows(p, Planned(r.id, r.base, r.groups), s.log, later, s.bases, s.bases);
      assert RequestOk(p, u, later, s.bases);
    }
    LoggedKeeps(s, p, event, r.version, r, u);
  }

  lemma Unclaimed(log: Log, id: Uuid, version: nat)
    requires ValidLog(log) && NoClaimUpTo(log, id, version) && StreamVersion(log, id, id) <= version
    ensures NoClaim(log, id)
  {
    forall e | e in log && e.stream == id && e.branch == id ensures !e.event.BranchMerged? {
      var i :| 0 <= i < |log| && log[i] == e;
      StreamVersionIsMax(log, id, id, i);
      assert !IsClaimOf(log[i], id);
    }
  }

  lemma DeleteKeeps(s: State, p: nat, r: Request)
    requires Inv(s) && p in s.requests && s.requests[p] == r && r.DeleteVersioned?
    ensures Inv(OpenOrClose(s, p, r, DeleteAppends(p)))
  {
    hide Inv, Append, ValidLog, OpenedIn, GroupsOk, StreamVersion, LandedAt, Logged;
    var u := Removed(r.id, r.base, r.read, |s.log|);
    RequestIsOk(s, p);
    if Append(s.log, r.id, [BranchDeleted], r.version, Scope(r.id, r.base), p).Some? {
      var later := Append(s.log, r.id, [BranchDeleted], r.version, Scope(r.id, r.base), p).value;
      Lands(s.log, r.id, r.base, r.version, r.read, BranchDeleted, p);
      OpenedInLater(s.log, later, r.id);
    }
    LoggedKeeps(s, p, BranchDeleted, r.version, r, u);
  }

  lemma CreateAppendKeeps(s: State, p: nat, r: Request)
    requires Inv(s) && p in s.requests && s.requests[p] == r && r.Creating?
    ensures Inv(OpenOrClose(s, p, r, CreateAppends(p)))
  {
    hide Inv, Append, ValidLog, GroupsOk, Logged, NoneOn;
    var event := BranchCreated(r.base, r.name, r.description);
    var u := Opened(r.id, r.base, r.name, r.description);
    RequestIsOk(s, p);
    if Append(s.log, r.id, [event], -1, Scope(r.id, r.base), p).Some? {
      var later := Append(s.log, r.id, [event], -1, Scope(r.id, r.base), p).value;
      AppendGrows(s.log, r.id, [event], -1, Scope(r.id, r.base), p);
      assert FromAppend(later[|s.log|], r.id, r.id, [event][0], p);
      IdIsNotMain(s, p);
    }
    LoggedKeeps(s, p, event, -1, r, u);
  }

  lemma IdIsNotMain(s: State, p: nat)
    requires Inv(s) && p in s.requests
    ensures s.requests[p].id != NIL
  {
    RequestIsOk(s, p);
  }

  /** A plan's groups hold the branch's own events, each once, sorted by stream. */
  lemma PlanGroupsOk(log: Log, b: Branch, resolutions: Resolutions)
    requires ValidLog(log)
    ensures GroupsOk(log, b.id, ActiveGroups(GroupsOf(BranchSide(log, b)), resolutions))
  {
    var side := BranchSide(log, b);
    SideIsOrdered(log, b);
    var groups := GroupsOf(side);
    StreamIdsDistinct(side);
    forall k | 0 <= k < |groups| ensures GroupOk(log, b.id, groups[k]) {
      GroupIsOk(log, b.id, side, StreamIds(side)[k]);
    }
    ActiveAreOk(log, b.id, groups, resolutions);
  }

  ghost predicate GroupOk(log: Log, id: Uuid, g: StreamGroup)
  {
    && (forall i :: 0 <= i < |g.events| ==> FromLog(log, g.events[i], id, g.stream))
    && Rising(g.events)
  }

  ghost predicate Rising(events: Log)
  {
    forall i, j :: 0 <= i < j < |events| ==> events[i].position < events[j].position
  }

  lemma {:induction false} FilterRising(keep: StoredEvent -> bool, s: Log)
    requires Rising(s)
    ensures Rising(Filter(keep, s))
  {
    if s != [] {
      FilterRising(keep, s[..|s| - 1]);
      FilterMembers(keep, s[..|s| - 1]);
      var rest := Filter(keep, s[..|s| - 1]);
      forall i | 0 <= i < |rest| ensures rest[i].position < s[|s| - 1].position {
        assert rest[i] in s[..|s| - 1];
      }
    }
  }

  lemma LogRises(log: Log)
    requires ValidLog(log)
    ensures Rising(log) && forall i :: 0 <= i < |log| ==> log[i].position == i + 1
  {
    forall i | 0 <= i < |log| ensures log[i].position == i + 1 {
      ValidPrefix(log, i);
    }
  }

  lemma SideIsOrdered(log: Log, b: Branch)
    requires ValidLog(log)
    ensures Rising(BranchSide(log, b))
    ensures forall e :: e in BranchSide(log, b) ==> FromLog(log, e, b.id, e.stream)
  {
    LogRises(log);
    var own := Filter(After(b.id, b.base), log);
    FilterRising(After(b.id, b.base), log);
    var capped := Capped(own, MAX_COMPARISON_EVENTS);
    FilterRising(NotLifecycle(), capped);
    FilterMembers(NotLifecycle(), capped);
    FilterMembers(After(b.id, b.base), log);
    forall e | e in BranchSide(log, b) ensures FromLog(log, e, b.id, e.stream) {
      assert e in capped && e in own && e in log;
      var i :| 0 <= i < |log| && log[i] == e;
    }
  }

  lemma GroupIsOk(log: Log, id: Uuid, side: Log, stream: Uuid)
    requires Rising(side) && forall e :: e in side ==> FromLog(log, e, id, e.stream)
    ensures GroupOk(log, id, GroupFor(side, stream))
  {
    FilterRising(OfStream(stream), side);
    FilterMembers(OfStream(stream), side);
    var events := Filter(OfStream(stream), side);
    forall i | 0 <= i < |events| ensures FromLog(log, events[i], id, stream) {
      assert events[i] in events;
    }
  }

  lemma {:induction false} ActiveAreOk(log: Log, id: Uuid, groups: seq<StreamGroup>, resolutions: Resolutions)
    requires forall k :: 0 <= k < |groups| ==> GroupOk(log, id, groups[k])
    requires forall k, l :: 0 <= k < l < |groups| ==> groups[k].stream != groups[l].stream
    ensures GroupsOk(log, id, ActiveGroups(groups, resolutions))
  {
    if groups != [] {
      var shorter, last := groups[..|groups| - 1], groups[|groups| - 1];
      ActiveAreOk(log, id, shorter, resolutions);
      FilterMembers(Replayed(resolutions), shorter);
      var kept := ActiveGroups(shorter, resolutions);
      forall k | 0 <= k < |kept| ensures kept[k].stream != last.stream {
        assert kept[k] in shorter;
      }
      assert GroupOk(log, id, last);
    }
  }

  /** One replay append copies events no merge has copied before. */
  lemma ReplayKeeps(s: State, p: nat, r: Request, expected: int)
    requires Inv(s) && p in s.requests && s.requests[p] == r && r.Claimed? && r.next < |r.groups|
    requires ReplayAppend(s, p, r, expected).Some?
    ensures Inv(AfterReplay(s, p, r, ReplayAppend(s, p, r, expected).value))
  {
    hide CopyOk, Append, ValidLog, Forked, InScope, OpenedAs, OpenedIn, Recorded, Authored, RequestOk, CopiesOk, EventsOk;
    var g := r.groups[r.next];
    var events, later := Map(EventOf(), g.events), ReplayAppend(s, p, r, expected).value;
    var t := AfterReplay(s, p, r, later);
    RequestIsOk(s, p);
    AppendGrows(s.log, g.stream, events, expected, MAIN_SCOPE, p);
    forall e | e in events ensures !IsLifecycle(e) {
      var i :| 0 <= i < |events| && events[i] == e;
      GroupIsFromLog(p, r, s.log, s.bases, i);
    }
    LogGrowsData(s.log, later, s.bases, g.stream, NIL, events, p);
    RegistryGrows(s, t);
    forall i | |s.log| <= i < |later| ensures later[i].branch == NIL && Authored(later[i], i, t.requests) && Recorded(t.copies, i) {
      assert FromAppend(later[i], g.stream, NIL, events[i - |s.log|], p) && events[i - |s.log|] in events;
      DataIsAuthored(later[i], i, t.requests);
      CopyIsRecorded(s, p, r, i - |s.log|);
    }
    RequestsGrow(s, later, s.bases, NIL, p);
    NextGroupOk(p, r, later, s.bases);
    ClaimsStand(s);
    assert AllOnward(s.requests, t.requests);
    EventsGrow(s.log, later, s.requests, t.requests, s.copies, t.copies);
    CopiesGrow(s.log, later, s.requests, t.requests, s.copies);
    MadeOk(s, t, p, r);
    var made := CopiesOf(g.events, |s.log|, p);
    forall i | 0 <= i < |s.copies|
      ensures s.copies[i].target <= |s.log| && forall j :: 0 <= j < |made| ==> s.copies[i].source != made[j].source
    {
      EarlierCopies(s, p, r, i);
    }
    CopiesJoin(later, t.requests, s.copies, made, |s.log|);
  }

  lemma DataIsAuthored(e: StoredEvent, i: nat, requests: map<nat, Request>)
    requires !IsLifecycle(e.event)
    ensures Authored(e, i, requests)
  {
  }

  lemma CopyIsRecorded(s: State, p: nat, r: Request, i: nat)
    requires r.Claimed? && r.next < |r.groups| && i < |r.groups[r.next].events|
    ensures Recorded(s.copies + CopiesOf(r.groups[r.next].events, |s.log|, p), |s.log| + i)
  {
    assert (s.copies + CopiesOf(r.groups[r.next].events, |s.log|, p))[|s.copies| + i].target == |s.log| + i + 1;
  }

  lemma NextGroupOk(p: nat, r: Request, log: Log, bases: map<Uuid, nat>)
    requires RequestOk(p, r, log, bases) && r.Claimed? && r.next < |r.groups|
    ensures RequestOk(p, r.(next := r.next + 1), log, bases) && Onward(r, r.(next := r.next + 1))
  {
  }

  lemma GroupIsFromLog(p: nat, r: Request, log: Log, bases: map<Uuid, nat>, i: nat)
    requires RequestOk(p, r, log, bases) && r.Claimed? && r.next < |r.groups| && i < |r.groups[r.next].events|
    ensures FromLog(log, r.groups[r.next].events[i], r.id, r.groups[r.next].stream)
  {
  }

  /** The events of the next group landed in a row at the end of the log. */
  ghost predicate GroupLanded(s: State, t: State, p: nat, r: Request)
    requires r.Claimed? && r.next < |r.groups|
  {
    && Grew(s.log, t.log, r.groups[r.next].stream, NIL, Map(EventOf(), r.groups[r.next].events), p)
    && t == AfterReplay(s, p, r, t.log)
  }

  /** Copies made now, of events not copied before, join those made earlier. */
  lemma CopiesJoin(log: Log, requests: map<nat, Request>, copies: seq<Copy>, made: seq<Copy>, n: nat)
    requires CopiesOk(log, requests, copies) && CopiesOk(log, requests, made)
    requires forall i :: 0 <= i < |copies| ==> copies[i].target <= n
    requires forall j :: 0 <= j < |made| ==> made[j].target > n
    requires forall i, j :: 0 <= i < |copies| && 0 <= j < |made| ==> copies[i].source != made[j].source
    ensures CopiesOk(log, requests, copies + made)
  {
    hide CopyOk;
    var all, k := copies + made, |copies|;
    assert forall i :: 0 <= i < |all| ==> all[i] == if i < k then copies[i] else made[i - k];
  }

  lemma MadeOk(s: State, t: State, p: nat, r: Request)
    requires RequestOk(p, r, s.log, s.bases) && r.Claimed? && r.next < |r.groups| && GroupLanded(s, t, p, r)
    ensures CopiesOk(t.log, t.requests, CopiesOf(r.groups[r.next].events, |s.log|, p))
  {
    hide CopyOk, Grew, OpenedIn, LandedAt;
    var g, made := r.groups[r.next], CopiesOf(r.groups[r.next].events, |s.log|, p);
    forall i | 0 <= i < |made| ensures CopyOk(made[i], t.log, t.requests) {
      NewCopyOk(s, t, p, r, i);
    }
    forall i, j | 0 <= i < j < |made| ensures made[i].source != made[j].source {
      CopiedOnce(s.log, r.id, r.groups, r.next, i, j);
    }
  }

  lemma NewCopyOk(s: State, t: State, p: nat, r: Request, i: nat)
    requires RequestOk(p, r, s.log, s.bases) && r.Claimed? && r.next < |r.groups|
    requires GroupLanded(s, t, p, r) && i < |r.groups[r.next].events|
    ensures CopyOk(CopiesOf(r.groups[r.next].events, |s.log|, p)[i], t.log, t.requests)
  {
    hide ValidLog, OpenedIn, NothingBetween;
    var g, n := r.groups[r.next], |s.log|;
    var c, u := CopiesOf(g.events, n, p)[i], t.requests[p];
    assert FromLog(s.log, g.events[i], r.id, g.stream);
    assert FromAppend(t.log[n + i], g.stream, NIL, Map(EventOf(), g.events)[i], p);
    assert t.log[c.source - 1] == s.log[c.source - 1];
    assert u.groups[r.next].stream == g.stream;
  }

  lemma CopiedOnce(log: Log, id: Uuid, groups: seq<StreamGroup>, k: nat, i: nat, j: nat)
    requires GroupsOk(log, id, groups) && k < |groups| && i < j < |groups[k].events|
    ensures groups[k].events[i].position != groups[k].events[j].position
  {
  }

  /** The next group's events differ from every event already copied, by this merge or by another. */
  lemma CopiedAfresh(s: State, p: nat, r: Request, c: Copy, i: nat)
    requires LogOk(s.log, s.bases) && p in s.requests && s.requests[p] == r && RequestOk(p, r, s.log, s.bases)
    requires CopyOk(c, s.log, s.requests) && RequestOk(c.merge, s.requests[c.merge], s.log, s.bases)
    requires r.Claimed? && r.next < |r.groups| && i < |r.groups[r.next].events|
    ensures c.source != r.groups[r.next].events[i].position && c.target <= |s.log|
  {
    hide ValidLog, Forked, OpenedIn, NothingBetween;
    var e, q := r.groups[r.next].events[i], s.requests[c.merge];
    assert FromLog(s.log, e, r.id, r.groups[r.next].stream);
    assert q.id == r.id ==> q.claim == r.claim;
  }

  lemma CopiesAreOk(s: State, i: nat)
    requires Inv(s) && i < |s.copies|
    ensures CopyOk(s.copies[i], s.log, s.requests)
  {
  }

  lemma EarlierCopies(s: State, p: nat, r: Request, i: nat)
    requires Inv(s) && p in s.requests && s.requests[p] == r && r.Claimed? && r.next < |r.groups| && i < |s.copies|
    ensures s.copies[i].target <= |s.log|
    ensures forall j :: 0 <= j < |r.groups[r.next].events| ==> s.copies[i].source != r.groups[r.next].events[j].position
  {
    hide LogOk, RegistryOk, RequestsOk, EventsOk, OpenedIn, LandedAt, GroupsOk;
    CopiesAreOk(s, i);
    RequestIsOk(s, p);
    RequestIsOk(s, s.copies[i].merge);
    forall j | 0 <= j < |r.groups[r.next].events| ensures s.copies[i].source != r.groups[r.next].events[j].position {
      CopiedAfresh(s, p, r, s.copies[i], j);
    }
  }

  /** A new request that has read a registry row. */
  lemma Starts(s: State, p: nat, r: Request)
    requires Inv(s) && !Used(s, p) && (r.Merging? || r.Deleting?)
    requires r.id in s.registry && r.base == s.registry[r.id].base
    ensures Inv(Advance(s, p, r))
  {
    hide CopiesOk, LogOk, EventsOk, RequestsOk;
    RowIsOpened(s.log, s.registry[r.id]);
    Advances(s, Advance(s, p, r), p, r);
  }

  lemma RowIsOpened(log: Log, b: Branch)
    requires OpenedAs(log, b)
    ensures OpenedIn(log, b.id)
  {
  }

  lemma CreateKeeps(s: State, p: nat, r: Request)
    requires Inv(s) && !Used(s, p) && r.Creating? && r.id !in s.bases && r.id != NIL && r.base == |s.log|
    ensures Inv(Advance(s.(bases := s.bases[r.id := |s.log|]), p, r))
  {
    hide CopiesOk, EventsOk, RequestsOk, ValidLog, Forked, OpenedAs;
    var t := Advance(s.(bases := s.bases[r.id := |s.log|]), p, r);
    RegistryGrows(s, t);
    forall i | 0 <= i < |s.log| ensures s.log[i].branch != r.id {
      assert InScope(s.log[i], s.bases);
    }
    forall i | 0 <= i < |s.log| ensures InScope(s.log[i], t.bases) {
      assert InScope(s.log[i], s.bases);
    }
    Advances(s, t, p, r);
  }

  lemma NextKeeps(s: State, step: Step)
    requires Inv(s)
    ensures Inv(Next(s, step))
  {
    hide Inv, Append, Continue, Advance, Used;
    match step
    case CreateReads(p, id, name, description) =>
      if !Used(s, p) && id !in s.bases && id != NIL {
        CreateKeeps(s, p, Creating(id, |s.log|, name, description));
      }
    case Writes(p, stream, branch, events, expected) =>
      if Next(s, step) != s {
        WriteKeeps(s, step);
      }
    case MergeReads(p, id) =>
      if !Used(s, p) && id in s.registry {
        RowsAreKeyed(s, id);
        Starts(s, p, Merging(id, s.registry[id].base));
      }
    case DeleteReads(p, id) =>
      if !Used(s, p) && id in s.registry {
        RowsAreKeyed(s, id);
        Starts(s, p, Deleting(id, s.registry[id].base));
      }
    case _ =>
      if step.p in s.requests {
        OpenOrCloseOrMerge(s, step.p, s.requests[step.p], step);
      }
  }

  lemma RowsAreKeyed(s: State, id: Uuid)
    requires Inv(s) && id in s.registry
    ensures s.registry[id].id == id && OpenedIn(s.log, id) && Known(id, s.registry[id].base, s.bases)
  {
    RowIsOpened(s.log, s.registry[id]);
  }

  lemma WriteKeeps(s: State, step: Step)
    requires Inv(s) && step.Writes? && Next(s, step) != s
    ensures Inv(Next(s, step))
  {
    hide CopiesOk, Append, ValidLog, Forked, InScope, OpenedAs, OpenedIn, Recorded, Authored, RequestOk;
    var t := Next(s, step);
    var scope := if step.branch == NIL then MAIN_SCOPE else Scope(step.branch, s.registry[step.branch].base);
    AppendGrows(s.log, step.stream, step.events, step.expected, scope, step.p);
    if step.branch != NIL {
      RowsAreKeyed(s, step.branch);
    }
    LogGrowsData(s.log, t.log, s.bases, step.stream, step.branch, step.events, step.p);
    RegistryGrows(s, t);
    forall i | |s.log| <= i < |t.log|
      ensures t.log[i].branch == step.branch && t.log[i].writer == step.p && Authored(t.log[i], i, t.requests)
    {
      assert FromAppend(t.log[i], step.stream, step.branch, step.events[i - |s.log|], step.p);
      assert step.events[i - |s.log|] in step.events;
      DataIsAuthored(t.log[i], i, t.requests);
    }
    RequestsGrow(s, t.log, s.bases, step.branch, step.p);
    assert AllOnward(s.requests, t.requests) by {
      ClaimsStand(s);
    }
    EventsGrow(s.log, t.log, s.requests, t.requests, s.copies, t.copies);
    CopiesGrow(s.log, t.log, s.requests, t.requests, s.copies);
  }

  lemma ClaimsStand(s: State)
    requires Inv(s)
    ensures AllOnward(s.requests, s.requests)
  {
    forall p | p in s.requests ensures Onward(s.requests[p], s.requests[p]) {
      RequestIsOk(s, p);
    }
  }

  /** A step that only changes what one request knows. */
  lemma Moves(s: State, p: nat, r: Request, u: Request)
    requires Inv(s) && p in s.requests && s.requests[p] == r && !r.Claimed? && !r.Removed? && !u.Creating?
    requires RequestOk(p, u, s.log, s.bases)
    ensures Inv(Advance(s, p, u))
  {
    hide CopiesOk, LogOk, RequestOk, EventsOk, RequestsOk;
    Advances(s, Advance(s, p, u), p, u);
  }

  lemma OpenOrCloseKeeps(s: State, p: nat, r: Request, step: Step)
    requires Inv(s) && p in s.requests && s.requests[p] == r && step.p == p
    ensures Inv(OpenOrClose(s, p, r, step))
  {
    hide CopiesOk, LogOk, GroupsOk, RequestsOk, Append, Logged, Inv, StreamVersion, Advance, WithStatus, OpenedIn, OpenedAs;
    RequestIsOk(s, p);
    match (r, step)
    case (Creating(_, _, _, _), CreateAppends(_)) => CreateAppendKeeps(s, p, r);
    case (Deleting(id, base), DeleteReadsVersion(_)) => DeleteVersionKeeps(s, p, r);
    case (DeleteVersioned(id, base, version, read), DeleteAppends(_)) => DeleteKeeps(s, p, r);
    case (Opened(_, _, _, _), CreateProjects(_)) => OpenKeeps(s, p, r);
    case (Removed(id, _, _, _), DeleteProjects(_)) => StatusKeeps(s, id, BranchStatus.Archived);
    case _ =>
  }

  lemma DeleteVersionKeeps(s: State, p: nat, r: Request)
    requires Inv(s) && p in s.requests && s.requests[p] == r && r.Deleting?
    ensures Inv(Advance(s, p, DeleteVersioned(r.id, r.base, StreamVersion(s.log, r.id, r.id), |s.log|)))
  {
    hide Inv, OpenedIn, ValidLog, StreamVersion;
    RequestIsOk(s, p);
    OpenedInVersion(s.log, r.id);
    assert s.log[..|s.log|] == s.log;
    Moves(s, p, r, DeleteVersioned(r.id, r.base, StreamVersion(s.log, r.id, r.id), |s.log|));
  }

  lemma OpenKeeps(s: State, p: nat, r: Request)
    requires Inv(s) && p in s.requests && s.requests[p] == r && r.Opened?
    ensures Inv(s.(registry := s.registry[r.id := RowOf(r)]))
  {
    hide CopiesOk, LogOk, EventsOk, OpenedAs, OpenedIn;
    RequestIsOk(s, p);
  }

  lemma PlanKeeps(s: State, p: nat, r: Request, resolutions: Resolutions)
    requires Inv(s) && p in s.requests && s.requests[p] == r && r.Merging?
    ensures Inv(Advance(s, p, Planned(r.id, r.base, ActiveGroups(GroupsOf(BranchSide(s.log, BranchOf(r))), resolutions))))
  {
    hide ActiveGroups, GroupsOf, BranchSide, GroupsOk, Inv;
    RequestIsOk(s, p);
    PlanGroupsOk(s.log, BranchOf(r), resolutions);
    Moves(s, p, r, Planned(r.id, r.base, ActiveGroups(GroupsOf(BranchSide(s.log, BranchOf(r))), resolutions)));
  }

  lemma VersionKeeps(s: State, p: nat, r: Request)
    requires Inv(s) && p in s.requests && s.requests[p] == r && r.Planned?
    ensures Inv(Advance(s, p, Ended(r.id, r.base)))
    ensures StreamVersion(s.log, r.id, r.id) != 0 ==>
      Inv(Advance(s, p, Versioned(r.id, r.base, r.groups, StreamVersion(s.log, r.id, r.id), |s.log|)))
  {
    hide GroupsOk, Inv, StreamVersion, OpenedIn;
    RequestIsOk(s, p);
    Moves(s, p, r, Ended(r.id, r.base));
    if StreamVersion(s.log, r.id, r.id) != 0 {
      assert s.log[..|s.log|] == s.log;
      Moves(s, p, r, Versioned(r.id, r.base, r.groups, StreamVersion(s.log, r.id, r.id), |s.log|));
    }
  }

  lemma SearchKeeps(s: State, p: nat, r: Request)
    requires Inv(s) && p in s.requests && s.requests[p] == r && r.Versioned?
    ensures Inv(Advance(WithStatus(s, r.id, BranchStatus.Merged), p, Ended(r.id, r.base)))
    ensures NoClaim(s.log, r.id) ==> Inv(Advance(s, p, Searched(r.id, r.base, r.groups, r.version, r.read)))
  {
    hide GroupsOk, Inv, WithStatus, VersionRead, OpenedIn;
    RequestIsOk(s, p);
    StatusKeeps(s, r.id, BranchStatus.Merged);
    Moves(WithStatus(s, r.id, BranchStatus.Merged), p, r, Ended(r.id, r.base));
    NoneUpToAny(s.log, r.id, r.version);
    if NoClaim(s.log, r.id) {
      Moves(s, p, r, Searched(r.id, r.base, r.groups, r.version, r.read));
    }
  }

  lemma MergeStepKeeps(s: State, p: nat, r: Request, step: Step)
    requires Inv(s) && p in s.requests && s.requests[p] == r && step.p == p
    ensures Inv(MergeStep(s, p, r, step))
  {
    hide Inv, Advance, WithStatus, NoClaim, Append, BranchSide, ActiveGroups, GroupsOf, BranchTruncated, AfterReplay,
         StreamVersion, ReplayAppend, Logged;
    match (r, step)
    case (Merging(_, _), MergePlans(_, resolutions)) => PlanKeeps(s, p, r, resolutions);
    case (Planned(_, _, _), MergeReadsVersion(_)) => VersionKeeps(s, p, r);
    case (Versioned(_, _, _, _, _), MergeSearches(_)) => SearchKeeps(s, p, r);
    case (Searched(_, _, _, _, _), MergeClaims(_, mergedAt, note)) => ClaimKeeps(s, p, r, mergedAt, note);
    case (Claimed(id, base, groups, read, claim, next), MergeReplays(_, expected)) =>
      if next < |groups| && ReplayAppend(s, p, r, expected).Some? {
        ReplayKeeps(s, p, r, expected);
      }
    case (Claimed(id, _, _, _, _, _), MergeProjects(_)) => StatusKeeps(s, id, BranchStatus.Merged);
    case _ =>
  }

  lemma OpenOrCloseOrMerge(s: State, p: nat, r: Request, step: Step)
    requires Inv(s) && p in s.requests && s.requests[p] == r && step.p == p
    ensures Inv(Continue(s, p, r, step))
  {
    hide Inv, OpenOrClose, MergeStep;
    if r.Creating? || r.Opened? || r.Deleting? || r.DeleteVersioned? || r.Removed? {
      OpenOrCloseKeeps(s, p, r, step);
    } else {
      MergeStepKeeps(s, p, r, step);
    }
  }

  lemma StatusKeeps(s: State, id: Uuid, status: BranchStatus)
    requires Inv(s)
    ensures Inv(WithStatus(s, id, status))
    ensures WithStatus(s, id, status) == s.(registry := WithStatus(s, id, status).registry)
  {
    hide CopiesOk, LogOk, EventsOk, RequestOk;
  }

  lemma NoneUpToAny(log: Log, id: Uuid, version: nat)
    ensures NoClaim(log, id) ==> NoClaimUpTo(log, id, version)
  {
    assert forall i :: 0 <= i < |log| ==> log[i] in log;
  }

  lemma {:induction false} Reachable(run: seq<Step>)
    ensures Inv(Exec(run))
  {
    if run != [] {
      Reachable(run[..|run| - 1]);
      NextKeeps(Exec(run[..|run| - 1]), run[|run| - 1]);
    }
  }
}
