/** What holds of every run of the branch machine, and the runs that show what does not. */
module MergeRuns {
  import opened Base
  import opened EventLog
  import opened BranchQueries
  import opened Replay
  import opened MergeModel
  import opened MergeProtocol

  // --- What holds of every run ---

  /** However merges, deletes, retries and failed projections interleave, a branch is claimed at most once. */
  lemma {:induction false} AtMostOneClaim(run: seq<Step>, i: nat, j: nat)
    requires i < |Exec(run).log| && j < |Exec(run).log|
    requires Exec(run).log[i].event.BranchMerged? && Exec(run).log[j].event.BranchMerged?
    requires Exec(run).log[i].branch == Exec(run).log[j].branch
    ensures i == j
  {
    Reachable(run);
  }

  /**
   * No branch event is ever copied to main twice, across all merges and retries: every event a merge
   * put on main is one of the recorded copies, and those have distinct sources and distinct targets.
   */
  lemma {:induction false} NeverCopiedTwice(run: seq<Step>)
    ensures
      var s := Exec(run);
      && (forall i :: 0 <= i < |s.log| && s.log[i].branch == NIL && s.log[i].writer in s.requests ==>
            exists k :: 0 <= k < |s.copies| && s.copies[k].target == i + 1 && s.copies[k].merge == s.log[i].writer)
      && (forall i, j :: 0 <= i < j < |s.copies| ==>
            s.copies[i].source != s.copies[j].source && s.copies[i].target != s.copies[j].target)
  {
    Reachable(run);
    var s := Exec(run);
    forall i | 0 <= i < |s.log| && s.log[i].branch == NIL && s.log[i].writer in s.requests
      ensures exists k :: 0 <= k < |s.copies| && s.copies[k].target == i + 1 && s.copies[k].merge == s.log[i].writer
    {
      assert Recorded(s.copies, i);
      var k :| 0 <= k < |s.copies| && s.copies[k].target == i + 1;
      assert CopyOk(s.copies[k], s.log, s.requests);
    }
  }

  /** Every copy is a faithful copy of a data event of the claimed branch, made after the claim. */
  lemma {:induction false} CopiesFollowTheClaim(run: seq<Step>, i: nat)
    requires i < |Exec(run).copies|
    ensures
      var s := Exec(run);
      var c := s.copies[i];
      && 0 < c.source <= |s.log| && 0 < c.target <= |s.log|
      && var source, target := s.log[c.source - 1], s.log[c.target - 1];
      && Payload()(target) == Payload()(source) && target.branch == NIL && source.branch != NIL && !IsLifecycle(source.event)
      && exists claim :: 0 <= claim < c.target - 1 && IsClaimOf(s.log[claim], source.branch) && s.log[claim].writer == target.writer
  {
    hide Inv, Exec, OpenedIn, ValidLog;
    Reachable(run);
    var s := Exec(run);
    var c := s.copies[i];
    CopiesAreOk(s, i);
    IdIsNotMain(s, c.merge);
    assert CopyOk(c, s.log, s.requests);
    var r := s.requests[c.merge];
    RequestIsOk(s, c.merge);
    assert IsClaimOf(s.log[r.claim], s.log[c.source - 1].branch);
  }

  /**
   * What a merge command may rely on while others run: in every reachable state each branch is opened
   * once, with everything on it after its fork, and each registry row is of a branch opened as the row
   * says.
   */
  lemma {:induction false} AlwaysForked(run: seq<Step>)
    ensures ValidLog(Exec(run).log) && Forked(Exec(run).log)
    ensures forall id :: id in Exec(run).registry ==>
      id != NIL && Exec(run).registry[id].id == id && OpenedAs(Exec(run).log, Exec(run).registry[id])
  {
    Reachable(run);
  }

  /** Every event of a branch lies strictly after the branch's fork. */
  lemma {:induction false} BranchEventsAfterFork(run: seq<Step>, id: Uuid, e: StoredEvent)
    requires id in Exec(run).registry && e in Exec(run).log && e.branch == id
    ensures e.position > Exec(run).registry[id].base
  {
    Reachable(run);
    var s := Exec(run);
    var i :| 0 <= i < |s.log| && s.log[i] == e;
    assert InScope(s.log[i], s.bases) && Known(id, s.registry[id].base, s.bases);
  }

  /** So an untruncated branch-side read returns exactly the branch's own data events, in order. */
  lemma {:induction false} LoadLosesNothing(run: seq<Step>, id: Uuid)
    requires id in Exec(run).registry && !BranchTruncated(Exec(run).log, Exec(run).registry[id])
    ensures BranchSide(Exec(run).log, Exec(run).registry[id]) == Filter(DataEventOf(id), Exec(run).log)
  {
    AlwaysForked(run);
    ForkedSideComplete(Exec(run).log, Exec(run).registry[id]);
  }

  // --- Merging and deleting do not exclude each other ---

  ghost predicate HasClaim(log: Log, id: Uuid)
  {
    exists i :: 0 <= i < |log| && IsClaimOf(log[i], id)
  }

  ghost predicate HasDelete(log: Log, id: Uuid)
  {
    exists i :: 0 <= i < |log| && IsDeleteOf(log[i], id)
  }

  /**
   * A merge and a delete of the branch, both landed, the later one having read the version of the
   * branch's own stream only after the earlier one had landed.
   */
  predicate LaterReadAfter(m: Request, d: Request, id: Uuid)
  {
    m.Claimed? && d.Removed? && m.id == id && d.id == id && (m.claim < d.read <= d.at || d.at < m.read <= m.claim)
  }

  /** The log holds both a claim and a delete of one branch exactly when the later read its version after the earlier. */
  lemma {:induction false} BothLandIff(run: seq<Step>, id: Uuid)
    ensures HasClaim(Exec(run).log, id) && HasDelete(Exec(run).log, id)
      <==> exists p, q :: (
             p in Exec(run).requests && q in Exec(run).requests && LaterReadAfter(Exec(run).requests[p], Exec(run).requests[q], id))
  {
    hide Inv, Exec;
    Reachable(run);
    var s := Exec(run);
    if HasClaim(s.log, id) && HasDelete(s.log, id) {
      var i :| 0 <= i < |s.log| && IsClaimOf(s.log[i], id);
      var j :| 0 <= j < |s.log| && IsDeleteOf(s.log[j], id);
      var p, q := s.log[i].writer, s.log[j].writer;
      BothOrdered(s, id, i, j);
      assert LaterReadAfter(s.requests[p], s.requests[q], id);
    }
    if p, q :| p in s.requests && q in s.requests && LaterReadAfter(s.requests[p], s.requests[q], id) {
      RequestIsOk(s, p);
      RequestIsOk(s, q);
      assert IsClaimOf(s.log[s.requests[p].claim], id) && IsDeleteOf(s.log[s.requests[q].at], id);
    }
  }

  lemma BothOrdered(s: State, id: Uuid, i: nat, j: nat)
    requires Inv(s) && i < |s.log| && j < |s.log| && IsClaimOf(s.log[i], id) && IsDeleteOf(s.log[j], id)
    ensures s.log[i].writer in s.requests && s.log[j].writer in s.requests
    ensures LaterReadAfter(s.requests[s.log[i].writer], s.requests[s.log[j].writer], id)
  {
    hide LogOk, RegistryOk, CopiesOk, GroupsOk, OpenedIn;
    var p, q := s.log[i].writer, s.log[j].writer;
    assert Authored(s.log[i], i, s.requests) && Authored(s.log[j], j, s.requests);
    var m, d := s.requests[p], s.requests[q];
    assert RequestOk(p, m, s.log, s.bases) && RequestOk(q, d, s.log, s.bases);
    assert m.claim == i && d.at == j;
    assert IsClaimOf(s.log[i], m.id) && IsDeleteOf(s.log[j], d.id);
  }

  /**
   * The step itself, for a delete: its append lands exactly when nothing was written to the branch's own
   * stream since it read the version. A claim that landed before that read does not stop it.
   */
  lemma {:induction false} DeleteLandsIff(run: seq<Step>, p: nat)
    requires p in Exec(run).requests && Exec(run).requests[p].DeleteVersioned?
    ensures
      var s := Exec(run);
      var r := s.requests[p];
      Next(s, DeleteAppends(p)).log != s.log <==> NothingBetween(s.log, r.id, r.id, r.read, |s.log|)
  {
    hide Inv, ValidLog;
    Reachable(run);
    var s := Exec(run);
    var r := s.requests[p];
    RequestIsOk(s, p);
    LandsIff(s.log, r.id, r.base, r.version, r.read, BranchDeleted, p);
    OwnAppendGrows(s.log, r.id, BranchDeleted, r.version, r.base, p);
  }

  /** The same for a claim; a delete that landed before the claim's version read does not stop it. */
  lemma {:induction false} ClaimLandsIff(run: seq<Step>, p: nat, mergedAt: nat, note: string)
    requires p in Exec(run).requests && Exec(run).requests[p].Searched?
    ensures
      var s := Exec(run);
      var r := s.requests[p];
      Next(s, MergeClaims(p, mergedAt, note)).log != s.log <==> NothingBetween(s.log, r.id, r.id, r.read, |s.log|)
  {
    hide Inv, ValidLog;
    Reachable(run);
    var s := Exec(run);
    var r := s.requests[p];
    RequestIsOk(s, p);
    LandsIff(s.log, r.id, r.base, r.version, r.read, BranchMerged(r.base, mergedAt, note), p);
    OwnAppendGrows(s.log, r.id, BranchMerged(r.base, mergedAt, note), r.version, r.base, p);
  }

  /**
   * In every reachable state of a claimed merge with a group left, a replay append whose version check passes puts
   * exactly that group on main, event by event, and records a copy of each; otherwise nothing happens.
   */
  lemma {:induction false} ReplayLandsIff(run: seq<Step>, p: nat, expected: int)
    requires p in Exec(run).requests && Exec(run).requests[p].Claimed?
    requires Exec(run).requests[p].next < |Exec(run).requests[p].groups|
    ensures
      var s, t := Exec(run), Exec(run + [MergeReplays(p, expected)]);
      var g := s.requests[p].groups[s.requests[p].next];
      if expected < 0 || expected == StreamVersion(s.log, g.stream, NIL) then
        && s.log <= t.log && |t.log| == |s.log| + |g.events| && |t.copies| == |s.copies| + |g.events| && s.copies <= t.copies
        && (forall k :: |s.log| <= k < |t.log| ==> IsCopyFor(t.log[k], g, k - |s.log|, p))
        && (forall k :: |s.copies| <= k < |t.copies| ==>
              t.copies[k] == Copy(g.events[k - |s.copies|].position, |s.log| + 1 + (k - |s.copies|), p))
      else t == s
  {
    hide Next, Exec, ReplayAppend, IsCopyFor;
    ExecStep(run, MergeReplays(p, expected));
    var s := Exec(run);
    NextReplays(s, p, expected);
    ReplayAppends(s, p, s.requests[p], expected);
  }

  lemma NextReplays(s: State, p: nat, expected: int)
    requires p in s.requests && s.requests[p].Claimed? && s.requests[p].next < |s.requests[p].groups|
    ensures Next(s, MergeReplays(p, expected))
         == var appended := ReplayAppend(s, p, s.requests[p], expected);
            if appended.None? then s else AfterReplay(s, p, s.requests[p], appended.value)
  {
    hide ReplayAppend, AfterReplay;
    assert MergeReplays(p, expected).p == p;
  }

  lemma ReplayAppends(s: State, p: nat, r: Request, expected: int)
    requires r.Claimed? && r.next < |r.groups|
    ensures
      var g, appended := r.groups[r.next], ReplayAppend(s, p, r, expected);
      && (appended.Some? <==> expected < 0 || expected == StreamVersion(s.log, g.stream, NIL))
      && (appended.Some? ==> s.log <= appended.value && |appended.value| == |s.log| + |g.events|)
      && (appended.Some? ==> forall k :: |s.log| <= k < |appended.value| ==> IsCopyFor(appended.value[k], g, k - |s.log|, p))
  {
  }

  /** The event repeats the group's `i`-th on main, appended by the request. */
  predicate IsCopyFor(e: StoredEvent, g: StreamGroup, i: nat, p: nat)
    requires i < |g.events|
  {
    e.stream == g.stream && e.branch == NIL && e.event == g.events[i].event && e.writer == p
  }

  lemma OwnAppendGrows(log: Log, id: Uuid, event: Event, expected: int, base: nat, p: nat)
    requires ValidLog(log)
    ensures Append(log, id, [event], expected, Scope(id, base), p).Some? ==>
      Append(log, id, [event], expected, Scope(id, base), p).value != log
  {
    if Append(log, id, [event], expected, Scope(id, base), p).Some? {
      AppendGrows(log, id, [event], expected, Scope(id, base), p);
    }
  }

  // --- Witness runs ---

  lemma ExecStep(run: seq<Step>, step: Step)
    ensures Exec(run + [step]) == Next(Exec(run), step)
  {
    assert (run + [step])[..|run|] == run;
  }

  const ROW := Branch(5, "b", "", 0, BranchStatus.Active, "")
  const OPENING := BranchCreated(0, "b", "")
  const CLAIM := BranchMerged(0, 1, "")

  /** The event of branch 5 at position `n`, by request `p`. */
  function Fifth(n: nat, event: Event, p: nat): StoredEvent
  {
    StoredEvent(5, 5, n, n, event, p)
  }

  const OPENED := [Fifth(1, OPENING, 1)]
  const CREATOR := Opened(5, 0, "b", "")

  /** Branch 5 stands open, with a merge and a delete under way besides its creator. */
  function Standing(log: Log, merge: Request, delete: Request): State
  {
    State(log, map[5 := ROW], map[5 := 0], map[1 := CREATOR, 2 := merge, 3 := delete], [])
  }

  lemma SmallLogs(e: StoredEvent)
    requires e.stream == 5 && e.branch == 5
    ensures CurrentVersion([], 5, Scope(5, 0)) == 0
    ensures StreamVersion(OPENED, 5, 5) == 1 && StreamVersion(OPENED + [e], 5, 5) == e.version
    ensures forall e: Event, v: nat, n: nat, p: nat {:trigger Stored(5, 5, v, n, [e], p)} ::
      Stored(5, 5, v, n, [e], p) == [StoredEvent(5, 5, v + 1, n + 1, e, p)]
  {
    assert OPENED[..0] == [] && (OPENED + [e])[..1] == OPENED;
  }

  lemma NothingToReplay()
    ensures !BranchTruncated(OPENED, BranchOf(Merging(5, 0)))
    ensures ActiveGroups(GroupsOf(BranchSide(OPENED, BranchOf(Merging(5, 0)))), map[]) == []
  {
    assert OPENED[..0] == [];
    assert Filter(After(5, 0), OPENED) == OPENED;
    assert BranchSide(OPENED, BranchOf(Merging(5, 0))) == [];
    assert GroupsOf([]) == [];
  }

  lemma UnderWay(s: State, step: Step)
    requires step.p in s.requests && !step.CreateReads? && !step.Writes? && !step.MergeReads? && !step.DeleteReads?
    ensures Next(s, step) == Continue(s, step.p, s.requests[step.p], step)
  {
  }

  /** Branch 5's creator, after reading the head, after appending and after projecting. */
  function Created(log: Log, registry: map<Uuid, Branch>, creator: Request): State
  {
    State(log, registry, map[5 := 0], map[1 := creator], [])
  }

  lemma CreatorReads()
    ensures Next(INIT, CreateReads(1, 5, "b", "")) == Created([], map[], Creating(5, 0, "b", ""))
  {
  }

  lemma CreatorAppends()
    ensures Next(Created([], map[], Creating(5, 0, "b", "")), CreateAppends(1)) == Created(OPENED, map[], CREATOR)
  {
    SmallLogs(Fifth(2, CLAIM, 2));
    UnderWay(Created([], map[], Creating(5, 0, "b", "")), CreateAppends(1));
    hide Next, MergeStep, CurrentVersion, Stored;
  }

  lemma CreatorProjects()
    ensures Next(Created(OPENED, map[], CREATOR), CreateProjects(1)) == Created(OPENED, map[5 := ROW], CREATOR)
  {
    UnderWay(Created(OPENED, map[], CREATOR), CreateProjects(1));
    hide Next, MergeStep;
  }

  /** Branch 5 is created and projected. */
  lemma BranchOpens() returns (run: seq<Step>)
    ensures Exec(run) == Created(OPENED, map[5 := ROW], CREATOR)
  {
    CreatorReads();
    CreatorAppends();
    CreatorProjects();
    assert Exec([]) == INIT;
    hide Exec, Next;
    run := [];
    ExecStep(run, CreateReads(1, 5, "b", ""));
    run := run + [CreateReads(1, 5, "b", "")];
    ExecStep(run, CreateAppends(1));
    run := run + [CreateAppends(1)];
    ExecStep(run, CreateProjects(1));
    run := run + [CreateProjects(1)];
  }

  /** A merge reads its status and plans. */
  lemma MergePlansOn() returns (run: seq<Step>)
    ensures Exec(run) == State(OPENED, map[5 := ROW], map[5 := 0], map[1 := CREATOR, 2 := Planned(5, 0, [])], [])
  {
    NothingToReplay();
    hide StreamVersion, GroupsOf, BranchSide, ActiveGroups, BranchTruncated;
    run := BranchOpens();
    ExecStep(run, MergeReads(2, 5));
    run := run + [MergeReads(2, 5)];
    assert Exec(run) == State(OPENED, map[5 := ROW], map[5 := 0], map[1 := CREATOR, 2 := Merging(5, 0)], []);
    ExecStep(run, MergePlans(2, map[]));
    run := run + [MergePlans(2, map[])];
  }

  /** And a delete reads the branch's status. */
  lemma BothUnderWay() returns (run: seq<Step>)
    ensures Exec(run) == Standing(OPENED, Planned(5, 0, []), Deleting(5, 0))
  {
    run := MergePlansOn();
    ExecStep(run, DeleteReads(3, 5));
    run := run + [DeleteReads(3, 5)];
  }

  const CLAIMED := OPENED + [Fifth(2, CLAIM, 2)]
  const REMOVED := OPENED + [Fifth(2, BranchDeleted, 3)]

  /** Only one request of two moves on. */
  lemma OneMoves(log: Log, later: Log, merge: Request, delete: Request, u: Request)
    ensures Advance(Standing(log, merge, delete).(log := later), 2, u) == Standing(later, u, delete)
    ensures Advance(Standing(log, merge, delete).(log := later), 3, u) == Standing(later, merge, u)
  {
  }

  /** A merge that has planned reads the version, whatever else is under way. */
  lemma MergeReadsVersionNow(log: Log, version: nat, delete: Request)
    requires StreamVersion(log, 5, 5) == version > 0
    ensures Next(Standing(log, Planned(5, 0, []), delete), MergeReadsVersion(2))
         == Standing(log, Versioned(5, 0, [], version, |log|), delete)
  {
    UnderWay(Standing(log, Planned(5, 0, []), delete), MergeReadsVersion(2));
    OneMoves(log, log, Planned(5, 0, []), delete, Versioned(5, 0, [], version, |log|));
    hide Next, StreamVersion, OpenOrClose, Advance, ReplayAppend, AfterReplay, Logged, BranchSide, ActiveGroups, GroupsOf, BranchTruncated;
  }

  /** It searches the log and finds no claim. */
  lemma MergeSearchesNow(log: Log, version: nat, delete: Request)
    requires NoClaim(log, 5)
    ensures Next(Standing(log, Versioned(5, 0, [], version, |log|), delete), MergeSearches(2))
         == Standing(log, Searched(5, 0, [], version, |log|), delete)
  {
    UnderWay(Standing(log, Versioned(5, 0, [], version, |log|), delete), MergeSearches(2));
    hide Next, NoClaim, OpenOrClose;
  }

  lemma OwnAppend(log: Log, version: nat, event: Event, p: nat)
    requires StreamVersion(log, 5, 5) == version == |log| > 0
    ensures Append(log, 5, [event], version, Scope(5, 0), p) == Some(log + [Fifth(|log| + 1, event, p)])
  {
    SmallLogs(Fifth(2, CLAIM, 2));
  }

  lemma LoggedAs(s: State, p: nat, event: Event, expected: int, r: Request, u: Request, later: Log)
    requires Append(s.log, r.id, [event], expected, Scope(r.id, r.base), p) == Some(later)
    ensures Logged(s, p, event, expected, r, u) == Advance(s.(log := later), p, u)
  {
  }

  /** Its claim lands on an unchanged log. */
  lemma MergeClaimsNow(log: Log, version: nat, delete: Request)
    requires StreamVersion(log, 5, 5) == version == |log| > 0
    ensures Next(Standing(log, Searched(5, 0, [], version, |log|), delete), MergeClaims(2, 1, ""))
         == Standing(log + [Fifth(|log| + 1, CLAIM, 2)], Claimed(5, 0, [], |log|, |log|, 0), delete)
  {
    var s, later := Standing(log, Searched(5, 0, [], version, |log|), delete), log + [Fifth(|log| + 1, CLAIM, 2)];
    OwnAppend(log, version, CLAIM, 2);
    UnderWay(s, MergeClaims(2, 1, ""));
    LoggedAs(s, 2, CLAIM, version, s.requests[2], Claimed(5, 0, [], |log|, |log|, 0), later);
    OneMoves(log, later, s.requests[2], delete, Claimed(5, 0, [], |log|, |log|, 0));
    hide Next, StreamVersion, Append, OpenOrClose, Logged, Advance;
  }

  /** A delete reads the version. */
  lemma DeleteReadsVersionNow(log: Log, version: nat, merge: Request)
    requires StreamVersion(log, 5, 5) == version
    ensures Next(Standing(log, merge, Deleting(5, 0)), DeleteReadsVersion(3))
         == Standing(log, merge, DeleteVersioned(5, 0, version, |log|))
  {
    UnderWay(Standing(log, merge, Deleting(5, 0)), DeleteReadsVersion(3));
    OneMoves(log, log, merge, Deleting(5, 0), DeleteVersioned(5, 0, version, |log|));
    hide Next, StreamVersion, MergeStep, Advance;
  }

  /** And lands on an unchanged log. */
  lemma DeleteLandsNow(log: Log, version: nat, merge: Request)
    requires StreamVersion(log, 5, 5) == version == |log| > 0
    ensures Next(Standing(log, merge, DeleteVersioned(5, 0, version, |log|)), DeleteAppends(3))
         == Standing(log + [Fifth(|log| + 1, BranchDeleted, 3)], merge, Removed(5, 0, |log|, |log|))
  {
    var s, later := Standing(log, merge, DeleteVersioned(5, 0, version, |log|)), log + [Fifth(|log| + 1, BranchDeleted, 3)];
    OwnAppend(log, version, BranchDeleted, 3);
    UnderWay(s, DeleteAppends(3));
    LoggedAs(s, 3, BranchDeleted, version, s.requests[3], Removed(5, 0, |log|, |log|), later);
    OneMoves(log, later, merge, s.requests[3], Removed(5, 0, |log|, |log|));
    hide Next, StreamVersion, Append, MergeStep, Logged, Advance;
  }

  lemma NoClaimYet(e: StoredEvent)
    requires !e.event.BranchMerged?
    ensures NoClaim(OPENED, 5) && NoClaim(OPENED + [e], 5)
  {
  }

  /** A run in which a branch is claimed by a merge and then deleted. */
  lemma DeleteAfterClaim() returns (run: seq<Step>)
    ensures Exec(run).log == CLAIMED + [Fifth(3, BranchDeleted, 3)]
  {
    SmallLogs(Fifth(2, CLAIM, 2));
    NoClaimYet(Fifth(2, BranchDeleted, 3));
    MergeReadsVersionNow(OPENED, 1, Deleting(5, 0));
    MergeSearchesNow(OPENED, 1, Deleting(5, 0));
    MergeClaimsNow(OPENED, 1, Deleting(5, 0));
    DeleteReadsVersionNow(CLAIMED, 2, Claimed(5, 0, [], 1, 1, 0));
    DeleteLandsNow(CLAIMED, 2, Claimed(5, 0, [], 1, 1, 0));
    hide StreamVersion, Exec, Next, NoClaim, Stored;
    run := BothUnderWay();
    ExecStep(run, MergeReadsVersion(2));
    run := run + [MergeReadsVersion(2)];
    ExecStep(run, MergeSearches(2));
    run := run + [MergeSearches(2)];
    ExecStep(run, MergeClaims(2, 1, ""));
    run := run + [MergeClaims(2, 1, "")];
    ExecStep(run, DeleteReadsVersion(3));
    run := run + [DeleteReadsVersion(3)];
    ExecStep(run, DeleteAppends(3));
    run := run + [DeleteAppends(3)];
  }

  /** A run in which a branch is deleted first, and then claimed by a merge that had read its status before. */
  lemma ClaimAfterDelete() returns (run: seq<Step>)
    ensures Exec(run).log == REMOVED + [Fifth(3, CLAIM, 2)]
  {
    SmallLogs(Fifth(2, BranchDeleted, 3));
    NoClaimYet(Fifth(2, BranchDeleted, 3));
    DeleteReadsVersionNow(OPENED, 1, Planned(5, 0, []));
    DeleteLandsNow(OPENED, 1, Planned(5, 0, []));
    MergeReadsVersionNow(REMOVED, 2, Removed(5, 0, 1, 1));
    MergeSearchesNow(REMOVED, 2, Removed(5, 0, 1, 1));
    MergeClaimsNow(REMOVED, 2, Removed(5, 0, 1, 1));
    hide StreamVersion, Exec, Next, NoClaim, Stored;
    run := BothUnderWay();
    ExecStep(run, DeleteReadsVersion(3));
    run := run + [DeleteReadsVersion(3)];
    ExecStep(run, DeleteAppends(3));
    run := run + [DeleteAppends(3)];
    ExecStep(run, MergeReadsVersion(2));
    run := run + [MergeReadsVersion(2)];
    ExecStep(run, MergeSearches(2));
    run := run + [MergeSearches(2)];
    ExecStep(run, MergeClaims(2, 1, ""));
    run := run + [MergeClaims(2, 1, "")];
  }

  /**
   * Why the version is read before the log is searched: were it read after, a claim landing between the
   * two would be missed by the search and excused by the version, and a second one would always follow.
   */
  lemma SearchingFirstWouldClaimTwice(searched: Log, later: Log, id: Uuid, i: nat, scope: Scope, second: Event, p: nat)
    requires ValidLog(later) && searched <= later && NoClaim(searched, id) && scope.branch == id
    requires |searched| <= i < |later| && IsClaimOf(later[i], id)
    ensures StreamVersion(searched, id, id) < StreamVersion(later, id, id)
    ensures Append(later, id, [second], StreamVersion(later, id, id), scope, p).Some?
    ensures Append(later, id, [second], StreamVersion(searched, id, id), scope, p).None?
  {
    NewEventsAreNewer(searched, later, i);
    StreamVersionIsMax(later, id, id, i);
  }
}
