/**
 * The merge command itself: plan, validate, claim the branch by compare-and-set, replay onto main.
 *
 * `Interfere` stands for whatever other requests do between two of its steps, and any store or
 * registry operation may fail.
 */
module MergeCommand {
  import opened Base
  import opened EventLog
  import opened BranchQueries
  import opened Conflicts
  import opened Replay
  import opened MergeModel
  import opened MergeValidation

  datatype Outcome =
    | Done(mergedAt: nat, replayed: nat, skipped: seq<Uuid>)
    | Failed(err: MergeError, conflicts: seq<Conflict>)

  lemma RelyTransitive(me: nat, a: Log, b: Log, c: Log)
    requires Rely(me, a, b) && Rely(me, b, c)
    ensures Rely(me, a, c)
  {
  }

  /** Exactly the claim, appended once since `before`, at index `at`. */
  ghost predicate Claimed(me: nat, branch: Uuid, before: Log, after: Log, at: nat)
  {
    && before <= after && ValidLog(after) && |before| <= at
    && ClaimAt(me, branch, after, at)
    && forall i :: |before| <= i < |after| && after[i].writer == me ==> i == at
  }

  lemma ClaimedThenRely(me: nat, branch: Uuid, before: Log, mid: Log, after: Log, at: nat)
    requires Claimed(me, branch, before, mid, at) && Rely(me, mid, after)
    ensures Claimed(me, branch, before, after, at) && after[at] == mid[at]
  {
    assert after[..at] == mid[..at];
  }

  lemma ClaimedAfterRely(me: nat, branch: Uuid, before: Log, mid: Log, after: Log, at: nat)
    requires Rely(me, before, mid) && Claimed(me, branch, mid, after, at)
    ensures Claimed(me, branch, before, after, at)
  {
  }

  lemma ClaimedMine(me: nat, branch: Uuid, before: Log, after: Log, at: nat)
    requires Claimed(me, branch, before, after, at)
    ensures Mine(me, after) == Mine(me, before) + [after[at]]
  {
    var a, c := after[..at], after[at + 1..];
    assert after == a + [after[at]] + c;
    MineOfParts(me, a, [after[at]], c) by {
      forall e | e in c ensures e.writer != me {
        var k :| 0 <= k < |c| && c[k] == e;
        assert after[at + 1 + k] == e;
      }
    }
    assert forall i :: |before| <= i < at ==> a[i] == after[i];
    MineUntil(me, before, a);
  }

  /** What a successful replay append did to the log. */
  lemma AppendIsBatch(me: nat, group: StreamGroup, planned: nat, before: Log, stored: Log)
    requires ValidLog(before + stored) && (planned > 0 ==> StreamVersion(before, group.stream, NIL) == planned)
    requires |stored| == |group.events|
    requires stored == Stored(group.stream, NIL, StreamVersion(before, group.stream, NIL), |before|,
                              Map(EventOf(), group.events), me)
    ensures BatchAt(me, group, planned, before, before + stored, |before|)
  {
    SlicesOfConcat(before, stored);
  }

  const ADMISSION_ERRORS :=
    {BranchStoreRequired, PositionSourceRequired, BranchNotFound, BranchNotActive,
     NameRequired, NameTooLong, DescriptionTooLong, NoteTooLong}

  const NO_BRANCH := Branch(NIL, "", "", 0, BranchStatus.Archived, "")

  /**
   * What a merge left in the log: nothing, or its claim at index `at` and then `copied`, the first
   * `done` groups. The three logs are those the plan's reads saw; `from` is how much of the log main's
   * read model showed when the merge began to look persons up in it, `checked` the length of the log when
   * the head position was read and the staleness check began.
   */
  datatype Trace =
    | Untouched
    | Applied(plan: Plan, branchLog: Log, mainLog: Log, tailLog: Log, from: nat, checked: nat, at: nat, done: nat, copied: Log)

  /** The groups a traced merge set out to replay. */
  function ToReplay(trace: Trace, resolutions: Resolutions): seq<StreamGroup>
    requires trace.Applied?
  {
    ActiveGroups(GroupsOf(trace.plan.replay), resolutions)
  }

  /** Every conflict of the plan was decided explicitly, in a way that conflict supports. */
  ghost predicate ConflictsDecided(conflicts: seq<Conflict>, resolutions: Resolutions)
  {
    forall c :: c in conflicts ==>
      c.stream in resolutions && resolutions[c.stream] in {BRANCH, MAIN} && resolutions[c.stream] in c.supported
  }

  /**
   * What the call appended: first its claim, on the branch, and then whole groups of the replay set in
   * order, on main, with their original payloads.
   */
  ghost predicate CopiesHold(me: nat, resolutions: Resolutions, trace: Trace, log: Log)
    requires trace.Applied?
  {
    && trace.at < |log| && log[trace.at].branch != NIL && Mine(me, log[..trace.at]) == []
    && trace.done <= |ToReplay(trace, resolutions)|
    && Mine(me, log) == [log[trace.at]] + trace.copied
    && Map(Payload(), trace.copied) == Map(Payload(), Flatten(ToReplay(trace, resolutions)[..trace.done]))
    && forall e :: e in trace.copied ==> e.branch == NIL
  }

  /** Each group's stream has a pin, and main was seen at that version since the log was `from` events long. */
  ghost predicate StillPinned(groups: seq<StreamGroup>, pins: map<Uuid, nat>, from: nat, log: Log)
  {
    forall g :: g in groups ==> g.stream in pins && VersionSeen(log, from, g.stream, pins[g.stream])
  }

  /**
   * All a merge that claimed its branch guarantees: its claim landed on a log holding no claim for the
   * branch, its copies are as they should be, each over exactly the main history its conflict verdict
   * was computed from, and every check it passed stands.
   */
  ghost predicate TraceHolds(me: nat, id: Uuid, resolutions: Resolutions, trace: Trace, log: Log)
    requires trace.Applied?
  {
    && id != NIL && ClaimAt(me, id, log, trace.at)
    && CopiesHold(me, resolutions, trace, log)
    && PlannedFrom(trace.plan, trace.branchLog, trace.mainLog, trace.tailLog) && trace.plan.branch.id == id
    && trace.tailLog <= log[..trace.at] && trace.from <= trace.at
    && !trace.plan.branchTruncated && !trace.plan.mainTruncated
    && AllVerdictsHeld(me, trace.plan, trace.mainLog, log)
    && ConflictsDecided(trace.plan.conflicts, resolutions)
    && LinksSeen(GroupsOf(trace.plan.replay), resolutions, trace.from, log[..trace.at])
    && |trace.tailLog| <= trace.checked <= trace.at && log[trace.at].event.mergedAt == trace.checked
    && StillPinned(ToReplay(trace, resolutions), trace.plan.pins, trace.checked, log[..trace.at])
  }

  /** Since the plan's branch side was read, another request wrote on main to a stream the merge replays. */
  ghost predicate Interrupted(me: nat, resolutions: Resolutions, trace: Trace, log: Log)
    requires trace.Applied?
  {
    Disturbed(me, ToReplay(trace, resolutions), |trace.branchLog|, log)
  }

  /** The outcome tells the truth about the trace. */
  ghost predicate OutcomeMatches(resolutions: Resolutions, trace: Trace, out: Outcome)
  {
    match trace
    case Untouched => out.Failed? && PartiallyApplied !in out.err.wraps
    case Applied(plan, _, _, _, _, _, _, done, copied) =>
      var all := |ToReplay(trace, resolutions)|;
      match out
      case Done(_, replayed, skipped) =>
        done == all && replayed == |copied| && skipped == SkippedStreams(GroupsOf(plan.replay), resolutions)
      case Failed(err, _) =>
        if PartiallyApplied in err.wraps then
          err.wraps <= {PartiallyApplied, PlanStale, ConcurrencyConflict} && err.mainUntouched == Some(done == 0)
        else
          err == PLAIN && (done == 0 || done == all)
  }

  lemma UntouchedAnswer(resolutions: Resolutions, out: Outcome)
    requires out.Failed? && PartiallyApplied !in out.err.wraps
    ensures OutcomeMatches(resolutions, Untouched, out)
  {
  }

  lemma ClaimedAnswer(resolutions: Resolutions, trace: Trace, out: Outcome)
    requires trace.Applied?
    requires out.Failed? ==> out.err == PLAIN && trace.done in {0, |ToReplay(trace, resolutions)|}
    requires out.Done? ==> trace.done == |ToReplay(trace, resolutions)| && out.replayed == |trace.copied|
    requires out.Done? ==> out.skipped == SkippedStreams(GroupsOf(trace.plan.replay), resolutions)
    ensures OutcomeMatches(resolutions, trace, out)
    ensures out.Failed? ==> Status(ErrorResponse(out.err)) == 500
  {
  }

  lemma PartialAnswer(resolutions: Resolutions, trace: Trace, out: Outcome)
    requires trace.Applied? && out.Failed? && PartiallyApplied in out.err.wraps
    requires out.err.wraps <= {PartiallyApplied, PlanStale, ConcurrencyConflict}
    requires out.err.mainUntouched == Some(trace.done == 0)
    ensures OutcomeMatches(resolutions, trace, out)
    ensures Status(ErrorResponse(out.err)) == 500
  {
  }

  /**
   * All a claim waits for: a complete plan, every conflict decided, every linked person seen, and, last,
   * main seen at the pinned version of every stream to replay since the log was `checked` events long.
   */
  ghost predicate ReadyToClaim(id: Uuid, resolutions: Resolutions, plan: Plan, branchLog: Log, mainLog: Log, tailLog: Log,
                               from: nat, checked: nat, log: Log)
  {
    && PlannedFrom(plan, branchLog, mainLog, tailLog) && plan.branch.id == id && tailLog <= log
    && !plan.branchTruncated && !plan.mainTruncated
    && ConflictsDecided(plan.conflicts, resolutions)
    && from <= |log| && LinksSeen(GroupsOf(plan.replay), resolutions, from, log)
    && |tailLog| <= checked <= |log|
    && StillPinned(ActiveGroups(GroupsOf(plan.replay), resolutions), plan.pins, checked, log)
  }

  lemma AllDecided(conflicts: seq<Conflict>, resolutions: Resolutions, groups: seq<StreamGroup>)
    requires ResolutionsKnown(resolutions, groups) && ResolutionsSupported(conflicts, resolutions)
    requires forall c :: c in conflicts ==> c.stream in resolutions
    ensures ConflictsDecided(conflicts, resolutions)
  {
  }

  lemma StillPinnedGrows(groups: seq<StreamGroup>, pins: map<Uuid, nat>, from: nat, before: Log, after: Log)
    requires StillPinned(groups, pins, from, before) && before <= after
    ensures StillPinned(groups, pins, from, after)
  {
    forall g | g in groups ensures g.stream in pins && VersionSeen(after, from, g.stream, pins[g.stream]) {
      SeenSinceThen(before, after, from, g.stream, pins[g.stream]);
    }
  }

  /** Main had another version of the stream than this one at some point since the log was `from` events long. */
  ghost predicate LeftVersion(s: Uuid, version: nat, from: nat, log: Log)
  {
    exists n :: from <= n <= |log| && StreamVersion(log[..n], s, NIL) != version
  }

  /** The same, of the group's stream and its pin. */
  ghost predicate LeftPin(g: StreamGroup, pins: map<Uuid, nat>, from: nat, log: Log)
  {
    g.stream in pins && LeftVersion(g.stream, pins[g.stream], from, log)
  }

  /** Some other request wrote to the stream on main since the log was `from` events long. */
  ghost predicate OthersWrote(me: nat, s: Uuid, from: nat, log: Log)
  {
    exists i :: from <= i < |log| && log[i].stream == s && log[i].branch == NIL && log[i].writer != me
  }

  /** Some other request wrote on main to a stream of one of the groups. */
  ghost predicate Disturbed(me: nat, groups: seq<StreamGroup>, from: nat, log: Log)
  {
    exists g :: g in groups && OthersWrote(me, g.stream, from, log)
  }

  lemma LeavesVersion(s: Uuid, version: nat, from: nat, log: Log)
    requires from <= |log| && StreamVersion(log, s, NIL) != version
    ensures LeftVersion(s, version, from, log)
  {
    assert log[..|log|] == log;
  }

  /** A stream of mine is left alone by me until it is its turn, so leaving its pin is another request's doing. */
  lemma LeftByOthers(me: nat, plan: Plan, branchLog: Log, mainLog: Log, tailLog: Log, streams: set<Uuid>, s: Uuid,
                     from: nat, log: Log)
    requires PlannedFrom(plan, branchLog, mainLog, tailLog) && s in plan.pins && mainLog <= log && |mainLog| <= from
    requires ValidLog(log) && LeftVersion(s, plan.pins[s], from, log) && OnlyOn(me, streams, log) && s !in streams
    ensures OthersWrote(me, s, |branchLog|, log)
  {
    hide BranchRead, ConflictList, MainTail, MainTruncated, MainSide;
    var m :| |branchLog| <= m <= |mainLog| && StreamVersion(mainLog[..m], s, NIL) == plan.pins[s];
    var n :| from <= n <= |log| && StreamVersion(log[..n], s, NIL) != plan.pins[s];
    assert mainLog[..m] == log[..n][..m];
    ValidPrefix(log, n);
    VersionStandsIff(log[..n], s, NIL, m);
    var i :| m <= i < n && log[..n][i].stream == s && log[..n][i].branch == NIL;
    assert log[i] in log && log[i] == log[..n][i];
  }

  lemma PlanLogsGrow(plan: Plan, branchLog: Log, mainLog: Log, tailLog: Log)
    requires PlannedFrom(plan, branchLog, mainLog, tailLog)
    ensures |branchLog| <= |mainLog| <= |tailLog|
  {
    hide BranchRead, ConflictList, MainTail, MainTruncated, MainSide, VersionSeen;
  }

  lemma BetweenByOthers(me: nat, streams: set<Uuid>, s: Uuid, from: nat, read: nat, log: Log)
    requires from <= read && !NothingBetween(log, s, NIL, read, |log|) && OnlyOn(me, streams, log) && s !in streams
    ensures OthersWrote(me, s, from, log)
  {
    var i :| read <= i < |log| && log[i].stream == s && log[i].branch == NIL;
    assert log[i] in log;
  }

  /** The branch's own stream was seen empty since the log was `from` events long. */
  ghost predicate SeenEmpty(log: Log, id: Uuid, from: nat)
  {
    exists n :: from <= n <= |log| && StreamVersion(log[..n], id, id) == 0
  }

  lemma ReadsEmpty(log: Log, id: Uuid, from: nat)
    requires from <= |log| && StreamVersion(log, id, id) == 0
    ensures SeenEmpty(log, id, from)
  {
    assert log[..|log|] == log;
  }

  /** Which it never is once the branch was opened. */
  lemma NeverEmpty(before: Log, after: Log, b: Branch)
    requires OpenedAs(before, b) && before <= after && ValidLog(after)
    ensures !SeenEmpty(after, b.id, |before|)
  {
    forall n | |before| <= n <= |after| ensures StreamVersion(after[..n], b.id, b.id) > 0 {
      assert before <= after[..n];
      ValidPrefix(after, n);
      OpenedLater(before, after[..n], b);
      OpenedHasVersion(after[..n], b);
    }
  }

  // --- Why a merge is refused ---

  function RowOf(registry: map<Uuid, Branch>, id: Uuid): Option<Branch>
  {
    if id in registry then Some(registry[id]) else None
  }

  /** The branch's row refuses the merge: it is missing, not active, or cannot carry the note. */
  predicate RowRefuses(err: MergeError, note: string, row: Option<Branch>)
  {
    if row.None? then err == Wrap(BranchNotFound)
    else if row.value.status != Active then err == Wrap(BranchNotActive)
    else ValidateBranch(row.value.(mergeNote := note)) == Some(err)
  }

  /** A plan refuses the merge, and which of its parts does; `shown` is how much of the log main's read model showed at least. */
  ghost predicate PlanRefuses(err: MergeError, plan: Plan, branchLog: Log, resolutions: Resolutions, conflicts: seq<Conflict>,
                              shown: nat, log: Log)
  {
    var groups := GroupsOf(plan.replay);
    || (err == Wrap(BranchTooLarge) && plan.branchTruncated)
    || (err == Wrap(MainTooFarAhead) && plan.mainTruncated)
    || (err == Wrap(UnknownResolution) && !ResolutionsKnown(resolutions, groups))
    || (err == Wrap(UnsupportedResolution) && !ResolutionsSupported(plan.conflicts, resolutions))
    || (err == Wrap(DanglingReference) && exists p :: LinksAbroad(groups, resolutions, p) && MissedOnMain(p, shown, log))
    || (err == Wrap(MergeConflicts) && conflicts == plan.conflicts && exists c :: c in conflicts && c.stream !in resolutions)
    || (err == Wrap(PlanStale) && exists g ::
          g in ActiveGroups(groups, resolutions) && MovedPastPin(g.stream, plan.pins, |branchLog|, log))
  }

  lemma MissedEarlier(groups: seq<StreamGroup>, resolutions: Resolutions, from: nat, shown: nat, log: Log)
    requires shown <= from && exists p :: LinksAbroad(groups, resolutions, p) && MissedOnMain(p, from, log)
    ensures exists p :: LinksAbroad(groups, resolutions, p) && MissedOnMain(p, shown, log)
  {
    hide LinksAbroad;
    var p :| LinksAbroad(groups, resolutions, p) && MissedOnMain(p, from, log);
    assert MissedOnMain(p, shown, log);
  }

  lemma TruncatedRefuses(plan: Plan, branchLog: Log, resolutions: Resolutions, conflicts: seq<Conflict>, shown: nat, log: Log)
    ensures plan.branchTruncated ==> PlanRefuses(Wrap(BranchTooLarge), plan, branchLog, resolutions, conflicts, shown, log)
    ensures plan.mainTruncated ==> PlanRefuses(Wrap(MainTooFarAhead), plan, branchLog, resolutions, conflicts, shown, log)
  {
  }

  lemma RefusedByPlan(err: MergeError, id: Uuid, plan: Plan, branchLog: Log, mainLog: Log, tailLog: Log,
                      resolutions: Resolutions, conflicts: seq<Conflict>, from: nat, shown: nat, later: nat, log: Log)
    requires PlannedFrom(plan, branchLog, mainLog, tailLog) && plan.branch.id == id && from <= |branchLog| && tailLog <= log
    requires shown <= later && PlanRefuses(err, plan, branchLog, resolutions, conflicts, later, log)
    ensures PlanRefused(err, id, resolutions, conflicts, from, shown, log)
  {
    hide PlannedFrom, LinksAbroad, MissedOnMain, MovedPastPin, ResolutionsKnown, ResolutionsSupported, ActiveGroups;
    if err == Wrap(DanglingReference) && exists p :: LinksAbroad(GroupsOf(plan.replay), resolutions, p) && MissedOnMain(p, later, log) {
      MissedEarlier(GroupsOf(plan.replay), resolutions, later, shown, log);
    }
    assert PlanRefuses(err, plan, branchLog, resolutions, conflicts, shown, log);
  }

  /** A plan made of the log since it was `from` events long refuses the merge. */
  ghost predicate PlanRefused(err: MergeError, id: Uuid, resolutions: Resolutions, conflicts: seq<Conflict>,
                              from: nat, shown: nat, log: Log)
  {
    exists plan, branchLog, mainLog, tailLog :: PlannedFrom(plan, branchLog, mainLog, tailLog) && plan.branch.id == id
      && from <= |branchLog| && tailLog <= log && PlanRefuses(err, plan, branchLog, resolutions, conflicts, shown, log)
  }

  lemma LeavesPin(g: StreamGroup, pins: map<Uuid, nat>, from: nat, log: Log)
    requires g.stream in pins && from <= |log| && StreamVersion(log, g.stream, NIL) != pins[g.stream]
    ensures LeftPin(g, pins, from, log)
  {
    LeavesVersion(g.stream, pins[g.stream], from, log);
  }

  /** Main had the stream's pinned version, and later, since the log was `from` events long, a higher one. */
  ghost predicate MovedPastPin(s: Uuid, pins: map<Uuid, nat>, from: nat, log: Log)
  {
    && s in pins
    && exists m, n ::
         from <= m <= n <= |log| && StreamVersion(log[..m], s, NIL) == pins[s] < StreamVersion(log[..n], s, NIL)
  }

  /** Main moved on some stream. */
  ghost predicate MainMoved(from: nat, log: Log)
  {
    exists s, m, n :: from <= m <= n <= |log| && StreamVersion(log[..m], s, NIL) < StreamVersion(log[..n], s, NIL)
  }

  lemma MovedPastPinMoved(s: Uuid, pins: map<Uuid, nat>, from: nat, earlier: nat, log: Log)
    requires MovedPastPin(s, pins, from, log) && earlier <= from
    ensures MainMoved(earlier, log)
  {
  }

  /** A pin is taken before the plan's main read, so leaving it later is moving past it. */
  lemma LeftIsMoved(plan: Plan, branchLog: Log, mainLog: Log, tailLog: Log, g: StreamGroup, from: nat, before: Log, log: Log)
    requires PlannedFrom(plan, branchLog, mainLog, tailLog) && tailLog <= before && |before| == from && ValidLog(log)
    requires before <= log && LeftPin(g, plan.pins, from, log)
    ensures MovedPastPin(g.stream, plan.pins, |branchLog|, log)
  {
    hide BranchRead, ConflictList, MainTail, MainTruncated, MainSide;
    var s := g.stream;
    var m :| |branchLog| <= m <= |mainLog| && StreamVersion(mainLog[..m], s, NIL) == plan.pins[s];
    var n :| from <= n <= |log| && StreamVersion(log[..n], s, NIL) != plan.pins[s];
    assert mainLog[..m] == log[..m] && log[..n][..m] == log[..m];
    ValidPrefix(log, n);
    StreamVersionPrefix(log[..n], s, NIL, m);
  }

  /** Every group of the replay set has a pin. */
  lemma GroupsArePinned(plan: Plan, branchLog: Log, mainLog: Log, tailLog: Log, resolutions: Resolutions)
    requires PlannedFrom(plan, branchLog, mainLog, tailLog)
    ensures forall g :: g in ActiveGroups(GroupsOf(plan.replay), resolutions) ==> g.stream in plan.pins
  {
    hide BranchRead, ConflictList, MainTail, MainTruncated, MainSide, VersionSeen;
    var groups := GroupsOf(plan.replay);
    FilterMembers(Replayed(resolutions), groups);
    forall g | g in ActiveGroups(groups, resolutions) ensures g.stream in plan.pins {
      var k :| 0 <= k < |groups| && groups[k] == g;
      assert StreamIds(plan.replay)[k] in SetOf(StreamIds(plan.replay));
    }
  }

  lemma RelyIsPrefix(me: nat, before: Log, after: Log)
    requires Rely(me, before, after)
    ensures before <= after
  {
  }

  lemma OneAfterRely(me: nat, before: Log, mid: Log, after: Log, at: nat)
    requires Rely(me, before, mid) && OneOfMine(me, mid, after, at)
    ensures OneOfMine(me, before, after, at)
  {
  }

  lemma OneThenRely(me: nat, before: Log, mid: Log, after: Log, at: nat)
    requires OneOfMine(me, before, mid, at) && Rely(me, mid, after)
    ensures OneOfMine(me, before, after, at) && at < |mid| && after[at] == mid[at] && before <= after
  {
  }

  lemma BetweenStands(log: Log, later: Log, id: Uuid, from: nat, to: nat)
    requires NothingBetween(log, id, id, from, to) && log <= later && to <= |log|
    ensures NothingBetween(later, id, id, from, to)
  {
  }

  /** Every registry row is of a branch the log shows being opened, as the row has it. */
  ghost predicate RegistryOk(registry: map<Uuid, Branch>, log: Log)
  {
    forall id :: id in registry ==> id != NIL && registry[id].id == id && OpenedAs(log, registry[id])
  }

  lemma RegistryLater(registry: map<Uuid, Branch>, before: Log, after: Log)
    requires RegistryOk(registry, before) && before <= after
    ensures RegistryOk(registry, after)
  {
    forall id | id in registry ensures id != NIL && registry[id].id == id && OpenedAs(after, registry[id]) {
      OpenedLater(before, after, registry[id]);
    }
  }

  lemma RelyReflexive(me: nat, log: Log)
    requires ValidLog(log) && Forked(log)
    ensures Rely(me, log, log)
  {
  }

  lemma PrefixChain(a: Log, b: Log, c: Log, d: Log, e: Log)
    requires a <= b <= c <= d <= e
    ensures a <= e
  {
  }

  lemma RelyGrows(me: nat, a: Log, b: Log, c: Log, d: Log)
    requires Rely(me, a, b) && Rely(me, b, c) && Rely(me, c, d)
    ensures a <= c <= d && a <= d
  {
  }

  /** The claim records the caller's note and, as the outcome repeats, main's head position. */
  predicate ClaimSays(e: Event, note: string, out: Outcome)
  {
    e.BranchMerged? && e.note == note && (out.Done? ==> e.mergedAt == out.mergedAt)
  }

  lemma NothingYet(me: nat, before: Log, after: Log)
    requires Rely(me, before, after) && Mine(me, before) == []
    ensures before <= after && Mine(me, after) == []
  {
    RelyMine(me, before, after);
  }

  lemma TraceAfterClaim(me: nat, id: Uuid, resolutions: Resolutions, plan: Plan, branchLog: Log, mainLog: Log, tailLog: Log,
                        from: nat, checked: nat, before: Log, log: Log, at: nat)
    requires ReadyToClaim(id, resolutions, plan, branchLog, mainLog, tailLog, from, checked, before) && id != NIL
    requires Mine(me, before) == [] && Claimed(me, id, before, log, at) && log[at].event.mergedAt == checked
    ensures TraceHolds(me, id, resolutions, Applied(plan, branchLog, mainLog, tailLog, from, checked, at, 0, []), log)
    ensures at < |log| && OnlyOn(me, {}, log)
  {
    hide ActiveGroups, PlannedFrom, NoClaim, ConflictsDecided, LinksSeen, StillPinned;
    ClaimedMine(me, id, before, log, at);
    MineUntil(me, before, log[..at]);
    forall e | e in log && e.writer == me ensures e.branch != NIL {
      FilterMembers(By(me), log);
      assert e in Mine(me, log);
    }
    LinksSeenLater(GroupsOf(plan.replay), resolutions, from, from, before, log[..at]);
    StillPinnedGrows(ActiveGroups(GroupsOf(plan.replay), resolutions), plan.pins, checked, before, log[..at]);
    assert Flatten(ToReplay(Applied(plan, branchLog, mainLog, tailLog, from, checked, at, 0, []), resolutions)[..0]) == [];
  }

  lemma TraceAfterReplay(me: nat, id: Uuid, resolutions: Resolutions, plan: Plan, branchLog: Log, mainLog: Log, tailLog: Log,
                         from: nat, checked: nat, before: Log, log: Log, at: nat, done: nat, copied: Log)
    requires TraceHolds(me, id, resolutions, Applied(plan, branchLog, mainLog, tailLog, from, checked, at, 0, []), before)
    requires done <= |ActiveGroups(GroupsOf(plan.replay), resolutions)|
    requires Copied(me, ActiveGroups(GroupsOf(plan.replay), resolutions)[..done], before, log, copied)
    requires AllVerdictsHeld(me, plan, mainLog, log)
    ensures before <= log && at < |before| && log[at] == before[at]
    ensures TraceHolds(me, id, resolutions, Applied(plan, branchLog, mainLog, tailLog, from, checked, at, done, copied), log)
  {
    hide AllVerdictsHeld, ActiveGroups, PlannedFrom, NoClaim, ConflictsDecided, LinksSeen, StillPinned;
    assert log[..at] == before[..at] && log[at] == before[at];
  }

  lemma TraceAfterRely(me: nat, id: Uuid, resolutions: Resolutions, trace: Trace, before: Log, log: Log)
    requires trace.Applied? && TraceHolds(me, id, resolutions, trace, before) && Rely(me, before, log)
    ensures before <= log && trace.at < |before| && log[trace.at] == before[trace.at]
    ensures TraceHolds(me, id, resolutions, trace, log)
  {
    hide ActiveGroups, PlannedFrom, NoClaim, ConflictsDecided, LinksSeen, StillPinned;
    assert log[..trace.at] == before[..trace.at] && log[trace.at] == before[trace.at];
    RelyMine(me, before, log);
    VerdictsAfterRely(me, trace.plan, trace.mainLog, before, log);
  }

  class MergeHandler {
    const store: EventStore
    const hasBranchStore: bool
    const hasPositions: bool

    /**
     * The branch registry, and how much of the log main's read model shows: it may lag behind by any
     * number of events.
     */
    var registry: map<Uuid, Branch>
    var projected: nat

    /** How many operations of the stores and of the registry have failed. */
    ghost var faults: nat

    /** What holds between any two operations, whoever runs. Registry rows are never removed. */
    ghost predicate World()
      reads this, store
    {
      store.Valid() && Forked(store.events) && RegistryOk(registry, store.events) && projected <= |store.events|
    }

    constructor (store: EventStore, hasBranchStore: bool, hasPositions: bool)
      requires store.Valid() && Forked(store.events)
      ensures World()
      ensures this.store == store && this.hasBranchStore == hasBranchStore && this.hasPositions == hasPositions
    {
      this.store, this.hasBranchStore, this.hasPositions := store, hasBranchStore, hasPositions;
      registry, projected, faults := map[], 0, 0;
    }

    /** One operation of a store or of the registry: it may fail. */
    method Operate() returns (ok: bool)
      requires World()
      modifies this`faults
      ensures World()
      ensures faults == if ok then old(faults) else old(faults) + 1
    {
      ok := *;
      if !ok {
        faults := faults + 1;
      }
    }

    /**
     * Other requests run: any appends that keep branches forked, any new rows and row changes in the
     * registry, any progress of the read model. Nobody else knows the id of a branch being created,
     * `secret`.
     */
    method Interfere(me: nat, secret: Uuid := NIL)
      requires World()
      modifies this, store
      ensures World() && Rely(me, old(store.events), store.events) && faults == old(faults)
      ensures old(registry).Keys <= registry.Keys && old(projected) <= projected
      ensures secret != NIL ==> forall i :: |old(store.events)| <= i < |store.events| ==> store.events[i].branch != secret
    {
      hide ValidLog, Indexed, OpenedAs, Forked;
      var n: int := *;
      for k := 0 to if n < 0 then 0 else n
        invariant store.Valid() && Rely(me, old(store.events), store.events)
        invariant registry == old(registry) && projected == old(projected) && faults == old(faults)
        invariant secret != NIL ==> forall i :: |old(store.events)| <= i < |store.events| ==> store.events[i].branch != secret
      {
        var stream: Uuid, events: seq<Event>, expected: int, scope: Scope, writer: nat := *, *, *, *, *;
        var next := Append(store.events, stream, events, expected, scope, writer);
        if writer != me && (secret == NIL || scope.branch != secret) && next.Some? && Forked(next.value) {
          AppendKeepsValid(store.events, stream, scope, events, writer);
          var _ := store.AppendEvents(stream, events, expected, scope, writer);
        }
      }
      RegistryLater(registry, old(store.events), store.events);
      var rows: map<Uuid, Branch> := *;
      registry := registry + map id | id in rows && id != NIL && rows[id].id == id && OpenedAs(store.events, rows[id]) :: rows[id];
      var shown: nat := *;
      if projected <= shown <= |store.events| {
        projected := shown;
      }
    }

    lemma WorldIsValid()
      requires World()
      ensures store.Valid() && ValidLog(store.events) && Forked(store.events)
    {
    }

    /** The registry's answer for a branch. */
    method Get(id: Uuid) returns (row: Option<Branch>, err: MergeError)
      requires World()
      modifies this`faults
      ensures World() && old(faults) <= faults
      ensures row.Some? ==> id in registry && row.value == registry[id] && row.value.id == id && id != NIL
      ensures row.Some? ==> OpenedAs(store.events, row.value)
      ensures row.None? ==> (err == PLAIN && old(faults) < faults) || (err == Wrap(BranchNotFound) && id !in registry)
    {
      row, err := None, PLAIN;
      var ok := Operate();
      if !ok {
        return;
      }
      if id !in registry {
        err := Wrap(BranchNotFound);
        return;
      }
      row := Some(registry[id]);
    }

    /** Reads main's version of every stream the branch touched. */
    method CaptureMainVersions(me: nat, ids: seq<Uuid>) returns (pins: map<Uuid, nat>, failed: bool)
      requires World()
      modifies this, store
      ensures World() && Rely(me, old(store.events), store.events)
      ensures old(registry).Keys <= registry.Keys && old(projected) <= projected && old(faults) <= faults
      ensures if failed then old(faults) < faults else pins.Keys == SetOf(ids)
      ensures forall s :: s in pins ==> VersionSeen(store.events, |old(store.events)|, s, pins[s])
    {
      hide StreamVersion, VersionSeen;
      pins, failed := map[], false;
      for i := 0 to |ids|
        invariant World() && Rely(me, old(store.events), store.events)
        invariant old(registry).Keys <= registry.Keys && old(projected) <= projected && old(faults) <= faults
        invariant pins.Keys == SetOf(ids[..i])
        invariant forall s :: s in pins ==> VersionSeen(store.events, |old(store.events)|, s, pins[s])
      {
        ghost var before := store.events;
        Interfere(me);
        forall s | s in pins ensures VersionSeen(store.events, |old(store.events)|, s, pins[s]) {
          SeenSinceThen(before, store.events, |old(store.events)|, s, pins[s]);
        }
        var ok := Operate();
        if !ok {
          failed := true;
          return;
        }
        var version := store.GetStreamVersion(ids[i], NIL);
        SeenNow(store.events, |old(store.events)|, ids[i]);
        assert ids[..i + 1] == ids[..i] + [ids[i]];
        pins := pins[ids[i] := version];
      }
      assert ids[..|ids|] == ids;
    }

    /** The branch half of the diff: the branch and its own data events after the fork. */
    method LoadBranchSide(me: nat, id: Uuid)
      returns (branch: Option<Branch>, replay: Log, truncated: bool, err: MergeError, ghost log: Log)
      requires World()
      modifies this, store
      ensures World() && Rely(me, old(store.events), store.events) && log == store.events
      ensures old(registry).Keys <= registry.Keys && old(projected) <= projected && old(faults) <= faults
      ensures branch.Some? ==> branch.value.id == id && id in registry && OpenedAs(log, branch.value)
      ensures branch.Some? ==> replay == BranchSide(log, branch.value) && truncated == BranchTruncated(log, branch.value)
      ensures branch.None? ==> (err == PLAIN && old(faults) < faults) || (err == Wrap(BranchNotFound) && id !in registry)
    {
      hide RegistryOk, ValidLog, Indexed, OpenedAs, Forked;
      replay, truncated := [], false;
      Interfere(me);
      log := store.events;
      branch, err := Get(id);
      if branch.None? {
        return;
      }
      var b := branch.value;
      Interfere(me);
      RelyTransitive(me, old(store.events), log, store.events);
      OpenedLater(log, store.events, b);
      log := store.events;
      var ok := Operate();
      if !ok {
        return None, [], false, PLAIN, log;
      }
      var raw := store.ReadBranch(b.id, b.base, MAX_COMPARISON_EVENTS);
      replay := WithoutLifecycle(raw);
      truncated := |raw| >= MAX_COMPARISON_EVENTS;
    }

    /** The main half of the diff: main's data events after the fork on the branch's streams. */
    method LoadMainSide(me: nat, ids: seq<Uuid>, base: nat)
      returns (ok: bool, mainEvents: Log, truncated: bool)
      requires World()
      modifies this, store
      ensures World() && Rely(me, old(store.events), store.events)
      ensures old(registry).Keys <= registry.Keys && old(projected) <= projected && old(faults) <= faults
      ensures !ok ==> old(faults) < faults
      ensures ok ==> mainEvents == MainSide(store.events, ids, base) && truncated == MainTruncated(store.events, ids, base)
    {
      Interfere(me);
      mainEvents, truncated := [], false;
      ok := Operate();
      if !ok {
        return;
      }
      var raw := store.ReadStreamsForBranch(ids, NIL, base, MAX_COMPARISON_EVENTS);
      mainEvents := WithoutLifecycle(raw);
      truncated := |raw| >= MAX_COMPARISON_EVENTS;
    }

    /** Main's own tail, read only when the branch created something that carries an xref. */
    method ReadMainCreateTail(me: nat, replay: Log, base: nat) returns (ok: bool, tail: Log, truncated: bool)
      requires World()
      modifies this, store
      ensures World() && Rely(me, old(store.events), store.events)
      ensures old(registry).Keys <= registry.Keys && old(projected) <= projected && old(faults) <= faults
      ensures !ok ==> old(faults) < faults
      ensures ok ==> tail == MainTail(replay, base, store.events) && truncated == (|tail| >= MAX_COMPARISON_EVENTS)
    {
      ok, tail, truncated := true, [], false;
      var xrefs := CreatedXrefs(replay);
      assert |xrefs| > 0 <==> exists s :: XrefOf(replay, s) != "" by {
        if |xrefs| > 0 {
          var s :| s in xrefs;
          assert XrefOf(replay, s) != "";
        }
      }
      if |xrefs| > 0 {
        Interfere(me);
        ok := Operate();
        if ok {
          tail := store.ReadBranch(NIL, base, MAX_COMPARISON_EVENTS);
          truncated := |tail| >= MAX_COMPARISON_EVENTS;
        }
      }
    }

    /** Builds the merge plan. The pins are read after the branch side and before main's side. */
    method PlanMerge(me: nat, id: Uuid)
      returns (plan: Option<Plan>, err: MergeError, ghost branchLog: Log, ghost mainLog: Log, ghost tailLog: Log)
      requires World()
      modifies this, store
      ensures World() && Rely(me, old(store.events), store.events)
      ensures old(registry).Keys <= registry.Keys && old(projected) <= projected && old(faults) <= faults
      ensures plan.Some? ==> plan.value.branch.id == id && old(store.events) <= branchLog && tailLog <= store.events
      ensures plan.Some? ==> PlannedFrom(plan.value, branchLog, mainLog, tailLog)
      ensures plan.None? ==> (err == PLAIN && old(faults) < faults) || (err == Wrap(BranchNotFound) && id !in registry)
    {
      hide RegistryOk, ValidLog, Indexed, OpenedAs, Forked, VersionSeen, BranchSide, MainSide, MainTail, ConflictList;
      var branch, replay, branchTruncated, loadErr, log := LoadBranchSide(me, id);
      plan, err, branchLog, mainLog, tailLog := None, loadErr, log, [], [];
      if branch.None? {
        return;
      }
      var ids := BranchStreamIds(replay);
      var pins, failed := CaptureMainVersions(me, ids);
      ghost var pinned := store.events;
      RelyTransitive(me, old(store.events), log, pinned);
      if failed {
        return None, PLAIN, log, [], [];
      }
      var ok, mainEvents, mainTruncated := LoadMainSide(me, ids, branch.value.base);
      mainLog := store.events;
      forall s | s in pins ensures VersionSeen(mainLog, |log|, s, pins[s]) {
        SeenSinceThen(pinned, mainLog, |log|, s, pins[s]);
      }
      RelyTransitive(me, old(store.events), pinned, mainLog);
      if !ok {
        return None, PLAIN, log, [], [];
      }
      var tailOk, tail, tailTruncated := ReadMainCreateTail(me, replay, branch.value.base);
      tailLog := store.events;
      RelyTransitive(me, old(store.events), mainLog, tailLog);
      if !tailOk {
        return None, PLAIN, log, [], [];
      }
      var conflicts := ClassifyConflicts(replay, mainEvents, tail);
      plan := Some(Plan(branch.value, replay, conflicts, pins, branchTruncated, mainTruncated || tailTruncated));
    }

    /** Refuses when main moved on a stream the merge would replay, or when such a stream has no pin. */
    method ValidatePlanNotStale(me: nat, groups: seq<StreamGroup>, pins: map<Uuid, nat>, resolutions: Resolutions)
      returns (err: Option<MergeError>)
      requires World()
      modifies this, store
      ensures World() && Rely(me, old(store.events), store.events)
      ensures old(registry).Keys <= registry.Keys && old(projected) <= projected && old(faults) <= faults
      ensures err.None? ==> StillPinned(ActiveGroups(groups, resolutions), pins, |old(store.events)|, store.events)
      ensures err.Some? ==> err.value in {PLAIN, Wrap(PlanStale), Wrap(PlanIncomplete)}
      ensures err == Some(PLAIN) ==> old(faults) < faults
      ensures err == Some(Wrap(PlanStale)) ==>
        exists g :: g in ActiveGroups(groups, resolutions) && LeftPin(g, pins, |old(store.events)|, store.events)
      ensures err == Some(Wrap(PlanIncomplete)) ==> exists g :: g in ActiveGroups(groups, resolutions) && g.stream !in pins
    {
      hide VersionSeen, StreamVersion, LeftPin;
      FilterMembers(Replayed(resolutions), groups);
      for i := 0 to |groups|
        invariant World() && Rely(me, old(store.events), store.events)
        invariant old(registry).Keys <= registry.Keys && old(projected) <= projected && old(faults) <= faults
        invariant StillPinned(ActiveGroups(groups[..i], resolutions), pins, |old(store.events)|, store.events)
      {
        assert groups[..i + 1][..i] == groups[..i];
        ghost var before := store.events;
        var group := groups[i];
        if KeepsMain(resolutions, group.stream) {
          continue;
        }
        assert group in ActiveGroups(groups, resolutions);
        if group.stream !in pins {
          return Some(Wrap(PlanIncomplete));
        }
        Interfere(me);
        var ok := Operate();
        if !ok {
          return Some(PLAIN);
        }
        var current := store.GetStreamVersion(group.stream, NIL);
        if current != pins[group.stream] {
          LeavesPin(group, pins, |old(store.events)|, store.events);
          return Some(Wrap(PlanStale));
        }
        StillPinnedGrows(ActiveGroups(groups[..i], resolutions), pins, |old(store.events)|, before, store.events);
        SeenNow(store.events, |old(store.events)|, group.stream);
      }
      assert groups[..|groups|] == groups;
      err := None;
    }

    /** Searches the log, not the registry, for the first claim on the branch. */
    method BranchAlreadyClaimed(branch: Uuid) returns (claim: Option<Event>)
      requires store.Valid()
      ensures claim.None? <==> NoClaim(store.events, branch)
      ensures claim.Some? ==> claim.value.BranchMerged? && IsClaim(store.events, branch, claim.value)
    {
      var rows := store.ReadStream(branch);
      FilterMembers(OfStream(branch), store.events);
      for i := 0 to |rows|
        invariant forall e :: e in rows[..i] && e.branch == branch ==> !e.event.BranchMerged?
      {
        if rows[i].branch != branch || !rows[i].event.BranchMerged? {
          continue;
        }
        assert rows[i] in rows;
        return Some(rows[i].event);
      }
      assert rows[..|rows|] == rows;
      claim := None;
    }

    /**
     * Projects a claim: the registry row becomes terminal and carries the claim's own note, and then the
     * branch's overlay is purged. A purge that fails leaves the row marked.
     */
    method ProjectBranchMerged(id: Uuid, note: string) returns (err: Option<MergeError>, ghost marked: bool)
      requires World()
      modifies this`registry, this`faults
      ensures World() && registry.Keys == old(registry).Keys && old(faults) <= faults
      ensures err.None? ==> marked
      ensures err.Some? ==> (err.value == PLAIN && old(faults) < faults) || (err.value == Wrap(BranchNotFound) && id !in registry)
      ensures marked ==> id in old(registry) && registry == old(registry)[id := MergedRow(old(registry)[id], note)]
      ensures !marked ==> registry == old(registry)
    {
      hide ValidLog, Indexed, Forked;
      marked := false;
      var ok := Operate();
      if !ok {
        return Some(PLAIN), false;
      }
      if id !in registry {
        return Some(Wrap(BranchNotFound)), false;
      }
      registry := registry[id := MergedRow(registry[id], note)];
      marked := true;
      ok := Operate();
      if !ok {
        return Some(PLAIN), true;
      }
      err := None;
    }

    /** Projects a delete: the registry row is archived, and then the branch's overlay is purged. */
    method ProjectBranchDeleted(id: Uuid) returns (err: Option<MergeError>, ghost marked: bool)
      requires World()
      modifies this`registry, this`faults
      ensures World() && registry.Keys == old(registry).Keys && old(faults) <= faults
      ensures err.None? ==> marked
      ensures err.Some? ==> (err.value == PLAIN && old(faults) < faults) || (err.value == Wrap(BranchNotFound) && id !in registry)
      ensures marked ==> id in old(registry) && registry == old(registry)[id := old(registry)[id].(status := BranchStatus.Archived)]
      ensures !marked ==> registry == old(registry)
    {
      hide ValidLog, Indexed, Forked;
      marked := false;
      var ok := Operate();
      if !ok {
        return Some(PLAIN), false;
      }
      if id !in registry {
        return Some(Wrap(BranchNotFound)), false;
      }
      registry := registry[id := registry[id].(status := BranchStatus.Archived)];
      marked := true;
      ok := Operate();
      if !ok {
        return Some(PLAIN), true;
      }
      err := None;
    }

    /**
     * The compare-and-set on the branch's own stream: version first, then the search, then an append
     * at that version. Either nothing was appended, or exactly the claim was, onto a log in which no
     * claim on the branch existed. A failure after the append has no sentinel.
     */
    method ClaimMerge(me: nat, branch: Branch, mergedAt: nat, note: string)
      returns (err: Option<MergeError>, claimed: bool, ghost at: nat)
      requires World() && branch.id in registry
      modifies this, store
      ensures World() && old(store.events) <= store.events && branch.id in registry
      ensures old(registry).Keys <= registry.Keys && old(faults) <= faults
      ensures err == Some(PLAIN) ==> old(faults) < faults || SeenEmpty(store.events, branch.id, |old(store.events)|)
      ensures err.Some? && claimed ==> old(faults) < faults
      ensures err.None? ==> claimed && registry[branch.id].status == BranchStatus.Merged && registry[branch.id].mergeNote == note
      ensures err.Some? ==> err.value == PLAIN || (err.value == Wrap(AlreadyClaimed) && !claimed)
      ensures err == Some(Wrap(AlreadyClaimed)) ==>
        HealedOrRaced(registry[branch.id], store.events, branch.id, |old(store.events)|)
      ensures !claimed ==> Rely(me, old(store.events), store.events)
      ensures claimed ==> Claimed(me, branch.id, old(store.events), store.events, at)
      ensures claimed ==> store.events[at].event == BranchMerged(branch.base, mergedAt, note)
    {
      hide RegistryOk, Rely, Claimed, ValidLog, Indexed, NoClaim, Forked, OpenedAs, HealedOrRaced, StreamVersion, SeenEmpty;
      claimed, at := false, 0;
      Interfere(me);
      ghost var versionLog := store.events;
      RelyIsPrefix(me, old(store.events), versionLog);
      var ok := Operate();
      if !ok {
        return Some(PLAIN), false, 0;
      }
      var currentVersion := store.GetStreamVersion(branch.id, branch.id);
      if currentVersion == 0 {
        ReadsEmpty(versionLog, branch.id, |old(store.events)|);
        return Some(PLAIN), false, 0;
      }
      Interfere(me);
      ghost var searchLog := store.events;
      RelyTransitive(me, old(store.events), versionLog, searchLog);
      ok := Operate();
      if !ok {
        return Some(PLAIN), false, 0;
      }
      var found := BranchAlreadyClaimed(branch.id);
      Interfere(me);
      ghost var before := store.events;
      RelyTransitive(me, old(store.events), searchLog, before);
      RelyIsPrefix(me, versionLog, searchLog);
      RelyIsPrefix(me, searchLog, before);
      if found.Some? {
        // Heal the registry the interrupted attempt left behind, then refuse.
        var healing, _ := ProjectBranchMerged(branch.id, found.value.note);
        ClaimFound(registry[branch.id], searchLog, before, branch.id, |old(store.events)|, found.value);
        return Some(if healing.Some? then healing.value else Wrap(AlreadyClaimed)), false, 0;
      }
      ok := Operate();
      if !ok {
        return Some(PLAIN), false, 0;
      }
      var won;
      won, at := AppendClaim(me, branch, mergedAt, note, currentVersion, versionLog, searchLog);
      if !won {
        RaceLost(registry[branch.id], versionLog, before, branch.id, |old(store.events)|);
        return Some(Wrap(AlreadyClaimed)), false, 0;
      }
      ghost var appended := store.events;
      ClaimedAfterRely(me, branch.id, old(store.events), before, appended, at);
      Interfere(me);
      ClaimedThenRely(me, branch.id, old(store.events), appended, store.events, at);
      ghost var marked;
      err, marked := ProjectBranchMerged(branch.id, note);
      claimed := true;
    }

    /** The append of a claim, at the version read before the log was searched. */
    method AppendClaim(me: nat, branch: Branch, mergedAt: nat, note: string, version: nat,
                       ghost versionLog: Log, ghost searchLog: Log)
      returns (won: bool, ghost at: nat)
      requires World() && version > 0
      requires Rely(me, versionLog, searchLog) && Rely(me, searchLog, store.events)
      requires version == StreamVersion(versionLog, branch.id, branch.id) && NoClaim(searchLog, branch.id)
      modifies store
      ensures World()
      ensures won <==> StreamVersion(old(store.events), branch.id, branch.id) == version
      ensures !won ==> store.events == old(store.events)
      ensures won ==> Claimed(me, branch.id, old(store.events), store.events, at)
      ensures won ==> store.events[at].event == BranchMerged(branch.base, mergedAt, note)
    {
      hide Forked, OpenedAs;
      ghost var before := store.events;
      VersionsGrow(versionLog, before);
      var event := BranchMerged(branch.base, mergedAt, note);
      won := store.AppendEvents(branch.id, [event], version, Scope(branch.id, branch.base), me);
      at := |before|;
      if won {
        NoClaimStands(versionLog, searchLog, before, branch.id);
        assert store.events[..at] == before;
      }
      ForksStand(before, store.events);
      RegistryLater(registry, before, store.events);
    }

    /** The Append of a replayed group, at the version the plan was checked against. */
    method AppendGroup(me: nat, group: StreamGroup, planned: nat) returns (ok: bool, ghost at: nat)
      requires World()
      modifies store
      ensures World() && old(store.events) <= store.events
      ensures !ok ==> store.events == old(store.events) && StreamVersion(store.events, group.stream, NIL) != planned
      ensures ok ==> at == |old(store.events)| && BatchAt(me, group, planned, old(store.events), store.events, at)
    {
      hide Forked, OpenedAs;
      ghost var before := store.events;
      var expected: int := planned;
      if planned == 0 {
        expected := -1;
      }
      var events := Map(EventOf(), group.events);
      AppendOnMain(before, group.stream, events, expected, me);
      at := |before|;
      ok := store.AppendEvents(group.stream, events, expected, MAIN_SCOPE, me);
      if ok {
        AppendIsBatch(me, group, planned, before,
                      Stored(group.stream, NIL, StreamVersion(before, group.stream, NIL), |before|, events, me));
      }
      ForksStand(before, store.events);
      RegistryLater(registry, before, store.events);
    }

    /**
     * Re-appends one group onto main in a single Append, after asserting main's version against the
     * plan. `read` is the log length at which that version was read.
     */
    method ReplayStream(me: nat, group: StreamGroup, planned: nat)
      returns (appended: nat, err: Option<MergeError>, ghost read: nat, ghost at: nat)
      requires World() && group.events != []
      modifies this, store
      ensures World() && old(store.events) <= store.events && old(registry).Keys <= registry.Keys && old(faults) <= faults
      ensures err.Some? ==> err.value in {PLAIN, Wrap(PlanStale), Wrap(ConcurrencyConflict)}
      ensures err == Some(PLAIN) ==> old(faults) < faults
      ensures err == Some(Wrap(PlanStale)) ==>
        appended == 0 && LeftVersion(group.stream, planned, |old(store.events)|, store.events)
      ensures err == Some(Wrap(ConcurrencyConflict)) ==>
        && appended == 0 && |old(store.events)| <= read <= |store.events|
        && StreamVersion(store.events[..read], group.stream, NIL) == planned
        && !NothingBetween(store.events, group.stream, NIL, read, |store.events|)
      ensures appended == 0 ==> err.Some? && Rely(me, old(store.events), store.events)
      ensures appended != 0 ==> appended == |group.events|
      ensures appended != 0 ==> BatchAt(me, group, planned, old(store.events), store.events, at)
      ensures appended != 0 ==> |old(store.events)| <= read <= at && StreamVersion(store.events[..read], group.stream, NIL) == planned
    {
      hide RegistryOk, Rely, BatchAt, ValidLog, Indexed, Forked, OpenedAs, LeftVersion, NothingBetween, StreamVersion;
      appended, err, read, at := 0, Some(PLAIN), 0, 0;
      RelyReflexive(me, store.events);
      var ok := Operate();
      if !ok {
        return;
      }
      Interfere(me);
      ghost var readLog := store.events;
      RelyIsPrefix(me, old(store.events), readLog);
      ok := Operate();
      if !ok {
        return;
      }
      var currentVersion := store.GetStreamVersion(group.stream, NIL);
      if currentVersion != planned {
        LeavesVersion(group.stream, planned, |old(store.events)|, readLog);
        err := Some(Wrap(PlanStale));
        return;
      }
      Interfere(me);
      ghost var before := store.events;
      RelyTransitive(me, old(store.events), readLog, before);
      RelyIsPrefix(me, readLog, before);
      ok := Operate();
      if !ok {
        return;
      }
      var landed, start := AppendGroup(me, group, currentVersion);
      read := |readLog|;
      if !landed {
        StandsOrNot(readLog, before, group.stream, NIL);
        assert store.events[..read] == readLog;
        err := Some(Wrap(ConcurrencyConflict));
        return;
      }
      ghost var stored := store.events;
      BatchAfterRely(me, group, planned, old(store.events), before, stored, start);
      Interfere(me);
      BatchThenRely(me, group, planned, old(store.events), stored, store.events, start);
      RelyIsPrefix(me, stored, store.events);
      assert store.events[..|readLog|] == readLog;
      appended, at := |group.events|, start;
      ok := Operate();
      if ok {
        err := None;
      }
    }

    /**
     * Replays the groups in order, one Append per stream, leaving out those resolved to main. Whatever
     * happens, what reached main is a prefix of the groups to replay (`done` of them), and the error
     * message says "not modified" exactly when that prefix is empty.
     */
    method ReplayOntoMain(me: nat, groups: seq<StreamGroup>, pins: map<Uuid, nat>, resolutions: Resolutions,
                          ghost plan: Plan, ghost branchLog: Log, ghost mainLog: Log, ghost tailLog: Log)
      returns (replayed: nat, skipped: seq<Uuid>, err: Option<MergeError>, ghost copied: Log, ghost done: nat)
      requires World()
      requires PlannedFrom(plan, branchLog, mainLog, tailLog) && !plan.mainTruncated && mainLog <= store.events
      requires groups == GroupsOf(plan.replay) && pins == plan.pins
      requires OnlyOn(me, {}, store.events)
      modifies this, store
      ensures World() && old(registry).Keys <= registry.Keys && old(faults) <= faults
      ensures done <= |ActiveGroups(groups, resolutions)|
      ensures Copied(me, ActiveGroups(groups, resolutions)[..done], old(store.events), store.events, copied)
      ensures AllVerdictsHeld(me, plan, mainLog, store.events)
      ensures err.None? ==> done == |ActiveGroups(groups, resolutions)| && replayed == |copied|
      ensures err.None? ==> skipped == SkippedStreams(groups, resolutions)
      ensures err.Some? ==> err.value.wraps <= {PlanStale, ConcurrencyConflict, PlanIncomplete}
      ensures err.Some? && (forall g :: g in ActiveGroups(groups, resolutions) ==> g.stream in pins) ==>
        && err.value.mainUntouched == Some(done == 0) && PlanIncomplete !in err.value.wraps
        && (old(faults) < faults || Disturbed(me, ActiveGroups(groups, resolutions), |branchLog|, store.events))
      ensures err.Some? && (PlanStale in err.value.wraps || ConcurrencyConflict in err.value.wraps) ==>
        Disturbed(me, ActiveGroups(groups, resolutions), |branchLog|, store.events)
    {
      hide RegistryOk, ReplayState, Progress, Copied, AllVerdictsHeld, ActiveGroups, SkippedStreams, PlannedFrom, OnlyOn, GroupFor,
           StreamsOf, ValidLog, Indexed, KeepsMain, Forked, OpenedAs, OthersWrote;
      replayed, skipped, err, copied, done := 0, [], None, [], 0;
      ghost var active: seq<StreamGroup> := [];
      ghost var start := store.events;
      GroupsShape(plan.replay);
      GroupMembersStream(plan.replay);
      ReplayStarts(me, plan, mainLog, groups, resolutions, start);
      for i := 0 to |groups|
        invariant World() && old(registry).Keys <= registry.Keys && old(faults) <= faults
        invariant Progress(groups, resolutions, i, active, skipped) && done == |active|
        invariant ReplayState(me, plan, mainLog, active, start, store.events, copied)
        invariant replayed == |copied| && (replayed == 0 <==> done == 0)
      {
        var group := groups[i];
        if KeepsMain(resolutions, group.stream) {
          ProgressSkips(groups, resolutions, i, active, skipped);
          skipped := skipped + [group.stream];
          continue;
        }
        ProgressReplays(groups, resolutions, i, active, skipped);
        ReplayStops(me, plan, mainLog, groups, resolutions, i, active, skipped, start, store.events, copied);
        if group.stream !in pins {
          return 0, [], Some(Wrap(PlanIncomplete)), copied, done;
        }
        var appended, failure, batch :=
          ReplayGroup(me, group, pins[group.stream], active, start, plan, branchLog, mainLog, tailLog, copied);
        replayed := replayed + appended;
        if appended > 0 {
          copied := copied + batch;
          active := active + [group];
          done := done + 1;
        }
        if failure.Some? {
          ReplayStops(me, plan, mainLog, groups, resolutions, if appended > 0 then i + 1 else i, active, skipped,
                      start, store.events, copied);
          return 0, [], Some(MergeError(failure.value.wraps, Some(replayed == 0))), copied, done;
        }
      }
      ReplayStops(me, plan, mainLog, groups, resolutions, |groups|, active, skipped, start, store.events, copied);
    }

    /** One stream of the replay, in the terms of the whole: the state grows by the group, or not at all. */
    method ReplayGroup(me: nat, group: StreamGroup, planned: nat, ghost active: seq<StreamGroup>, ghost start: Log,
                       ghost plan: Plan, ghost branchLog: Log, ghost mainLog: Log, ghost tailLog: Log, ghost copied: Log)
      returns (appended: nat, err: Option<MergeError>, ghost batch: Log)
      requires World() && group.events != [] && forall e :: e in group.events ==> e.stream == group.stream
      requires PlannedFrom(plan, branchLog, mainLog, tailLog) && !plan.mainTruncated
      requires group.stream in plan.pins && plan.pins[group.stream] == planned
      requires ReplayState(me, plan, mainLog, active, start, store.events, copied)
      requires group.stream !in StreamsOf(active)
      modifies this, store
      ensures World() && old(registry).Keys <= registry.Keys && old(faults) <= faults
      ensures err.Some? ==> err.value in {PLAIN, Wrap(PlanStale), Wrap(ConcurrencyConflict)}
      ensures err == Some(PLAIN) ==> old(faults) < faults
      ensures err.Some? && err.value != PLAIN ==> OthersWrote(me, group.stream, |branchLog|, store.events)
      ensures appended == 0 ==> err.Some? && ReplayState(me, plan, mainLog, active, start, store.events, copied)
      ensures appended > 0 ==> appended == |batch|
      ensures appended > 0 ==> ReplayState(me, plan, mainLog, active + [group], start, store.events, copied + batch)
    {
      ghost var before := store.events;
      ghost var read, at;
      appended, err, read, at := ReplayStream(me, group, planned);
      batch := [];
      if appended == 0 {
        ReplayStateRely(me, plan, mainLog, active, start, before, store.events, copied);
        PlanLogsGrow(plan, branchLog, mainLog, tailLog);
        if err == Some(Wrap(PlanStale)) {
          LeftByOthers(me, plan, branchLog, mainLog, tailLog, StreamsOf(active), group.stream, |before|, store.events);
        } else if err == Some(Wrap(ConcurrencyConflict)) {
          BetweenByOthers(me, StreamsOf(active), group.stream, |branchLog|, read, store.events);
        }
      } else {
        batch := store.events[at..at + |group.events|];
        ReplayStateStep(me, plan, branchLog, mainLog, tailLog, active, group, start, before, store.events, copied, read, at);
      }
    }

    /** A store the merge needs is missing, or the branch's row refuses it. */
    ghost predicate DoorShut(err: MergeError, id: Uuid, note: string)
      reads this
    {
      if !hasBranchStore then err == Wrap(BranchStoreRequired)
      else if !hasPositions then err == Wrap(PositionSourceRequired)
      else RowRefuses(err, note, RowOf(registry, id))
    }

    /** The guards of a merge: the stores it needs, an active branch, and a note the branch can carry. */
    method AdmitMerge(me: nat, id: Uuid, note: string) returns (refusal: Option<MergeError>, branch: Branch)
      requires World()
      modifies this, store
      ensures World() && Rely(me, old(store.events), store.events)
      ensures old(registry).Keys <= registry.Keys && old(projected) <= projected && old(faults) <= faults
      ensures !hasBranchStore ==> refusal == Some(Wrap(BranchStoreRequired))
      ensures hasBranchStore && !hasPositions ==> refusal == Some(Wrap(PositionSourceRequired))
      ensures refusal.Some? ==> refusal.value.wraps <= ADMISSION_ERRORS
      ensures refusal == Some(PLAIN) ==> old(faults) < faults
      ensures refusal.Some? && refusal.value != PLAIN ==> DoorShut(refusal.value, id, note)
      ensures refusal.None? ==> id in registry && registry[id] == branch && branch.id == id && id != NIL
      ensures refusal.None? ==> branch.status == Active && |note| <= 1000
    {
      hide RegistryOk, Rely, ValidLog, Indexed, Forked, OpenedAs;
      branch := NO_BRANCH;
      RelyReflexive(me, store.events);
      if !hasBranchStore {
        return Some(Wrap(BranchStoreRequired)), branch;
      }
      if !hasPositions {
        return Some(Wrap(PositionSourceRequired)), branch;
      }
      Interfere(me);
      var row, err := Get(id);
      if row.None? {
        return Some(err), branch;
      }
      branch := row.value;
      if branch.status != Active {
        return Some(Wrap(BranchNotActive)), branch;
      }
      refusal := ValidateBranch(branch.(mergeNote := note));
    }

    /** Looks one person up in main's read model. */
    method GetPerson(me: nat, person: Uuid) returns (found: Option<bool>)
      requires World()
      modifies this, store
      ensures World() && Rely(me, old(store.events), store.events)
      ensures old(registry).Keys <= registry.Keys && old(projected) <= projected && old(faults) <= faults
      ensures found.None? ==> old(faults) < faults
      ensures found == Some(true) ==> SeenOnMain(person, old(projected), store.events)
      ensures found == Some(false) ==> MissedOnMain(person, old(projected), store.events)
    {
      hide RegistryOk, Rely, ValidLog, Indexed, Forked, OpenedAs, MainRows;
      Interfere(me);
      var ok := Operate();
      if !ok {
        return None;
      }
      found := Some(person in MainRows(store.events[..projected]).persons);
    }

    /**
     * The reference check. It asks for each linked person the replay does not itself touch, once, while
     * other requests go on; a refusal names a link to a person main was seen without.
     */
    method ValidateNoDanglingReferences(me: nat, groups: seq<StreamGroup>, resolutions: Resolutions)
      returns (err: Option<MergeError>)
      requires World()
      modifies this, store
      ensures World() && Rely(me, old(store.events), store.events)
      ensures old(registry).Keys <= registry.Keys && old(projected) <= projected && old(faults) <= faults
      ensures err.None? ==> LinksSeen(groups, resolutions, old(projected), store.events)
      ensures err.Some? ==> err.value in {PLAIN, Wrap(DanglingReference)}
      ensures err == Some(PLAIN) ==> old(faults) < faults
      ensures err == Some(Wrap(DanglingReference)) ==>
        exists p :: LinksAbroad(groups, resolutions, p) && MissedOnMain(p, old(projected), store.events)
    {
      hide RegistryOk, Rely, ValidLog, Indexed, Forked, OpenedAs, SeenOnMain, MissedOnMain, StreamsOf, ActiveGroups;
      var replayed := ReplayedStreams(groups, resolutions);
      var checked: set<Uuid> := {};
      RelyReflexive(me, store.events);
      ghost var start, from := store.events, projected;
      for i := 0 to |groups|
        invariant World() && Rely(me, start, store.events)
        invariant old(registry).Keys <= registry.Keys && from <= projected && old(faults) <= faults
        invariant forall p :: p in checked ==> SeenOnMain(p, from, store.events)
        invariant forall k :: 0 <= k < i && !KeepsMain(resolutions, groups[k].stream) ==>
          LinksWithin(groups[k].events, replayed + checked)
      {
        if KeepsMain(resolutions, groups[i].stream) {
          continue;
        }
        var events := groups[i].events;
        for j := 0 to |events|
          invariant World() && Rely(me, start, store.events)
          invariant old(registry).Keys <= registry.Keys && from <= projected && old(faults) <= faults
          invariant forall p :: p in checked ==> SeenOnMain(p, from, store.events)
          invariant forall k :: 0 <= k < i && !KeepsMain(resolutions, groups[k].stream) ==>
            LinksWithin(groups[k].events, replayed + checked)
          invariant LinksWithin(events[..j], replayed + checked)
        {
          if !events[j].event.ChildLinked? {
            LinksOneMore(events, j, replayed + checked, replayed + checked);
            continue;
          }
          var person := events[j].event.person;
          if person in replayed || person in checked {
            LinksOneMore(events, j, replayed + checked, replayed + checked);
            continue;
          }
          ghost var before, shown := store.events, projected;
          var found := GetPerson(me, person);
          RelyTransitive(me, start, before, store.events);
          SeenOnMainLater(person, shown, from, store.events, store.events);
          if found.None? {
            return Some(PLAIN);
          }
          if !found.value {
            ActiveMember(groups, resolutions, i, events[j]);
            assert IsLink(events[j], person);
            assert LinksAbroad(groups, resolutions, person);
            return Some(Wrap(DanglingReference));
          }
          SeenStays(me, checked, from, before, store.events);
          LinksOneMore(events, j, replayed + checked, replayed + (checked + {person}));
          checked := checked + {person};
        }
        assert events[..|events|] == events;
      }
      AllLinksSeen(groups, resolutions, replayed, checked, from, store.events);
      err := None;
    }

    /**
     * The checks of a plan, in order: resolutions, linked persons, undecided conflicts, and last main's
     * versions. Passing them all makes the plan ready to claim for.
     */
    method ValidateMerge(me: nat, plan: Plan, groups: seq<StreamGroup>, resolutions: Resolutions,
                         ghost branchLog: Log, ghost mainLog: Log, ghost tailLog: Log)
      returns (refusal: Option<MergeError>, conflicts: seq<Conflict>, mergedAt: nat)
      requires World() && groups == GroupsOf(plan.replay)
      requires PlannedFrom(plan, branchLog, mainLog, tailLog) && tailLog <= store.events
      requires !plan.branchTruncated && !plan.mainTruncated
      modifies this, store
      ensures World() && Rely(me, old(store.events), store.events)
      ensures old(registry).Keys <= registry.Keys && old(projected) <= projected && old(faults) <= faults
      ensures refusal.Some? ==> PartiallyApplied !in refusal.value.wraps
      ensures refusal == Some(PLAIN) ==> old(faults) < faults
      ensures refusal.Some? && refusal.value != PLAIN ==>
        PlanRefuses(refusal.value, plan, branchLog, resolutions, conflicts, old(projected), store.events)
      ensures refusal.Some? && MergeConflicts in refusal.value.wraps ==> exists c :: c in conflicts && c.stream !in resolutions
      ensures refusal == Some(Wrap(PlanStale)) ==> exists g ::
        g in ActiveGroups(groups, resolutions) && MovedPastPin(g.stream, plan.pins, |branchLog|, store.events)
      ensures refusal.Some? ==> PlanIncomplete !in refusal.value.wraps
      ensures refusal.None? ==>
        ReadyToClaim(plan.branch.id, resolutions, plan, branchLog, mainLog, tailLog, old(projected), mergedAt, store.events)
    {
      hide RegistryOk, Rely, ValidLog, Indexed, PlannedFrom, ActiveGroups, GroupFor, LinksSeen, StreamsOf, GroupsOf, StillPinned,
           ResolutionsKnown, ResolutionsSupported, ConflictsDecided, Forked, OpenedAs, MissedOnMain, LinksAbroad, LeftPin,
           MovedPastPin;
      conflicts, mergedAt := [], 0;
      ghost var start, from := store.events, projected;
      RelyReflexive(me, start);
      refusal := ValidateResolutions(resolutions, groups);
      if refusal.Some? {
        return;
      }
      refusal := ValidateConflictResolutions(plan.conflicts, resolutions);
      if refusal.Some? {
        return;
      }
      refusal := ValidateNoDanglingReferences(me, groups, resolutions);
      ghost var log2 := store.events;
      if refusal.Some? {
        return;
      }
      var unresolved := UnresolvedConflicts(plan.conflicts, resolutions);
      if unresolved > 0 {
        refusal, conflicts := Some(Wrap(MergeConflicts)), plan.conflicts;
        return;
      }
      AllDecided(plan.conflicts, resolutions, groups);
      Interfere(me);
      ghost var log3 := store.events;
      RelyTransitive(me, start, log2, log3);
      mergedAt := |store.events|;
      var ok := Operate();
      if !ok {
        refusal := Some(PLAIN);
        return;
      }
      GroupsArePinned(plan, branchLog, mainLog, tailLog, resolutions);
      refusal := ValidatePlanNotStale(me, groups, plan.pins, resolutions);
      RelyTransitive(me, start, log3, store.events);
      RelyGrows(me, start, log2, log3, store.events);
      RelyIsPrefix(me, log2, log3);
      if refusal == Some(Wrap(PlanStale)) {
        ghost var g :| g in ActiveGroups(groups, resolutions) && LeftPin(g, plan.pins, |log3|, store.events);
        LeftIsMoved(plan, branchLog, mainLog, tailLog, g, |log3|, log3, store.events);
      }
      if refusal.None? {
        LinksSeenLater(groups, resolutions, from, from, log2, store.events);
      }
    }

    /**
     * The part of a merge that only reads: guards, plan, checks, and last the staleness check. It
     * either refuses, having appended nothing, or hands over a plan every conflict of which is decided.
     */
    method PrepareMerge(me: nat, id: Uuid, note: string, resolutions: Resolutions)
      returns (refusal: Option<MergeError>, conflicts: seq<Conflict>, branch: Branch, plan: Plan,
               groups: seq<StreamGroup>, mergedAt: nat,
               ghost branchLog: Log, ghost mainLog: Log, ghost tailLog: Log, ghost from: nat)
      requires World()
      modifies this, store
      ensures World() && Rely(me, old(store.events), store.events)
      ensures old(registry).Keys <= registry.Keys && old(faults) <= faults
      ensures refusal == Some(PLAIN) ==> old(faults) < faults
      ensures refusal.Some? && refusal.value != PLAIN ==>
        || DoorShut(refusal.value, id, note)
        || PlanRefused(refusal.value, id, resolutions, conflicts, |old(store.events)|, old(projected), store.events)
      ensures refusal.Some? ==> PartiallyApplied !in refusal.value.wraps
      ensures refusal.Some? && MergeConflicts in refusal.value.wraps ==> exists c :: c in conflicts && c.stream !in resolutions
      ensures refusal == Some(Wrap(PlanStale)) ==> MainMoved(|old(store.events)|, store.events)
      ensures refusal.Some? ==> PlanIncomplete !in refusal.value.wraps
      ensures refusal.None? ==> branch.id == id && id != NIL && id in registry && groups == GroupsOf(plan.replay)
      ensures refusal.None? ==> old(store.events) <= branchLog && old(projected) <= from
      ensures refusal.None? ==> ReadyToClaim(id, resolutions, plan, branchLog, mainLog, tailLog, from, mergedAt, store.events)
    {
      hide RegistryOk, Rely, ValidLog, Indexed, PlannedFrom, ActiveGroups, GroupFor, GroupsOf, Forked, OpenedAs, ReadyToClaim, MovedPastPin,
           MainMoved, PlanRefused, PlanRefuses;
      conflicts, branch, groups, mergedAt, branchLog, mainLog, tailLog, from := [], NO_BRANCH, [], 0, [], [], [], 0;
      plan := Plan(NO_BRANCH, [], [], map[], false, false);
      ghost var start, shown := store.events, projected;
      refusal, branch := AdmitMerge(me, id, note);
      ghost var log0 := store.events;
      if refusal.Some? {
        return;
      }
      var planned, planErr;
      planned, planErr, branchLog, mainLog, tailLog := PlanMerge(me, id);
      ghost var log1 := store.events;
      RelyIsPrefix(me, start, log0);
      RelyTransitive(me, start, log0, log1);
      if planned.None? {
        refusal := Some(planErr);
        return;
      }
      plan := planned.value;
      TruncatedRefuses(plan, branchLog, resolutions, conflicts, shown, log1);
      if plan.branchTruncated {
        refusal := Some(Wrap(BranchTooLarge));
        RefusedByPlan(Wrap(BranchTooLarge), id, plan, branchLog, mainLog, tailLog, resolutions, conflicts, |start|, shown, shown, log1);
        return;
      }
      if plan.mainTruncated {
        refusal := Some(Wrap(MainTooFarAhead));
        RefusedByPlan(Wrap(MainTooFarAhead), id, plan, branchLog, mainLog, tailLog, resolutions, conflicts, |start|, shown, shown, log1);
        return;
      }
      groups := GroupEventsByStream(plan.replay);
      from := projected;
      refusal, conflicts, mergedAt := ValidateMerge(me, plan, groups, resolutions, branchLog, mainLog, tailLog);
      RelyTransitive(me, start, log1, store.events);
      RelyIsPrefix(me, log1, store.events);
      if refusal.Some? && refusal.value != PLAIN {
        RefusedByPlan(refusal.value, id, plan, branchLog, mainLog, tailLog, resolutions, conflicts, |start|, shown, from, store.events);
      }
      if refusal == Some(Wrap(PlanStale)) {
        ghost var g :| g in ActiveGroups(groups, resolutions) && MovedPastPin(g.stream, plan.pins, |branchLog|, store.events);
        MovedPastPinMoved(g.stream, plan.pins, |branchLog|, |start|, store.events);
      }
    }

    /**
     * Merges a branch: prepare, claim, replay, re-read. `trace` records what the call left in the log,
     * and every outcome tells the truth about it.
     */
    method MergeBranch(me: nat, id: Uuid, note: string, resolutions: Resolutions)
      returns (out: Outcome, ghost trace: Trace)
      requires World() && Mine(me, store.events) == []
      modifies this, store
      ensures World() && old(store.events) <= store.events
      ensures trace.Untouched? ==> out.Failed? && Mine(me, store.events) == []
      ensures trace.Applied? ==> TraceHolds(me, id, resolutions, trace, store.events)
      ensures trace.Applied? ==> old(store.events) <= trace.branchLog && old(projected) <= trace.from
      ensures trace.Applied? ==> trace.at < |store.events| && ClaimSays(store.events[trace.at].event, note, out)
      ensures OutcomeMatches(resolutions, trace, out)
      ensures trace.Applied? && out.Failed? && old(faults) == faults ==> Interrupted(me, resolutions, trace, store.events)
      ensures out.Failed? && PartiallyApplied in out.err.wraps && out.err.wraps != {PartiallyApplied} ==>
        trace.Applied? && Interrupted(me, resolutions, trace, store.events)
      ensures out.Failed? && out.err == PLAIN ==> old(faults) < faults
      ensures trace.Untouched? && out.err != PLAIN ==>
        || DoorShut(out.err, id, note)
        || PlanRefused(out.err, id, resolutions, out.conflicts, |old(store.events)|, old(projected), store.events)
        || (out.err == Wrap(AlreadyClaimed) && id in registry
            && HealedOrRaced(registry[id], store.events, id, |old(store.events)|))
      ensures out.Failed? && Status(ErrorResponse(out.err)) in {400, 404, 409, 503} ==> Mine(me, store.events) == []
      ensures out.Failed? && PartiallyApplied in out.err.wraps ==> Status(ErrorResponse(out.err)) == 500
      ensures out.Failed? && out.err == Wrap(PlanStale) ==> MainMoved(|old(store.events)|, store.events)
      ensures out.Failed? ==> PlanIncomplete !in out.err.wraps
      ensures out.Failed? && MergeConflicts in out.err.wraps ==> exists c :: c in out.conflicts && c.stream !in resolutions
    {
      hide World, StillPinned, RegistryOk, ReadyToClaim, Rely, Claimed, ValidLog, Indexed, PlannedFrom, Copied,
           AllVerdictsHeld, OnlyOn, ActiveGroups, SkippedStreams,
           GroupFor, TraceHolds, CopiesHold, Status, ErrorResponse, OutcomeMatches, ConflictsDecided, LinksSeen, Forked,
           OpenedAs, HealedOrRaced, MainMoved, SeenEmpty, PlanRefused, RowRefuses, Interrupted;
      trace := Untouched;
      var refusal, conflicts, branch, plan, groups, mergedAt, branchLog, mainLog, tailLog, from :=
        PrepareMerge(me, id, note, resolutions);
      ghost var prepared := store.events;
      ghost var start := old(store.events);
      NothingYet(me, start, prepared);
      if refusal.Some? {
        out := Failed(refusal.value, conflicts);
        UntouchedAnswer(resolutions, out);
        return;
      }
      var claimErr, claimed, at := ClaimMerge(me, branch, mergedAt, note);
      ghost var after := store.events;
      WorldIsValid();
      ReadyNeverEmpty(id, resolutions, plan, branchLog, mainLog, tailLog, from, mergedAt, prepared, after);
      PrefixChain(start, prepared, after, after, after);
      if !claimed {
        NothingYet(me, prepared, after);
        RacedEarlier(registry[id], after, id, |prepared|, |start|);
        out := Failed(claimErr.value, []);
        UntouchedAnswer(resolutions, out);
        return;
      }
      TraceAfterClaim(me, id, resolutions, plan, branchLog, mainLog, tailLog, from, mergedAt, prepared, after, at);
      trace := Applied(plan, branchLog, mainLog, tailLog, from, mergedAt, at, 0, []);
      if claimErr.Some? {
        out := Failed(claimErr.value, []);
        ClaimedAnswer(resolutions, trace, out);
        return;
      }
      ghost var done, copied;
      out, done, copied := FinishMerge(me, id, resolutions, groups, plan, mergedAt, branchLog, mainLog, tailLog, from, at);
      trace := Applied(plan, branchLog, mainLog, tailLog, from, mergedAt, at, done, copied);
      PrefixChain(start, prepared, after, store.events, store.events);
    }

    /** The part of a merge after its claim: replay, and read the branch back for the answer. */
    method FinishMerge(me: nat, id: Uuid, resolutions: Resolutions, groups: seq<StreamGroup>, plan: Plan, mergedAt: nat,
                       ghost branchLog: Log, ghost mainLog: Log, ghost tailLog: Log, ghost from: nat, ghost at: nat)
      returns (out: Outcome, ghost done: nat, ghost copied: Log)
      requires World() && id in registry && groups == GroupsOf(plan.replay) && OnlyOn(me, {}, store.events)
      requires TraceHolds(me, id, resolutions, Applied(plan, branchLog, mainLog, tailLog, from, mergedAt, at, 0, []), store.events)
      modifies this, store
      ensures World() && old(store.events) <= store.events && old(faults) <= faults
      ensures at < |old(store.events)| && store.events[at] == old(store.events)[at]
      ensures var trace := Applied(plan, branchLog, mainLog, tailLog, from, mergedAt, at, done, copied);
        && TraceHolds(me, id, resolutions, trace, store.events) && OutcomeMatches(resolutions, trace, out)
        && (out.Failed? && old(faults) == faults ==> Interrupted(me, resolutions, trace, store.events))
        && (out.Failed? && PartiallyApplied in out.err.wraps && out.err.wraps != {PartiallyApplied} ==>
              Interrupted(me, resolutions, trace, store.events))
      ensures out.Done? ==> out.mergedAt == mergedAt
      ensures out.Failed? ==> Status(ErrorResponse(out.err)) == 500 && PlanIncomplete !in out.err.wraps && MergeConflicts !in out.err.wraps
      ensures out.Failed? && out.err == PLAIN ==> old(faults) < faults
      ensures out.Failed? ==> out.err != Wrap(PlanStale)
    {
      hide World, StillPinned, RegistryOk, ReadyToClaim, Rely, ValidLog, Indexed, PlannedFrom, Copied,
           AllVerdictsHeld, OnlyOn, ActiveGroups, SkippedStreams, GroupFor, TraceHolds, Status, ErrorResponse, OutcomeMatches,
           ConflictsDecided, LinksSeen, Forked, OpenedAs, Interrupted, Disturbed;
      ghost var after := store.events;
      TraceReachesBack(me, id, resolutions, plan, branchLog, mainLog, tailLog, from, mergedAt, at, after);
      var replayed, skipped, replayErr;
      replayed, skipped, replayErr, copied, done :=
        ReplayOntoMain(me, groups, plan.pins, resolutions, plan, branchLog, mainLog, tailLog);
      ghost var end := store.events;
      TraceAfterReplay(me, id, resolutions, plan, branchLog, mainLog, tailLog, from, mergedAt, after, end, at, done, copied);
      ghost var trace := Applied(plan, branchLog, mainLog, tailLog, from, mergedAt, at, done, copied);
      if replayErr.Some? {
        if Disturbed(me, ActiveGroups(groups, resolutions), |branchLog|, end) {
          InterruptedBy(me, resolutions, trace, groups, end);
        }
        out := Failed(MergeError(replayErr.value.wraps + {PartiallyApplied}, replayErr.value.mainUntouched), []);
        PartialAnswer(resolutions, trace, out);
        return;
      }
      Interfere(me);
      TraceAfterRely(me, id, resolutions, trace, end, store.events);
      out := Done(mergedAt, replayed, skipped);
      var row, readErr := Get(id);
      if row.None? {
        out := Failed(readErr, []);
      }
      ClaimedAnswer(resolutions, trace, out);
    }

    /** A store is missing, or the name or the description is not a branch's. */
    ghost predicate CreateShut(err: MergeError, id: Uuid, name: string, description: string)
    {
      if !hasBranchStore then err == Wrap(BranchStoreRequired)
      else if !hasPositions then err == Wrap(PositionSourceRequired)
      else ValidateBranch(Branch(id, name, description, 0, BranchStatus.Active, "")) == Some(err)
    }

    /**
     * Opens a branch at main's head: the position read, then BranchCreated as the first event of its
     * stream. The id is freshly generated, so nobody else has written on it.
     */
    method CreateBranch(me: nat, id: Uuid, name: string, description: string)
      returns (err: Option<MergeError>, created: bool, ghost at: nat)
      requires World() && id != NIL && NoneOn(store.events, id)
      modifies this, store
      ensures World() && old(store.events) <= store.events && old(faults) <= faults
      ensures err == Some(PLAIN) ==> old(faults) < faults
      ensures err.Some? && err.value != PLAIN ==> !created && CreateShut(err.value, id, name, description)
      ensures err.None? ==> created && id in registry && registry[id].status == BranchStatus.Active
      ensures !created ==> Rely(me, old(store.events), store.events)
      ensures created ==> OneOfMine(me, old(store.events), store.events, at) && IsFork(store.events[at])
      ensures created ==> |old(store.events)| <= store.events[at].event.base < store.events[at].position
      ensures created ==> store.events[at].branch == id
      ensures created ==> store.events[at].event == BranchCreated(store.events[at].event.base, name, description)
      ensures err.None? ==> registry[id] == Branch(id, name, description, store.events[at].event.base, BranchStatus.Active, "")
      ensures err.Some? && ValidateBranch(Branch(id, name, description, 0, BranchStatus.Active, "")).Some? ==> !created
    {
      hide Rely, ValidLog, Indexed, OneOfMine, Forked, NoneOn, OpenedAs;
      created, at := false, 0;
      RelyReflexive(me, store.events);
      if !hasBranchStore {
        return Some(Wrap(BranchStoreRequired)), false, 0;
      }
      if !hasPositions {
        return Some(Wrap(PositionSourceRequired)), false, 0;
      }
      Interfere(me, id);
      ghost var readLog := store.events;
      RelyIsPrefix(me, old(store.events), readLog);
      StillNoneOn(old(store.events), readLog, id);
      var ok := Operate();
      if !ok {
        return Some(PLAIN), false, 0;
      }
      var base := |store.events|;
      var branch := Branch(id, name, description, base, BranchStatus.Active, "");
      err := ValidateBranch(branch);
      if err.Some? {
        return;
      }
      Interfere(me, id);
      ghost var before := store.events;
      RelyTransitive(me, old(store.events), readLog, before);
      RelyIsPrefix(me, readLog, before);
      StillNoneOn(readLog, before, id);
      ok := Operate();
      if !ok {
        return Some(PLAIN), false, 0;
      }
      created, at := AppendLifecycle(me, branch, BranchCreated(base, name, description), -1);
      OneAfterRely(me, old(store.events), before, store.events, at);
      ghost var appended := store.events;
      assert OpenedAs(appended, branch) by {
        Opens(appended, branch, at);
      }
      Interfere(me);
      OneThenRely(me, old(store.events), appended, store.events, at);
      RelyIsPrefix(me, appended, store.events);
      OpenedLater(appended, store.events, branch);
      ok := Operate();
      if !ok {
        return Some(PLAIN), true, at;
      }
      registry := registry[id := branch];
      err := None;
    }

    /** The branch store is missing, or the branch's row is missing or not active. */
    ghost predicate DeleteShut(err: MergeError, id: Uuid)
      reads this
    {
      if !hasBranchStore then err == Wrap(BranchStoreRequired)
      else if id !in registry then err == Wrap(BranchNotFound)
      else err == Wrap(BranchNotActive) && registry[id].status != Active
    }

    /** The guard of a delete: an active branch. */
    method AdmitDelete(me: nat, id: Uuid) returns (refusal: Option<MergeError>, branch: Branch)
      requires World()
      modifies this, store
      ensures World() && Rely(me, old(store.events), store.events)
      ensures old(registry).Keys <= registry.Keys && old(projected) <= projected && old(faults) <= faults
      ensures refusal == Some(PLAIN) ==> old(faults) < faults
      ensures !hasBranchStore ==> refusal == Some(Wrap(BranchStoreRequired))
      ensures refusal.Some? && refusal.value != PLAIN ==>
        DeleteShut(refusal.value, id) && refusal.value != Wrap(ConcurrencyConflict)
      ensures refusal.None? ==> id in registry && registry[id] == branch && branch.id == id && branch.status == Active
      ensures refusal.None? ==> OpenedAs(store.events, branch)
    {
      hide RegistryOk, Rely, ValidLog, Indexed, Forked, OpenedAs;
      branch := NO_BRANCH;
      RelyReflexive(me, store.events);
      if !hasBranchStore {
        return Some(Wrap(BranchStoreRequired)), branch;
      }
      Interfere(me);
      var row, err := Get(id);
      if row.None? {
        return Some(err), branch;
      }
      branch := row.value;
      refusal := if branch.status != Active then Some(Wrap(BranchNotActive)) else None;
    }

    /**
     * Archives a branch. The status is read first and the version later; the append fails exactly if
     * anything landed on the branch's own stream after the version was read.
     */
    method DeleteBranch(me: nat, id: Uuid)
      returns (err: Option<MergeError>, deleted: bool, ghost at: nat, ghost read: nat, ghost row: Branch)
      requires World()
      modifies this, store
      ensures World() && old(store.events) <= store.events && old(faults) <= faults
      ensures err == Some(PLAIN) ==> old(faults) < faults
      ensures deleted ==> row.id == id && row.status == Active && OpenedAs(store.events, row)
      ensures deleted && err.Some? ==> old(faults) < faults
      ensures err.Some? && err.value != PLAIN ==> !deleted && (DeleteShut(err.value, id) || err.value == Wrap(ConcurrencyConflict))
      ensures err.None? ==> deleted && id in registry && registry[id].status == BranchStatus.Archived
      ensures !deleted ==> err.Some? && Rely(me, old(store.events), store.events)
      ensures deleted ==> OneOfMine(me, old(store.events), store.events, at)
      ensures deleted ==> IsLifecycleEvent(store.events[at], id) && store.events[at].event == BranchDeleted
      ensures deleted ==> |old(store.events)| <= read <= at && NothingBetween(store.events, id, id, read, at)
      ensures err == Some(Wrap(ConcurrencyConflict)) ==>
        |old(store.events)| <= read && !NothingBetween(store.events, id, id, read, |store.events|)
    {
      hide World, DeleteShut, RegistryOk, Rely, ValidLog, Indexed, OneOfMine, StreamVersion, NothingBetween, Forked, OpenedAs;
      err, deleted, at, read, row := Some(PLAIN), false, 0, 0, NO_BRANCH;
      var refusal, branch := AdmitDelete(me, id);
      ghost var log0 := store.events;
      RelyIsPrefix(me, old(store.events), log0);
      if refusal.Some? {
        err := refusal;
        return;
      }
      row := branch;
      Interfere(me);
      ghost var readLog := store.events;
      RelyTransitive(me, old(store.events), log0, readLog);
      RelyIsPrefix(me, log0, readLog);
      OpenedLater(log0, readLog, branch);
      var ok := Operate();
      if !ok {
        return;
      }
      WorldIsValid();
      var currentVersion := store.GetStreamVersion(id, id);
      Interfere(me);
      ghost var before := store.events;
      WorldIsValid();
      RelyTransitive(me, old(store.events), readLog, before);
      RelyIsPrefix(me, readLog, before);
      ok := Operate();
      if !ok {
        return;
      }
      var expected: int := currentVersion;
      if currentVersion == 0 {
        expected := -1;
      }
      read := |readLog|;
      deleted, at := AppendLifecycle(me, branch, BranchDeleted, expected);
      OpenedLater(readLog, before, branch);
      OpenedHasVersion(readLog, branch);
      OpenedHasVersion(before, branch);
      StandsOrNot(readLog, before, id, id);
      if !deleted {
        err := Some(Wrap(ConcurrencyConflict));
        return;
      }
      OneAfterRely(me, old(store.events), before, store.events, at);
      ghost var appended := store.events;
      Interfere(me);
      OneThenRely(me, old(store.events), appended, store.events, at);
      RelyIsPrefix(me, appended, store.events);
      OpenedLater(before, store.events, branch);
      BetweenStands(before, store.events, id, read, at);
      ghost var marked;
      err, marked := ProjectBranchDeleted(id);
    }

    /** Appends one lifecycle event to the branch's own stream, in the branch's own scope. */
    method AppendLifecycle(me: nat, branch: Branch, event: Event, expected: int) returns (ok: bool, ghost at: nat)
      requires World() && IsLifecycle(event)
      requires event.BranchCreated? ==>
        branch.id != NIL && event.base <= |store.events| && NoneOn(store.events, branch.id)
      modifies store
      ensures World() && old(store.events) <= store.events
      ensures expected < 0 ==> ok
      ensures !ok ==> store.events == old(store.events)
      ensures ok ==> at == |old(store.events)| && OneOfMine(me, old(store.events), store.events, at)
      ensures ok ==> IsLifecycleEvent(store.events[at], branch.id) && store.events[at].event == event
      ensures ok ==> store.events[at].position == at + 1
      ensures expected >= 0 && StreamVersion(old(store.events), branch.id, branch.id) > 0 ==>
        (ok <==> StreamVersion(old(store.events), branch.id, branch.id) == expected)
    {
      hide Forked, OpenedAs;
      ghost var before := store.events;
      at := |store.events|;
      ok := store.AppendEvents(branch.id, [event], expected, Scope(branch.id, branch.base), me);
      if ok && event.BranchCreated? {
        ForkAdded(before, store.events);
      } else {
        ForksStand(before, store.events);
      }
      RegistryLater(registry, before, store.events);
    }
  }

  function MergedRow(row: Branch, note: string): Branch
  {
    row.(status := BranchStatus.Merged, mergeNote := note)
  }

  /** A claim stands and the row shows it, or the branch's own stream was written to since the log was `from` events long. */
  ghost predicate HealedOrRaced(row: Branch, log: Log, branch: Uuid, from: nat)
  {
    || (row.status == BranchStatus.Merged && exists claim ::
          IsClaim(log, branch, claim) && claim.BranchMerged? && claim.note == row.mergeNote)
    || !NothingBetween(log, branch, branch, from, |log|)
  }

  lemma RacedEarlier(row: Branch, log: Log, branch: Uuid, from: nat, earlier: nat)
    requires earlier <= from
    ensures HealedOrRaced(row, log, branch, from) ==> HealedOrRaced(row, log, branch, earlier)
  {
  }

  lemma ClaimFound(row: Branch, searched: Log, now: Log, branch: Uuid, from: nat, claim: Event)
    requires searched <= now && claim.BranchMerged? && IsClaim(searched, branch, claim)
    ensures row.status == BranchStatus.Merged && row.mergeNote == claim.note ==> HealedOrRaced(row, now, branch, from)
  {
    var e :| e in searched && e.stream == branch && e.branch == branch && e.event == claim;
    assert e in now;
    assert IsClaim(now, branch, claim);
  }

  /** An append lost at a version that was read: something landed on the pair in between. */
  lemma StandsOrNot(read: Log, now: Log, stream: Uuid, branch: Uuid)
    requires ValidLog(now) && read <= now
    ensures StreamVersion(now, stream, branch) == StreamVersion(read, stream, branch)
      <==> NothingBetween(now, stream, branch, |read|, |now|)
  {
    assert read == now[..|read|];
    VersionStandsIff(now, stream, branch, |read|);
  }

  lemma RaceLost(row: Branch, read: Log, now: Log, branch: Uuid, from: nat)
    requires ValidLog(now) && read <= now && from <= |read|
    requires StreamVersion(now, branch, branch) != StreamVersion(read, branch, branch)
    ensures HealedOrRaced(row, now, branch, from)
  {
    StandsOrNot(read, now, branch, branch);
  }

  lemma Opens(log: Log, b: Branch, at: nat)
    requires at < |log| && IsFork(log[at]) && log[at].branch == b.id
    requires log[at].event == BranchCreated(b.base, b.name, b.description)
    ensures OpenedAs(log, b)
  {
  }

  lemma InterruptedBy(me: nat, resolutions: Resolutions, trace: Trace, groups: seq<StreamGroup>, log: Log)
    requires trace.Applied? && groups == GroupsOf(trace.plan.replay)
    requires Disturbed(me, ActiveGroups(groups, resolutions), |trace.branchLog|, log)
    ensures Interrupted(me, resolutions, trace, log)
  {
  }

  lemma ReadyNeverEmpty(id: Uuid, resolutions: Resolutions, plan: Plan, branchLog: Log, mainLog: Log, tailLog: Log,
                        from: nat, checked: nat, before: Log, after: Log)
    requires ReadyToClaim(id, resolutions, plan, branchLog, mainLog, tailLog, from, checked, before)
    requires before <= after && ValidLog(after)
    ensures !SeenEmpty(after, id, |before|)
  {
    hide ActiveGroups, ConflictsDecided, LinksSeen, VersionSeen, ConflictList, SeenEmpty, OpenedAs;
    OpenedLater(branchLog, before, plan.branch);
    NeverEmpty(before, after, plan.branch);
  }

  lemma TraceReachesBack(me: nat, id: Uuid, resolutions: Resolutions, plan: Plan, branchLog: Log, mainLog: Log, tailLog: Log,
                         from: nat, checked: nat, at: nat, log: Log)
    requires TraceHolds(me, id, resolutions, Applied(plan, branchLog, mainLog, tailLog, from, checked, at, 0, []), log)
    ensures PlannedFrom(plan, branchLog, mainLog, tailLog) && !plan.mainTruncated && mainLog <= log
    ensures forall g :: g in ActiveGroups(GroupsOf(plan.replay), resolutions) ==> g.stream in plan.pins
  {
    hide ActiveGroups, ConflictsDecided, LinksSeen, VersionSeen, BranchRead, ConflictList, CopiesHold, AllVerdictsHeld;
  }

  /** Every child link among the events names one of the persons. */
  ghost predicate LinksWithin(events: Log, persons: set<Uuid>)
  {
    forall i :: 0 <= i < |events| && events[i].event.ChildLinked? ==> events[i].event.person in persons
  }

  lemma LinksOneMore(events: Log, j: nat, persons: set<Uuid>, more: set<Uuid>)
    requires j < |events| && LinksWithin(events[..j], persons) && persons <= more
    requires events[j].event.ChildLinked? ==> events[j].event.person in more
    ensures LinksWithin(events[..j + 1], more)
  {
    assert forall i :: 0 <= i < j ==> events[..j + 1][i] == events[..j][i];
  }

  lemma SeenStays(me: nat, persons: set<Uuid>, from: nat, before: Log, after: Log)
    requires Rely(me, before, after) && forall p :: p in persons ==> SeenOnMain(p, from, before)
    ensures forall p :: p in persons ==> SeenOnMain(p, from, after)
  {
    hide SeenOnMain;
    forall p | p in persons ensures SeenOnMain(p, from, after) {
      SeenOnMainLater(p, from, from, before, after);
    }
  }

  lemma AllLinksSeen(groups: seq<StreamGroup>, resolutions: Resolutions, replayed: set<Uuid>, checked: set<Uuid>,
                     from: nat, log: Log)
    requires replayed == StreamsOf(ActiveGroups(groups, resolutions))
    requires forall p :: p in checked ==> SeenOnMain(p, from, log)
    requires forall k :: 0 <= k < |groups| && !KeepsMain(resolutions, groups[k].stream) ==>
      LinksWithin(groups[k].events, replayed + checked)
    ensures LinksSeen(groups, resolutions, from, log)
  {
    hide SeenOnMain;
    var active := ActiveGroups(groups, resolutions);
    FilterMembers(Replayed(resolutions), groups);
    forall p | LinksAbroad(groups, resolutions, p) ensures SeenOnMain(p, from, log) {
      var e :| e in Flatten(active) && IsLink(e, p);
      FlattenMembers(active, e);
      var i :| 0 <= i < |active| && e in active[i].events;
      assert active[i] in groups;
      var k :| 0 <= k < |groups| && groups[k] == active[i];
      var j :| 0 <= j < |groups[k].events| && groups[k].events[j] == e;
    }
  }

  /** The streams a replay touches. */
  method ReplayedStreams(groups: seq<StreamGroup>, resolutions: Resolutions) returns (replayed: set<Uuid>)
    ensures replayed == StreamsOf(ActiveGroups(groups, resolutions))
  {
    replayed := {};
    for i := 0 to |groups|
      invariant replayed == StreamsOf(ActiveGroups(groups[..i], resolutions))
    {
      assert groups[..i + 1][..i] == groups[..i];
      StreamsOfStep(ActiveGroups(groups[..i], resolutions), groups[i]);
      if !KeepsMain(resolutions, groups[i].stream) {
        replayed := replayed + {groups[i].stream};
      }
    }
    assert groups[..|groups|] == groups;
  }

  /** Exactly one event of mine since `before`, at index `at`. */
  ghost predicate OneOfMine(me: nat, before: Log, after: Log, at: nat)
  {
    && before <= after && ValidLog(after) && |before| <= at < |after| && after[at].writer == me
    && forall i :: |before| <= i < |after| && after[i].writer == me ==> i == at
  }

  predicate IsLifecycleEvent(e: StoredEvent, id: Uuid)
  {
    e.stream == id && e.branch == id && IsLifecycle(e.event)
  }

  /** Where a replay stands after the groups `active`, having put `copied` on main since `start`. */
  ghost predicate ReplayState(me: nat, plan: Plan, mainLog: Log, active: seq<StreamGroup>, start: Log, now: Log, copied: Log)
  {
    && mainLog <= now
    && Copied(me, active, start, now, copied)
    && AllVerdictsHeld(me, plan, mainLog, now)
    && OnlyOn(me, StreamsOf(active), now)
  }

  lemma ReplayStateRely(me: nat, plan: Plan, mainLog: Log, active: seq<StreamGroup>, start: Log, mid: Log, now: Log, copied: Log)
    requires ReplayState(me, plan, mainLog, active, start, mid, copied) && Rely(me, mid, now)
    ensures ReplayState(me, plan, mainLog, active, start, now, copied)
  {
    CopiedAfterRely(me, active, start, mid, now, copied);
    VerdictsAfterRely(me, plan, mainLog, mid, now);
    OnlyOnAfterRely(me, StreamsOf(active), mid, now);
  }

  lemma ReplayStateStep(me: nat, plan: Plan, branchLog: Log, mainLog: Log, tailLog: Log, active: seq<StreamGroup>,
                        group: StreamGroup, start: Log, mid: Log, now: Log, copied: Log, read: nat, at: nat)
    requires PlannedFrom(plan, branchLog, mainLog, tailLog) && !plan.mainTruncated && group.stream in plan.pins
    requires ReplayState(me, plan, mainLog, active, start, mid, copied) && group.stream !in StreamsOf(active)
    requires BatchAt(me, group, plan.pins[group.stream], mid, now, at)
    requires |mid| <= read <= at && StreamVersion(now[..read], group.stream, NIL) == plan.pins[group.stream]
    requires forall e :: e in group.events ==> e.stream == group.stream
    ensures ReplayState(me, plan, mainLog, active + [group], start, now, copied + now[at..at + |group.events|])
  {
    var planned := plan.pins[group.stream];
    BatchKeepsVerdicts(me, plan, branchLog, mainLog, tailLog, group, mid, now, read, at);
    OnlyOnAfterBatch(me, StreamsOf(active), group, planned, mid, now, at);
    StreamsOfStep(active, group);
    CopyGroup(me, active, group, planned, start, mid, now, copied, at);
  }

  /** The loop of a replay after its first `i` groups: what it replayed and what it skipped. */
  ghost predicate Progress(groups: seq<StreamGroup>, resolutions: Resolutions, i: nat,
                           active: seq<StreamGroup>, skipped: seq<Uuid>)
  {
    && i <= |groups|
    && active == ActiveGroups(groups[..i], resolutions)
    && skipped == SkippedStreams(groups[..i], resolutions)
  }

  lemma ReplayStarts(me: nat, plan: Plan, mainLog: Log, groups: seq<StreamGroup>, resolutions: Resolutions, start: Log)
    requires mainLog <= start && ValidLog(start) && OnlyOn(me, {}, start)
    ensures Progress(groups, resolutions, 0, [], [])
    ensures ReplayState(me, plan, mainLog, [], start, start, [])
  {
    assert groups[..0] == [];
    assert Mine(me, start) + [] == Mine(me, start);
    forall i | 0 <= i < |start| ensures start[i].writer != me || start[i].branch != NIL {
      assert start[i] in start;
    }
  }

  lemma ProgressSkips(groups: seq<StreamGroup>, resolutions: Resolutions, i: nat, active: seq<StreamGroup>, skipped: seq<Uuid>)
    requires Progress(groups, resolutions, i, active, skipped) && i < |groups| && KeepsMain(resolutions, groups[i].stream)
    ensures Progress(groups, resolutions, i + 1, active, skipped + [groups[i].stream])
  {
    assert groups[..i + 1][..i] == groups[..i];
  }

  lemma ProgressReplays(groups: seq<StreamGroup>, resolutions: Resolutions, i: nat, active: seq<StreamGroup>, skipped: seq<Uuid>)
    requires Progress(groups, resolutions, i, active, skipped) && i < |groups| && !KeepsMain(resolutions, groups[i].stream)
    requires forall a, b :: 0 <= a < b < |groups| ==> groups[a].stream != groups[b].stream
    ensures Progress(groups, resolutions, i + 1, active + [groups[i]], skipped)
    ensures groups[i].stream !in StreamsOf(active) && groups[i] in ActiveGroups(groups, resolutions)
  {
    assert groups[..i + 1][..i] == groups[..i];
    FilterMembers(Replayed(resolutions), groups);
    forall k | 0 <= k < |active| ensures active[k].stream != groups[i].stream {
      FilterMembers(Replayed(resolutions), groups[..i]);
      assert active[k] in active;
      var a :| 0 <= a < i && groups[a] == active[k];
    }
  }

  /** Wherever a replay stops, it stops after a prefix of the groups to replay. */
  lemma ReplayStops(me: nat, plan: Plan, mainLog: Log, groups: seq<StreamGroup>, resolutions: Resolutions, i: nat,
                    active: seq<StreamGroup>, skipped: seq<Uuid>, start: Log, now: Log, copied: Log)
    requires Progress(groups, resolutions, i, active, skipped)
    requires ReplayState(me, plan, mainLog, active, start, now, copied)
    ensures |active| <= |ActiveGroups(groups, resolutions)| && ActiveGroups(groups, resolutions)[..|active|] == active
    ensures Copied(me, ActiveGroups(groups, resolutions)[..|active|], start, now, copied)
    ensures AllVerdictsHeld(me, plan, mainLog, now)
    ensures i == |groups| ==> active == ActiveGroups(groups, resolutions) && skipped == SkippedStreams(groups, resolutions)
  {
    assert groups == groups[..i] + groups[i..];
    FilterConcat(Replayed(resolutions), groups[..i], groups[i..]);
    SlicesOfConcat(active, ActiveGroups(groups[i..], resolutions));
    assert i == |groups| ==> groups[..i] == groups;
  }
}
