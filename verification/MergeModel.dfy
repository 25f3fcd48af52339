/**
 * The merge command as data: its errors and responses, its plan, and what a request appended.
 *
 * Nothing in a merge is one transaction: between any two of its store operations other requests may
 * append anything. Statements about one merge therefore speak about the events it appended itself,
 * its `Mine`, and about the log as it stood at the index where each of them landed.
 */
module MergeModel {
  import opened Base
  import opened EventLog
  import opened BranchQueries
  import opened Conflicts
  import opened Replay

  // --- Errors and responses ---

  datatype Sentinel =
    | BranchStoreRequired | PositionSourceRequired | BranchNotFound | BranchNotActive
    | NameRequired | NameTooLong | DescriptionTooLong | NoteTooLong
    | BranchTooLarge | MainTooFarAhead | UnknownResolution | UnsupportedResolution | DanglingReference
    | MergeConflicts | PlanStale | PlanIncomplete | AlreadyClaimed | PartiallyApplied | ConcurrencyConflict

  /**
   * An error: every sentinel it wraps, and what its message says about main, when it says anything:
   * `Some(true)` is "MAIN WAS NOT MODIFIED", `Some(false)` "MAIN IS PARTIALLY UPDATED".
   */
  datatype MergeError = MergeError(wraps: set<Sentinel>, mainUntouched: Option<bool>)

  /** An error with no sentinel a caller could recognise. */
  const PLAIN := MergeError({}, None)

  function Wrap(s: Sentinel): MergeError
  {
    MergeError({s}, None)
  }

  datatype Response = Refused(code: string) | BadRequest(code: string) | NotFound | Unavailable
                    | PartlyApplied | Unhandled

  /** The HTTP status of a response. */
  function Status(r: Response): nat
  {
    match r
    case Refused(_) => 409
    case BadRequest(_) => 400
    case NotFound => 404
    case Unavailable => 503
    case PartlyApplied => 500
    case Unhandled => 500
  }

  /** Maps an error onto the endpoint's response; the first matching sentinel wins. */
  function ErrorResponse(err: MergeError): Response
  {
    var w := err.wraps;
    if MergeConflicts in w then Refused("merge_conflicts")
    else if BranchNotActive in w then Refused("branch_not_active")
    else if AlreadyClaimed in w then Refused("merge_already_claimed")
    else if BranchTooLarge in w then Refused("branch_too_large")
    else if MainTooFarAhead in w then Refused("main_too_far_ahead")
    else if DanglingReference in w then Refused("merge_dangling_reference")
    else if UnknownResolution in w || UnsupportedResolution in w then BadRequest("invalid_resolution")
    else if PartiallyApplied in w then PartlyApplied
    else if PlanStale in w then Refused("merge_plan_stale")
    else if NoteTooLong in w then BadRequest("validation_error")
    else if BranchNotFound in w then NotFound
    else if BranchStoreRequired in w || PositionSourceRequired in w then Unavailable
    else if ConcurrencyConflict in w then Refused("conflict")
    else Unhandled
  }

  /** The branch validity rule, as far as a merge note can break it. */
  function ValidateBranch(b: Branch): Option<MergeError>
  {
    if b.name == "" then Some(Wrap(NameRequired))
    else if |b.name| > 100 then Some(Wrap(NameTooLong))
    else if |b.description| > 500 then Some(Wrap(DescriptionTooLong))
    else if |b.mergeNote| > 1000 then Some(Wrap(NoteTooLong))
    else None
  }

  /** A row is valid within its length limits; the first limit broken is the one reported. */
  lemma ValidBranchIff(b: Branch)
    ensures ValidateBranch(b).None? <==> 1 <= |b.name| <= 100 && |b.description| <= 500 && |b.mergeNote| <= 1000
    ensures ValidateBranch(b) == Some(Wrap(NameRequired)) <==> b.name == ""
    ensures ValidateBranch(b) == Some(Wrap(NameTooLong)) <==> |b.name| > 100
    ensures ValidateBranch(b) == Some(Wrap(DescriptionTooLong)) <==> 1 <= |b.name| <= 100 && |b.description| > 500
    ensures ValidateBranch(b) == Some(Wrap(NoteTooLong))
      <==> 1 <= |b.name| <= 100 && |b.description| <= 500 && |b.mergeNote| > 1000
  {
  }

  /** The refusals of a merge that wrote nothing: 409, told apart by code. */
  lemma Refusals()
    ensures ErrorResponse(Wrap(MergeConflicts)) == Refused("merge_conflicts")
    ensures ErrorResponse(Wrap(BranchNotActive)) == Refused("branch_not_active")
    ensures ErrorResponse(Wrap(AlreadyClaimed)) == Refused("merge_already_claimed")
    ensures ErrorResponse(Wrap(BranchTooLarge)) == Refused("branch_too_large")
    ensures ErrorResponse(Wrap(MainTooFarAhead)) == Refused("main_too_far_ahead")
    ensures ErrorResponse(Wrap(DanglingReference)) == Refused("merge_dangling_reference")
    ensures ErrorResponse(Wrap(PlanStale)) == Refused("merge_plan_stale")
    ensures forall code :: Status(Refused(code)) == 409
  {
  }

  lemma OtherAnswers()
    ensures ErrorResponse(Wrap(UnknownResolution)) == BadRequest("invalid_resolution")
    ensures ErrorResponse(Wrap(UnsupportedResolution)) == BadRequest("invalid_resolution")
    ensures ErrorResponse(Wrap(NoteTooLong)) == BadRequest("validation_error")
    ensures ErrorResponse(Wrap(BranchNotFound)) == NotFound
    ensures ErrorResponse(Wrap(BranchStoreRequired)) == ErrorResponse(Wrap(PositionSourceRequired)) == Unavailable
    ensures ErrorResponse(PLAIN) == Unhandled
    ensures forall code :: Status(BadRequest(code)) == 400
    ensures Status(NotFound) == 404 && Status(Unavailable) == 503 && Status(PartlyApplied) == Status(Unhandled) == 500
  {
  }

  /** A partly applied merge is answered as such, whatever stopped it: never as a refusal a client may retry. */
  lemma PartlyAppliedWins(err: MergeError)
    requires PartiallyApplied in err.wraps && err.wraps <= {PartiallyApplied, PlanStale, ConcurrencyConflict}
    ensures ErrorResponse(err) == PartlyApplied && Status(ErrorResponse(err)) == 500
  {
  }

  // --- What a request appended ---

  /** The events a request has appended so far. */
  function Mine(me: nat, log: Log): Log
  {
    Filter(By(me), log)
  }

  /**
   * What other requests may do to the log while this one is between two steps: append anything, as
   * long as each branch is still opened once and written to only after its fork.
   */
  ghost predicate Rely(me: nat, before: Log, after: Log)
  {
    && before <= after && ValidLog(after) && Forked(after)
    && forall i :: |before| <= i < |after| ==> after[i].writer != me
  }

  lemma RelyMine(me: nat, before: Log, after: Log)
    requires Rely(me, before, after)
    ensures Mine(me, after) == Mine(me, before)
  {
    MineUntil(me, before, after);
  }

  /** Versions never go down as the log grows. */
  lemma VersionsGrow(before: Log, after: Log)
    requires before <= after && ValidLog(after)
    ensures forall s, b {:trigger StreamVersion(after, s, b)} :: StreamVersion(before, s, b) <= StreamVersion(after, s, b)
  {
    forall s, b ensures StreamVersion(before, s, b) <= StreamVersion(after, s, b) {
      assert before == after[..|before|];
      StreamVersionPrefix(after, s, b, |before|);
    }
  }

  /** Stream and payload: what a replay must preserve of an event. */
  function Payload(): StoredEvent -> (Uuid, Event)
  {
    (e: StoredEvent) => (e.stream, e.event)
  }

  ghost predicate NoClaim(log: Log, branch: Uuid)
  {
    forall e :: e in log && e.stream == branch && e.branch == branch ==> !e.event.BranchMerged?
  }

  /** `claim` is the payload of a claim on the branch. */
  ghost predicate IsClaim(log: Log, branch: Uuid, claim: Event)
  {
    exists e :: e in log && e.stream == branch && e.branch == branch && e.event == claim
  }

  /** A branch that was unclaimed when its stream had a given version is unclaimed while the version stands. */
  lemma NoClaimStands(earlier: Log, searched: Log, later: Log, branch: Uuid)
    requires ValidLog(later) && earlier <= searched <= later
    requires StreamVersion(earlier, branch, branch) == StreamVersion(later, branch, branch)
    requires NoClaim(searched, branch)
    ensures NoClaim(later, branch)
  {
    SameVersionSameHistory(earlier, later, branch, branch);
    forall e | e in later && e.stream == branch && e.branch == branch ensures !e.event.BranchMerged? {
      FilterMembers(On(branch, branch), later);
      FilterMembers(On(branch, branch), earlier);
      assert e in History(later, branch, branch);
      assert e in earlier && e in searched;
    }
  }

  /** The claim landed at index `i`: one BranchMerged of mine, on a log that held none for the branch. */
  ghost predicate ClaimAt(me: nat, branch: Uuid, log: Log, i: nat)
  {
    && i < |log|
    && log[i].writer == me && log[i].stream == branch && log[i].branch == branch && log[i].event.BranchMerged?
    && NoClaim(log[..i], branch)
  }

  // --- The plan ---

  datatype Plan = Plan(
    branch: Branch, replay: Log, conflicts: seq<Conflict>, pins: map<Uuid, nat>,
    branchTruncated: bool, mainTruncated: bool)

  /** Main had this version of the stream at some point since the log was `from` events long. */
  ghost predicate VersionSeen(log: Log, from: nat, stream: Uuid, version: nat)
  {
    exists n :: from <= n <= |log| && StreamVersion(log[..n], stream, NIL) == version
  }

  lemma SeenSinceThen(before: Log, after: Log, from: nat, stream: Uuid, version: nat)
    requires VersionSeen(before, from, stream, version) && before <= after
    ensures VersionSeen(after, from, stream, version)
  {
    var n :| from <= n <= |before| && StreamVersion(before[..n], stream, NIL) == version;
    assert after[..n] == before[..n];
  }

  lemma SeenEarlier(log: Log, from: nat, stream: Uuid, version: nat)
    requires VersionSeen(log, from, stream, version)
    ensures VersionSeen(log, 0, stream, version)
  {
  }

  lemma SeenNow(log: Log, from: nat, stream: Uuid)
    requires from <= |log|
    ensures VersionSeen(log, from, stream, StreamVersion(log, stream, NIL))
  {
    assert log[..|log|] == log;
  }

  lemma SeenIsLower(log: Log, from: nat, stream: Uuid, version: nat)
    requires ValidLog(log) && VersionSeen(log, from, stream, version)
    ensures version <= StreamVersion(log, stream, NIL)
  {
    var n :| from <= n <= |log| && StreamVersion(log[..n], stream, NIL) == version;
    StreamVersionPrefix(log, stream, NIL, n);
  }

  /** Main's own tail, read for create collisions only when the branch created something with an xref. */
  ghost function MainTail(replay: Log, base: nat, log: Log): Log
  {
    if exists s :: XrefOf(replay, s) != "" then Capped(Filter(After(NIL, base), log), MAX_COMPARISON_EVENTS) else []
  }

  /** The branch half of a plan: one read of the log, of a branch that log shows being opened. */
  ghost predicate BranchRead(plan: Plan, branchLog: Log)
  {
    && Forked(branchLog) && OpenedAs(branchLog, plan.branch)
    && plan.replay == BranchSide(branchLog, plan.branch)
    && plan.branchTruncated == BranchTruncated(branchLog, plan.branch)
  }

  /** How a plan relates to the log states its three reads saw, in the order it issued them. */
  ghost predicate PlannedFrom(plan: Plan, branchLog: Log, mainLog: Log, tailLog: Log)
  {
    var ids, base := StreamIds(plan.replay), plan.branch.base;
    var tail := MainTail(plan.replay, base, tailLog);
    && branchLog <= mainLog <= tailLog && BranchRead(plan, branchLog)
    && plan.pins.Keys == SetOf(ids)
    && (forall s :: s in plan.pins ==> VersionSeen(mainLog, |branchLog|, s, plan.pins[s]))
    && plan.mainTruncated == (MainTruncated(mainLog, ids, base) || |tail| >= MAX_COMPARISON_EVENTS)
    && plan.conflicts == ConflictList(plan.replay, MainSide(mainLog, ids, base), tail)
  }

  /** Main's post-fork events on a stream that this request did not append itself. */
  function Foreign(me: nat, stream: Uuid, base: nat): StoredEvent -> bool
  {
    (e: StoredEvent) => e.stream == stream && e.branch == NIL && e.position > base && !IsLifecycle(e.event) && e.writer != me
  }

  /**
   * When main still has a version of a stream it had before the main side was read, main's post-fork
   * events on that stream are exactly those that read returned.
   */
  lemma PinnedVerdictStands(mainLog: Log, at: Log, ids: seq<Uuid>, base: nat, stream: Uuid, pin: nat)
    requires mainLog <= at && ValidLog(at) && stream in ids && !MainTruncated(mainLog, ids, base)
    requires VersionSeen(mainLog, 0, stream, pin) && StreamVersion(at, stream, NIL) == pin
    ensures PostForkOnMain(at, stream, base) == Filter(OfStream(stream), MainSide(mainLog, ids, base))
  {
    assert mainLog == at[..|mainLog|];
    ValidPrefix(at, |mainLog|);
    SeenIsLower(mainLog, 0, stream, pin);
    StreamVersionPrefix(at, stream, NIL, |mainLog|);
    SameVersionSameHistory(mainLog, at, stream, NIL);
    PostForkFromHistory(at, stream, base);
    PostForkFromHistory(mainLog, stream, base);
    MainSideComplete(mainLog, ids, base, stream);
  }

  /**
   * The verdict on the stream of the event at `i` still held when main's version was read, at log
   * length `read`: all that others had put on main's side of it by index `i` is what the comparison
   * saw, and then what slipped in between that read and the append. Nothing can slip in where the
   * append checks a version, which is everywhere but on streams main had never seen (pin 0).
   */
  ghost predicate HeldSince(me: nat, plan: Plan, mainLog: Log, log: Log, i: nat, read: nat)
    requires read <= i < |log|
  {
    var s, others := log[i].stream, Foreign(me, log[i].stream, plan.branch.base);
    && s in plan.pins && |mainLog| <= read && StreamVersion(log[..read], s, NIL) == plan.pins[s]
    && Filter(others, log[..i])
       == Filter(OfStream(s), MainSide(mainLog, StreamIds(plan.replay), plan.branch.base)) + Filter(others, log[read..i])
    && (plan.pins[s] > 0 ==> Filter(others, log[read..i]) == [])
  }

  ghost predicate VerdictHeld(me: nat, plan: Plan, mainLog: Log, log: Log, i: nat)
    requires i < |log|
  {
    exists read :: 0 <= read <= i && HeldSince(me, plan, mainLog, log, i, read)
  }

  /** The verdict was computed from all that others had on main's side exactly when nothing slipped in. */
  lemma ComparedAllIff(me: nat, plan: Plan, mainLog: Log, log: Log, i: nat, read: nat)
    requires read <= i < |log| && HeldSince(me, plan, mainLog, log, i, read)
    ensures
      var s, others := log[i].stream, Foreign(me, log[i].stream, plan.branch.base);
      var compared := Filter(OfStream(s), MainSide(mainLog, StreamIds(plan.replay), plan.branch.base));
      Filter(others, log[..i]) == compared <==> forall k :: read <= k < i ==> !others(log[k])
  {
    var others := Foreign(me, log[i].stream, plan.branch.base);
    FilterMembers(others, log[read..i]);
    if forall k :: read <= k < i ==> !others(log[k]) {
      FilterNone(others, log[read..i]);
    }
    forall k | read <= k < i && others(log[k]) ensures Filter(others, log[read..i]) != [] {
      assert log[read..i][k - read] == log[k];
      assert log[k] in Filter(others, log[read..i]);
    }
  }

  /**
   * And on a stream main had never seen something can slip in: an append without a version lands over
   * another request's, where one that expected version 0 would have been refused.
   */
  lemma SlipsIn(log: Log, stream: Uuid, theirs: Event, mine: Event, other: nat, me: nat)
    requires ValidLog(log) && StreamVersion(log, stream, NIL) == 0
    ensures Append(log, stream, [theirs], -1, MAIN_SCOPE, other).Some?
    ensures
      var later := Append(log, stream, [theirs], -1, MAIN_SCOPE, other).value;
      Append(later, stream, [mine], -1, MAIN_SCOPE, me).Some? && Append(later, stream, [mine], 0, MAIN_SCOPE, me).None?
  {
    AppendKeepsValid(log, stream, MAIN_SCOPE, [theirs], other);
  }

  lemma VerdictHeldLater(me: nat, plan: Plan, mainLog: Log, before: Log, after: Log, i: nat)
    requires before <= after && i < |before| && VerdictHeld(me, plan, mainLog, before, i)
    ensures VerdictHeld(me, plan, mainLog, after, i)
  {
    var read: nat :| read <= i && HeldSince(me, plan, mainLog, before, i, read);
    assert after[..i] == before[..i] && after[..read] == before[..read] && after[read..i] == before[read..i];
    assert HeldSince(me, plan, mainLog, after, i, read);
  }

  ghost predicate AllVerdictsHeld(me: nat, plan: Plan, mainLog: Log, log: Log)
  {
    forall i :: 0 <= i < |log| && log[i].writer == me && log[i].branch == NIL ==> VerdictHeld(me, plan, mainLog, log, i)
  }

  /** One group appended to main as a block at index `at`, and nothing else of mine since `before`. */
  ghost predicate BatchAt(me: nat, group: StreamGroup, planned: nat, before: Log, after: Log, at: nat)
  {
    var n := |group.events|;
    && before <= after && ValidLog(after) && |before| <= at && at + n <= |after|
    && after[at..at + n]
       == Stored(group.stream, NIL, StreamVersion(after[..at], group.stream, NIL), at, Map(EventOf(), group.events), me)
    && (planned > 0 ==> StreamVersion(after[..at], group.stream, NIL) == planned)
    && forall i :: |before| <= i < |after| && after[i].writer == me ==> at <= i < at + n
  }

  lemma BatchMine(me: nat, group: StreamGroup, planned: nat, before: Log, after: Log, at: nat)
    requires BatchAt(me, group, planned, before, after, at)
    ensures Mine(me, after) == Mine(me, before) + after[at..at + |group.events|]
  {
    hide Stored, ValidLog;
    var end := at + |group.events|;
    BatchEvents(me, group, planned, before, after, at);
    assert after == after[..at] + after[at..end] + after[end..];
    MineOfParts(me, after[..at], after[at..end], after[end..]);
    MineUntil(me, before, after[..at]);
  }

  lemma MineOfParts(me: nat, a: Log, b: Log, c: Log)
    requires forall e :: e in b ==> e.writer == me
    requires forall e :: e in c ==> e.writer != me
    ensures Mine(me, a + b + c) == Mine(me, a) + b
  {
    FilterConcat(By(me), a + b, c);
    FilterConcat(By(me), a, b);
    FilterAll(By(me), b);
    FilterNone(By(me), c);
  }

  lemma MineUntil(me: nat, before: Log, after: Log)
    requires before <= after
    requires forall i :: |before| <= i < |after| ==> after[i].writer != me
    ensures Mine(me, after) == Mine(me, before)
  {
    var rest := after[|before|..];
    assert after == before + rest;
    forall e | e in rest ensures e.writer != me {
      var k :| 0 <= k < |rest| && rest[k] == e;
      assert after[|before| + k] == e;
    }
    FilterConcat(By(me), before, rest);
    FilterNone(By(me), rest);
  }

  /** The other requests' steps after a batch do not disturb it. */
  lemma BatchThenRely(me: nat, group: StreamGroup, planned: nat, before: Log, mid: Log, after: Log, at: nat)
    requires BatchAt(me, group, planned, before, mid, at) && Rely(me, mid, after)
    ensures BatchAt(me, group, planned, before, after, at)
  {
    assert after[..at] == mid[..at];
    assert after[at..at + |group.events|] == mid[at..at + |group.events|];
  }

  lemma BatchAfterRely(me: nat, group: StreamGroup, planned: nat, before: Log, mid: Log, after: Log, at: nat)
    requires Rely(me, before, mid) && BatchAt(me, group, planned, mid, after, at)
    ensures BatchAt(me, group, planned, before, after, at)
  {
  }

  /** Appending a group whose stream I had not touched keeps every verdict. */
  lemma BatchKeepsVerdicts(me: nat, plan: Plan, branchLog: Log, mainLog: Log, tailLog: Log, group: StreamGroup,
                           before: Log, after: Log, read: nat, at: nat)
    requires PlannedFrom(plan, branchLog, mainLog, tailLog) && !plan.mainTruncated && mainLog <= before
    requires group.stream in plan.pins && BatchAt(me, group, plan.pins[group.stream], before, after, at)
    requires |mainLog| <= read <= at && StreamVersion(after[..read], group.stream, NIL) == plan.pins[group.stream]
    requires AllVerdictsHeld(me, plan, mainLog, before)
    requires forall e :: e in before && e.writer == me && e.branch == NIL ==> e.stream != group.stream
    ensures AllVerdictsHeld(me, plan, mainLog, after)
  {
    forall i | 0 <= i < |after| && after[i].writer == me && after[i].branch == NIL
      ensures VerdictHeld(me, plan, mainLog, after, i)
    {
      if i < |before| {
        VerdictHeldLater(me, plan, mainLog, before, after, i);
      } else {
        BatchVerdict(me, plan, branchLog, mainLog, tailLog, group, before, after, read, at, i);
      }
    }
  }

  /** A batch lands over the main history its stream's verdict was computed from, and the window since the version read. */
  lemma BatchVerdict(me: nat, plan: Plan, branchLog: Log, mainLog: Log, tailLog: Log, group: StreamGroup,
                     before: Log, after: Log, read: nat, at: nat, i: nat)
    requires PlannedFrom(plan, branchLog, mainLog, tailLog) && !plan.mainTruncated && mainLog <= before
    requires group.stream in plan.pins && BatchAt(me, group, plan.pins[group.stream], before, after, at)
    requires |mainLog| <= read <= at && StreamVersion(after[..read], group.stream, NIL) == plan.pins[group.stream]
    requires forall e :: e in before && e.writer == me && e.branch == NIL ==> e.stream != group.stream
    requires at <= i < at + |group.events|
    ensures VerdictHeld(me, plan, mainLog, after, i)
  {
    hide PlannedFrom, MainSide, StreamIds, Stored, ValidLog;
    var s, others := group.stream, Foreign(me, group.stream, plan.branch.base);
    BatchEvents(me, group, plan.pins[s], before, after, at);
    NothingOfMine(me, s, before, after, at);
    assert after[..i] == after[..read] + after[read..i];
    FilterConcat(others, after[..read], after[read..i]);
    VerdictAtRead(me, plan, branchLog, mainLog, tailLog, s, before, after, read, at);
    if plan.pins[s] > 0 {
      WindowClosed(me, s, plan.branch.base, after, read, at, i);
    }
    assert HeldSince(me, plan, mainLog, after, i, read);
  }

  lemma BatchEvents(me: nat, group: StreamGroup, planned: nat, before: Log, after: Log, at: nat)
    requires BatchAt(me, group, planned, before, after, at)
    ensures forall k :: at <= k < at + |group.events| ==> after[k].writer == me && after[k].stream == group.stream
  {
    var batch := after[at..at + |group.events|];
    forall k | at <= k < at + |group.events| ensures after[k].writer == me && after[k].stream == group.stream {
      assert after[k] == batch[k - at];
    }
  }

  /** At the version read: main's history of the stream is what the verdict read. */
  lemma VerdictAtRead(me: nat, plan: Plan, branchLog: Log, mainLog: Log, tailLog: Log, stream: Uuid,
                      before: Log, log: Log, read: nat, at: nat)
    requires PlannedFrom(plan, branchLog, mainLog, tailLog) && !plan.mainTruncated && ValidLog(log)
    requires mainLog <= before <= log && |mainLog| <= read <= at <= |log|
    requires stream in plan.pins && StreamVersion(log[..read], stream, NIL) == plan.pins[stream]
    requires forall e :: e in log[..at] && e.stream == stream && e.branch == NIL ==> e.writer != me
    ensures Filter(Foreign(me, stream, plan.branch.base), log[..read])
         == Filter(OfStream(stream), MainSide(mainLog, StreamIds(plan.replay), plan.branch.base))
  {
    hide ConflictList, BranchRead, MainTail, Foreign, PostFork;
    ValidPrefix(log, read);
    PrefixOfSlice(mainLog, log, read);
    ForeignIsPostFork(me, stream, plan.branch.base, log, read, at);
    SeenEarlier(mainLog, |branchLog|, stream, plan.pins[stream]);
    PinnedVerdictStands(mainLog, log[..read], StreamIds(plan.replay), plan.branch.base, stream, plan.pins[stream]);
  }

  lemma ForeignIsPostFork(me: nat, stream: Uuid, base: nat, log: Log, read: nat, at: nat)
    requires read <= at <= |log|
    requires forall e :: e in log[..at] && e.stream == stream && e.branch == NIL ==> e.writer != me
    ensures Filter(Foreign(me, stream, base), log[..read]) == PostForkOnMain(log[..read], stream, base)
  {
    assert log[..read] <= log[..at];
    FilterAgree(Foreign(me, stream, base), PostFork(stream, base), log[..read]);
  }

  /** A version that stood from the read to the append leaves nothing of others in between, nor do my own events after it. */
  lemma WindowClosed(me: nat, stream: Uuid, base: nat, log: Log, read: nat, at: nat, i: nat)
    requires ValidLog(log) && read <= at <= i < |log|
    requires StreamVersion(log[..at], stream, NIL) == StreamVersion(log[..read], stream, NIL)
    requires forall k :: at <= k < i ==> log[k].writer == me
    ensures Filter(Foreign(me, stream, base), log[read..i]) == []
  {
    ValidPrefix(log, at);
    assert log[..at][..read] == log[..read];
    VersionStandsIff(log[..at], stream, NIL, read);
    forall e | e in log[read..i] ensures !Foreign(me, stream, base)(e) {
      var k :| read <= k < i && log[k] == e;
      assert k < at ==> log[..at][k] == e;
    }
    FilterNone(Foreign(me, stream, base), log[read..i]);
  }

  lemma PrefixOfSlice(a: Log, b: Log, n: nat)
    requires a <= b && |a| <= n <= |b|
    ensures a <= b[..n]
  {
  }

  lemma NothingOfMine(me: nat, stream: Uuid, before: Log, after: Log, at: nat)
    requires before <= after && |before| <= at <= |after|
    requires forall i :: |before| <= i < at ==> after[i].writer != me
    requires forall e :: e in before && e.writer == me && e.branch == NIL ==> e.stream != stream
    ensures forall e :: e in after[..at] && e.stream == stream && e.branch == NIL ==> e.writer != me
  {
    forall e | e in after[..at] && e.stream == stream && e.branch == NIL ensures e.writer != me {
      var k :| 0 <= k < at && after[k] == e;
      if k < |before| {
        assert e == before[k];
      }
    }
  }

  // --- The replay as a whole ---

  /** Everything of mine since `before` is `copied`: whole groups, in order, payloads intact, all on main. */
  ghost predicate Copied(me: nat, groups: seq<StreamGroup>, before: Log, after: Log, copied: Log)
  {
    && before <= after && ValidLog(after)
    && Mine(me, after) == Mine(me, before) + copied
    && Map(Payload(), copied) == Map(Payload(), Flatten(groups))
    && forall e :: e in copied ==> e.branch == NIL
  }

  lemma CopiedAfterRely(me: nat, groups: seq<StreamGroup>, before: Log, mid: Log, after: Log, copied: Log)
    requires Copied(me, groups, before, mid, copied) && Rely(me, mid, after)
    ensures Copied(me, groups, before, after, copied)
  {
    RelyMine(me, mid, after);
  }

  /** One more batch: the copied events grow by exactly one group. */
  lemma CopyGroup(me: nat, groups: seq<StreamGroup>, group: StreamGroup, planned: nat,
                  before: Log, mid: Log, after: Log, copied: Log, at: nat)
    requires Copied(me, groups, before, mid, copied) && BatchAt(me, group, planned, mid, after, at)
    requires forall e :: e in group.events ==> e.stream == group.stream
    ensures Copied(me, groups + [group], before, after, copied + after[at..at + |group.events|])
  {
    var batch := after[at..at + |group.events|];
    BatchMine(me, group, planned, mid, after, at);
    assert Mine(me, before) + copied + batch == Mine(me, before) + (copied + batch);
    FlattenConcat(groups, [group]);
    FlattenOne(group);
    BatchPayload(me, group, planned, mid, after, at);
    MapConcat(Payload(), copied, batch);
    MapConcat(Payload(), Flatten(groups), group.events);
  }

  lemma BatchPayload(me: nat, group: StreamGroup, planned: nat, before: Log, after: Log, at: nat)
    requires BatchAt(me, group, planned, before, after, at)
    requires forall e :: e in group.events ==> e.stream == group.stream
    ensures Map(Payload(), after[at..at + |group.events|]) == Map(Payload(), group.events)
    ensures forall e :: e in after[at..at + |group.events|] ==> e.branch == NIL && e.stream == group.stream && e.writer == me
  {
    var batch := after[at..at + |group.events|];
    forall i | 0 <= i < |batch| ensures Payload()(batch[i]) == Payload()(group.events[i]) && batch[i].branch == NIL
      && batch[i].stream == group.stream && batch[i].writer == me
    {
      assert group.events[i] in group.events;
    }
  }

  /** Nothing of mine is on main outside the given streams. */
  ghost predicate OnlyOn(me: nat, streams: set<Uuid>, log: Log)
  {
    forall e :: e in log && e.writer == me && e.branch == NIL ==> e.stream in streams
  }

  lemma OnlyOnAfterRely(me: nat, streams: set<Uuid>, before: Log, after: Log)
    requires OnlyOn(me, streams, before) && Rely(me, before, after)
    ensures OnlyOn(me, streams, after)
  {
    forall e | e in after && e.writer == me && e.branch == NIL ensures e.stream in streams {
      var k :| 0 <= k < |after| && after[k] == e;
      assert k < |before| && before[k] == e;
    }
  }

  lemma OnlyOnAfterBatch(me: nat, streams: set<Uuid>, group: StreamGroup, planned: nat, before: Log, after: Log, at: nat)
    requires OnlyOn(me, streams, before) && BatchAt(me, group, planned, before, after, at)
    ensures OnlyOn(me, streams + {group.stream}, after)
  {
    forall e | e in after && e.writer == me && e.branch == NIL ensures e.stream in streams + {group.stream} {
      var k :| 0 <= k < |after| && after[k] == e;
      if k < |before| {
        assert before[k] == e;
      } else {
        assert after[at..at + |group.events|][k - at] == e;
      }
    }
  }

  lemma VerdictsAfterRely(me: nat, plan: Plan, mainLog: Log, before: Log, after: Log)
    requires AllVerdictsHeld(me, plan, mainLog, before) && Rely(me, before, after)
    ensures AllVerdictsHeld(me, plan, mainLog, after)
  {
    forall i | 0 <= i < |after| && after[i].writer == me && after[i].branch == NIL
      ensures VerdictHeld(me, plan, mainLog, after, i)
    {
      assert i < |before|;
      VerdictHeldLater(me, plan, mainLog, before, after, i);
    }
  }
}
