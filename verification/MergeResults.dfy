/**
 * What a merge achieves, in terms of the log alone. The hypotheses on the trace are parts of
 * `TraceHolds`, which every run of `MergeBranch` that claims its branch ensures; the branch's events
 * are those of the log up to the branch read, which comes after the call began. A merge that reports
 * success is `Completed`.
 */
module MergeResults {
  import opened Base
  import opened EventLog
  import opened BranchQueries
  import opened Conflicts
  import opened Replay
  import opened MergeModel
  import opened MergeValidation
  import opened MergeCommand
  import opened ConflictRows

  /** A projection that looks only at an event's stream and payload. */
  ghost predicate PayloadOnly<S(!new)>(step: (S, StoredEvent) -> S)
  {
    forall s: S, a: StoredEvent, b: StoredEvent :: Payload()(a) == Payload()(b) ==> step(s, a) == step(s, b)
  }

  lemma {:induction false} SamePayloadsSameState<S(!new)>(step: (S, StoredEvent) -> S, s: S, a: Log, b: Log)
    requires PayloadOnly(step) && Map(Payload(), a) == Map(Payload(), b)
    ensures Fold(step, s, a) == Fold(step, s, b)
  {
    assert |a| == |Map(Payload(), a)| == |b|;
    if a != [] {
      var n := |a| - 1;
      assert Map(Payload(), a)[n] == Map(Payload(), b)[n];
      assert Map(Payload(), a[..n]) == Map(Payload(), a)[..n] == Map(Payload(), b[..n]);
      SamePayloadsSameState(step, s, a[..n], b[..n]);
    }
  }

  /** What a request put on main. */
  function MineOnMain(me: nat): StoredEvent -> bool
  {
    (e: StoredEvent) => e.writer == me && e.branch == NIL
  }

  /** The branch's data events on the streams that are not left to main. */
  function KeptEventOf(branch: Uuid, resolutions: Resolutions): StoredEvent -> bool
  {
    (e: StoredEvent) => e.branch == branch && !IsLifecycle(e.event) && !KeepsMain(resolutions, e.stream)
  }

  /** The branch's data events on one stream. */
  function DataOn(branch: Uuid, stream: Uuid): StoredEvent -> bool
  {
    (e: StoredEvent) => e.branch == branch && !IsLifecycle(e.event) && e.stream == stream
  }

  /** Every group that was to be replayed was. */
  ghost predicate Completed(resolutions: Resolutions, trace: Trace)
  {
    trace.Applied? && trace.done == |ToReplay(trace, resolutions)|
  }

  /** A merge that reports success completed its replay. */
  lemma DoneIsCompleted(resolutions: Resolutions, trace: Trace, out: Outcome)
    requires trace.Applied? && OutcomeMatches(resolutions, trace, out) && out.Done?
    ensures Completed(resolutions, trace)
  {
  }

  lemma CopiesAreMineOnMain(me: nat, resolutions: Resolutions, trace: Trace, log: Log)
    requires trace.Applied? && CopiesHold(me, resolutions, trace, log)
    ensures Filter(MineOnMain(me), log) == trace.copied
  {
    hide ActiveGroups, Payload;
    FilterTwice(OnMain(), By(me), MineOnMain(me), log);
    FilterConcat(OnMain(), [log[trace.at]], trace.copied);
    FilterNone(OnMain(), [log[trace.at]]);
    FilterAll(OnMain(), trace.copied);
  }

  /** The replay set is all the branch held when it was read. */
  lemma WholeBranch(plan: Plan, branchLog: Log, log: Log)
    requires BranchRead(plan, branchLog) && !plan.branchTruncated && branchLog <= log
    ensures plan.replay == Filter(DataEventOf(plan.branch.id), log[..|branchLog|])
  {
    ForkedSideComplete(branchLog, plan.branch);
    assert log[..|branchLog|] == branchLog;
  }

  /**
   * What a completed replay put on main projects to the same state as the branch's own events, in their
   * original order, minus the streams resolved to main: for every projection that reads payloads only
   * and under which events of different streams commute.
   */
  lemma MergedStateIsBranchState<S(!new)>(me: nat, resolutions: Resolutions, trace: Trace, log: Log,
                                          step: (S, StoredEvent) -> S, s: S)
    requires Completed(resolutions, trace) && CopiesHold(me, resolutions, trace, log)
    requires BranchRead(trace.plan, trace.branchLog) && !trace.plan.branchTruncated && trace.branchLog <= log
    requires StreamsCommute(step) && PayloadOnly(step)
    ensures Fold(step, s, Filter(MineOnMain(me), log))
         == Fold(step, s, Filter(KeptEventOf(trace.plan.branch.id, resolutions), log[..|trace.branchLog|]))
  {
    hide ActiveGroups, BranchRead;
    var all := ToReplay(trace, resolutions);
    assert all[..trace.done] == all;
    CopiesAreMineOnMain(me, resolutions, trace, log);
    WholeBranch(trace.plan, trace.branchLog, log);
    SamePayloadsSameState(step, s, trace.copied, Flatten(all));
    PartialReplaySameState(step, s, resolutions, trace.plan.replay);
    FilterTwice(ReplayedEvent(resolutions), DataEventOf(trace.plan.branch.id),
                KeptEventOf(trace.plan.branch.id, resolutions), log[..|trace.branchLog|]);
  }

  /** A completed replay and the streams left to main account for every data event the branch held. */
  lemma ReplayAccountsForBranch(me: nat, resolutions: Resolutions, trace: Trace, log: Log)
    requires Completed(resolutions, trace) && CopiesHold(me, resolutions, trace, log)
    requires BranchRead(trace.plan, trace.branchLog) && !trace.plan.branchTruncated && trace.branchLog <= log
    ensures
      var data := Filter(DataEventOf(trace.plan.branch.id), log[..|trace.branchLog|]);
      |Filter(MineOnMain(me), log)| + |Filter((e: StoredEvent) => KeepsMain(resolutions, e.stream), data)| == |data|
  {
    hide ActiveGroups, BranchRead;
    var all := ToReplay(trace, resolutions);
    assert all[..trace.done] == all;
    CopiesAreMineOnMain(me, resolutions, trace, log);
    WholeBranch(trace.plan, trace.branchLog, log);
    assert |trace.copied| == |Map(Payload(), trace.copied)| == |Flatten(all)|;
    ReplayAccountsForAll(trace.plan.replay, resolutions);
  }

  /**
   * On success every data event the branch held is accounted for: copied to main, or on one of the
   * streams the caller resolved to main, which are the ones reported as skipped.
   */
  lemma MergeAccountsForAll(me: nat, resolutions: Resolutions, trace: Trace, out: Outcome, log: Log)
    requires trace.Applied? && CopiesHold(me, resolutions, trace, log) && OutcomeMatches(resolutions, trace, out)
    requires BranchRead(trace.plan, trace.branchLog) && !trace.plan.branchTruncated && trace.branchLog <= log
    requires out.Done?
    ensures out.replayed == |Filter(MineOnMain(me), log)|
    ensures
      var data := Filter(DataEventOf(trace.plan.branch.id), log[..|trace.branchLog|]);
      && out.replayed + |Filter((e: StoredEvent) => KeepsMain(resolutions, e.stream), data)| == |data|
      && forall s :: s in out.skipped <==> s in StreamIds(data) && KeepsMain(resolutions, s)
  {
    hide ActiveGroups, BranchRead, CopiesHold;
    DoneIsCompleted(resolutions, trace, out);
    CopiesAreMineOnMain(me, resolutions, trace, log);
    WholeBranch(trace.plan, trace.branchLog, log);
    ReplayAccountsForBranch(me, resolutions, trace, log);
    SkippedExactly(trace.plan.replay, resolutions);
  }

  lemma SkippedExactly(events: Log, resolutions: Resolutions)
    ensures forall s :: s in SkippedStreams(GroupsOf(events), resolutions) <==> s in StreamIds(events) && KeepsMain(resolutions, s)
  {
    var groups, ids := GroupsOf(events), StreamIds(events);
    var kept := Filter(Skipped(resolutions), groups);
    FilterMembers(Skipped(resolutions), groups);
    forall s ensures s in SkippedStreams(groups, resolutions) <==> s in ids && KeepsMain(resolutions, s) {
      if s in SkippedStreams(groups, resolutions) {
        var k :| 0 <= k < |kept| && SkippedStreams(groups, resolutions)[k] == s;
        assert kept[k] in groups;
      }
      if s in ids && KeepsMain(resolutions, s) {
        var i :| 0 <= i < |ids| && ids[i] == s;
        assert groups[i] in kept;
        var k :| 0 <= k < |kept| && kept[k] == groups[i];
        assert SkippedStreams(groups, resolutions)[k] == s;
      }
    }
  }

  /**
   * Nothing reaches main that the caller did not allow: every event the merge puts there repeats a data
   * event of the branch, on a stream not resolved to main; and where that stream was in conflict with
   * main, the caller chose the branch's side and the conflict offers it. This holds at every point of the
   * replay, failed or not.
   */
  lemma MainOnlyAsDecided(me: nat, resolutions: Resolutions, trace: Trace, log: Log, e: StoredEvent)
    requires trace.Applied? && CopiesHold(me, resolutions, trace, log) && ConflictsDecided(trace.plan.conflicts, resolutions)
    requires BranchRead(trace.plan, trace.branchLog) && !trace.plan.branchTruncated && trace.branchLog <= log
    requires e in Filter(MineOnMain(me), log)
    ensures !KeepsMain(resolutions, e.stream)
    ensures exists o :: (
      o in Filter(DataEventOf(trace.plan.branch.id), log[..|trace.branchLog|]) && Payload()(o) == Payload()(e))
    ensures forall c :: c in trace.plan.conflicts && c.stream == e.stream ==>
      c.stream in resolutions && resolutions[c.stream] == BRANCH && BRANCH in c.supported
  {
    hide ActiveGroups, Payload, BranchRead;
    CopiesAreMineOnMain(me, resolutions, trace, log);
    WholeBranch(trace.plan, trace.branchLog, log);
    var k :| 0 <= k < |trace.copied| && trace.copied[k] == e;
    CopiedMember(trace.plan.replay, resolutions, trace.done, trace.copied, k);
  }

  lemma CopiedMember(events: Log, resolutions: Resolutions, done: nat, copied: Log, k: nat)
    requires done <= |ActiveGroups(GroupsOf(events), resolutions)| && k < |copied|
    requires Map(Payload(), copied) == Map(Payload(), Flatten(ActiveGroups(GroupsOf(events), resolutions)[..done]))
    ensures !KeepsMain(resolutions, copied[k].stream)
    ensures exists o :: o in events && Payload()(o) == Payload()(copied[k])
  {
    hide ActiveGroups;
    var flat := Flatten(ActiveGroups(GroupsOf(events), resolutions)[..done]);
    assert Map(Payload(), copied)[k] == Map(Payload(), flat)[k];
    ReplayedMember(events, resolutions, done, flat[k]);
  }

  lemma ReplayedMember(events: Log, resolutions: Resolutions, done: nat, e: StoredEvent)
    requires done <= |ActiveGroups(GroupsOf(events), resolutions)|
    requires e in Flatten(ActiveGroups(GroupsOf(events), resolutions)[..done])
    ensures e in events && !KeepsMain(resolutions, e.stream)
  {
    var active := ActiveGroups(GroupsOf(events), resolutions);
    FlattenMembers(active[..done], e);
    var i :| 0 <= i < done && e in active[i].events;
    FilterMembers(Replayed(resolutions), GroupsOf(events));
    assert active[i] in active;
    var g :| 0 <= g < |GroupsOf(events)| && GroupsOf(events)[g] == active[i];
    FilterMembers(OfStream(StreamIds(events)[g]), events);
  }

  /**
   * On a stream both compared sides touched and the replay does not spare: if one side alone deleted it, or
   * neither did and the order of replay matters to the rows, the caller chose the branch's side and main had not
   * deleted. The rows are the stream's own, each field by itself; rules that span fields, as one primary name a
   * person, are outside them.
   */
  lemma OverrideWasChosen(replay: Log, main: Log, tail: Log, resolutions: Resolutions, s: Uuid)
    requires ConflictsDecided(ConflictList(replay, main, tail), resolutions)
    requires s in StreamIds(replay) && s in StreamIds(main) && !KeepsMain(resolutions, s)
    ensures
      var ours, theirs := Filter(OfStream(s), replay), Filter(OfStream(s), main);
      HasDelete(ours) != HasDelete(theirs) || (!HasDelete(ours) && RowOrderMatters(ours, theirs)) ==>
        s in resolutions && resolutions[s] == BRANCH && !HasDelete(theirs)
  {
    hide HasDelete, RowOrderMatters, ConflictList, Collides, FoldAll, Divergent, Verdict, StreamIds;
    var verdict := Verdict(s, replay, main, tail);
    TouchedIffEvents(main, s);
    VerdictByRows(replay, main, tail, s);
    VerdictStream(s, replay, main, tail);
    if verdict.Some? {
      ConflictListExact(replay, main, tail, verdict.value);
    }
  }

  lemma PlanIsRead(trace: Trace)
    requires trace.Applied? && PlannedFrom(trace.plan, trace.branchLog, trace.mainLog, trace.tailLog)
    ensures BranchRead(trace.plan, trace.branchLog)
  {
    hide BranchRead;
  }

  /** The two sides of a stream as the plan compared them are the two sides as the log has them. */
  lemma SidesCompared(me: nat, trace: Trace, log: Log, i: nat, read: nat) returns (main: Log, tail: Log)
    requires trace.Applied? && read <= i < |log| && HeldSince(me, trace.plan, trace.mainLog, log, i, read)
    requires PlannedFrom(trace.plan, trace.branchLog, trace.mainLog, trace.tailLog) && !trace.plan.branchTruncated
    requires trace.branchLog <= log
    requires trace.plan.pins[log[i].stream] > 0
      || Filter(Foreign(me, log[i].stream, trace.plan.branch.base), log[read..i]) == []
    ensures trace.plan.conflicts == ConflictList(trace.plan.replay, main, tail)
    ensures log[i].stream in StreamIds(trace.plan.replay)
    ensures Filter(OfStream(log[i].stream), trace.plan.replay)
         == Filter(DataOn(trace.plan.branch.id, log[i].stream), log[..|trace.branchLog|])
    ensures Filter(OfStream(log[i].stream), main) == Filter(Foreign(me, log[i].stream, trace.plan.branch.base), log[..i])
  {
    hide Foreign, MainSide, BranchRead, MainTail, VersionSeen, ConflictList;
    var plan, s := trace.plan, log[i].stream;
    main := MainSide(trace.mainLog, StreamIds(plan.replay), plan.branch.base);
    tail := MainTail(plan.replay, plan.branch.base, trace.tailLog);
    WholeBranch(plan, trace.branchLog, log);
    FilterTwice(OfStream(s), DataEventOf(plan.branch.id), DataOn(plan.branch.id, s), log[..|trace.branchLog|]);
  }

  lemma TouchedStream(events: Log, s: Uuid)
    requires Filter(OfStream(s), events) != []
    ensures s in StreamIds(events)
  {
    if s !in StreamIds(events) {
      StreamIdsMembers(events);
      FilterNone(OfStream(s), events);
    }
  }

  /**
   * A merge never silently overrides main. Take any event it put on main at index `i`, `ours` the
   * branch's data events on that stream and `theirs` all that others had put on main's side of it after
   * the fork, by then. If one side alone deleted the stream, or neither did and the order of replay
   * matters, then the caller explicitly chose the branch's side, and main had not deleted it. For a stream
   * main had never seen when it was pinned, `theirs` must not have grown since the append's version read.
   * Whether the order matters is again asked of the stream's own rows, field by field, as in `OverrideWasChosen`.
   */
  lemma NoSilentOverride(me: nat, resolutions: Resolutions, trace: Trace, log: Log, i: nat, read: nat)
    requires trace.Applied? && CopiesHold(me, resolutions, trace, log)
    requires PlannedFrom(trace.plan, trace.branchLog, trace.mainLog, trace.tailLog) && !trace.plan.branchTruncated
    requires trace.branchLog <= log && ConflictsDecided(trace.plan.conflicts, resolutions)
    requires i < |log| && MineOnMain(me)(log[i])
    requires read <= i && HeldSince(me, trace.plan, trace.mainLog, log, i, read)
    requires trace.plan.pins[log[i].stream] > 0
      || Filter(Foreign(me, log[i].stream, trace.plan.branch.base), log[read..i]) == []
    ensures
      var s := log[i].stream;
      var ours := Filter(DataOn(trace.plan.branch.id, s), log[..|trace.branchLog|]);
      var theirs := Filter(Foreign(me, s, trace.plan.branch.base), log[..i]);
      theirs != [] && (HasDelete(ours) != HasDelete(theirs) || (!HasDelete(ours) && RowOrderMatters(ours, theirs))) ==>
        s in resolutions && resolutions[s] == BRANCH && !HasDelete(theirs)
  {
    hide ActiveGroups, HasDelete, RowOrderMatters, CopiesHold, HeldSince, PlannedFrom, Foreign, BranchRead, ConflictsDecided, DataOn,
         ConflictList;
    var plan, s := trace.plan, log[i].stream;
    var main, tail := SidesCompared(me, trace, log, i, read);
    if Filter(Foreign(me, s, plan.branch.base), log[..i]) != [] {
      TouchedStream(main, s);
      FilterMembers(MineOnMain(me), log);
      PlanIsRead(trace);
      MainOnlyAsDecided(me, resolutions, trace, log, log[i]);
      OverrideWasChosen(plan.replay, main, tail, resolutions, s);
    }
  }

  // --- Links ---

  /** The persons main has after `k` events were there at `from`, or were created since. */
  lemma PersonsSince(log: Log, from: nat, k: nat, person: Uuid)
    requires from <= k <= |log| && person in MainRows(log[..k]).persons
    requires forall e :: e in Filter(OnMain(), log[from..]) ==> e.event != Deleted(Person)
    ensures person in MainRows(log[..from]).persons
      || exists c :: c in Filter(OnMain(), log[from..]) && CreatesPerson(c, person)
  {
    hide Project, CreatesPerson, MainRows;
    MainRowsSince(log, from, k);
    var some, all := Filter(OnMain(), log[from..k]), Filter(OnMain(), log[from..]);
    assert log[from..] == log[from..k] + log[k..];
    FilterConcat(OnMain(), log[from..k], log[k..]);
    ReplayBounds(MainRows(log[..from]), some);
    if person !in MainRows(log[..from]).persons {
      var c :| c in some && CreatesPerson(c, person);
      assert c in all;
    }
  }

  lemma NothingEarlier(me: nat, log: Log, at: nat)
    requires at <= |log| && Mine(me, log[..at]) == []
    ensures forall i :: 0 <= i < at ==> log[i].writer != me
  {
    FilterMembers(By(me), log[..at]);
    forall i | 0 <= i < at ensures log[i].writer != me {
      assert log[..at][i] in log[..at];
    }
  }

  /** Every replayed event of a completed merge reached main, after the log was `from` events long. */
  lemma ReplayedReachesMain(me: nat, resolutions: Resolutions, trace: Trace, log: Log, o: StoredEvent) returns (c: StoredEvent)
    requires Completed(resolutions, trace) && CopiesHold(me, resolutions, trace, log)
    requires trace.from <= trace.at && o in Flatten(ToReplay(trace, resolutions))
    ensures c in Filter(OnMain(), log[trace.from..]) && Payload()(c) == Payload()(o)
  {
    hide ActiveGroups, Payload;
    var all := ToReplay(trace, resolutions);
    assert all[..trace.done] == all;
    var k :| 0 <= k < |Flatten(all)| && Flatten(all)[k] == o;
    assert |trace.copied| == |Map(Payload(), trace.copied)| == |Flatten(all)|;
    c := trace.copied[k];
    assert Map(Payload(), trace.copied)[k] == Map(Payload(), Flatten(all))[k];
    assert c in Mine(me, log);
    FilterMembers(By(me), log);
    FilterMembers(OnMain(), log[trace.from..]);
    var i :| 0 <= i < |log| && log[i] == c;
    NothingEarlier(me, log, trace.at);
    assert log[trace.from..][i - trace.from] == c;
  }

  /** And what I put on main is a replayed event. */
  lemma OnMainIsReplayed(me: nat, resolutions: Resolutions, trace: Trace, log: Log, e: StoredEvent) returns (o: StoredEvent)
    requires Completed(resolutions, trace) && CopiesHold(me, resolutions, trace, log)
    requires e in log && MineOnMain(me)(e)
    ensures o in Flatten(ToReplay(trace, resolutions)) && Payload()(o) == Payload()(e)
  {
    hide ActiveGroups, Payload;
    var all := ToReplay(trace, resolutions);
    assert all[..trace.done] == all;
    CopiesAreMineOnMain(me, resolutions, trace, log);
    FilterMembers(MineOnMain(me), log);
    var k :| 0 <= k < |trace.copied| && trace.copied[k] == e;
    assert |trace.copied| == |Map(Payload(), trace.copied)| == |Flatten(all)|;
    assert Map(Payload(), trace.copied)[k] == Map(Payload(), Flatten(all))[k];
    o := Flatten(all)[k];
  }

  /** Since the log was `from` events long, nobody else deleted a person on main or linked a child there. */
  ghost predicate OthersHarmless(me: nat, from: nat, log: Log)
  {
    forall i :: from <= i < |log| && log[i].branch == NIL && log[i].writer != me ==>
      log[i].event != Deleted(Person) && !log[i].event.ChildLinked?
  }

  /**
   * A completed merge leaves no dangling child link on main, if main had none where its read model stood
   * when the check began, nobody else has since deleted a person or linked a child, the merge deletes no
   * person, and every person it links and touches was there or is created by it.
   */
  lemma MergeLeavesNoDanglingLink(me: nat, resolutions: Resolutions, trace: Trace, log: Log)
    requires Completed(resolutions, trace) && CopiesHold(me, resolutions, trace, log)
    requires trace.from <= trace.at < |log| && LinksSeen(GroupsOf(trace.plan.replay), resolutions, trace.from, log[..trace.at])
    requires NoDanglingLink(MainRows(log[..trace.from])) && OthersHarmless(me, trace.from, log)
    requires forall e :: e in Flatten(ToReplay(trace, resolutions)) ==> e.event != Deleted(Person)
    requires forall g :: g in ToReplay(trace, resolutions) ==>
      CreatesIfLinked(g, MainRows(log[..trace.from]), Flatten(ToReplay(trace, resolutions)))
    ensures NoDanglingLink(MainRows(log))
  {
    hide LinksSeen, ActiveGroups, CreatesIfLinked, NoDanglingLink, MainRows, Project, CopiesHold, IsLink,
         CreatesPerson, Payload;
    var events := Filter(OnMain(), log[trace.from..]);
    FilterMembers(OnMain(), log[trace.from..]);
    forall e | e in events ensures e.event != Deleted(Person) {
      SinceIsHarmless(me, resolutions, trace, log, e);
    }
    forall e, p | e in events && IsLink(e, p)
      ensures p in MainRows(log[..trace.from]).persons || exists c :: c in events && CreatesPerson(c, p)
    {
      SinceIsHarmless(me, resolutions, trace, log, e);
      LinkIsLink(e, p);
      LinkLands(me, resolutions, trace, log, e, p);
    }
    ReplayLeavesNoDanglingLink(MainRows(log[..trace.from]), events);
    MainRowsSince(log, trace.from, |log|);
    assert log[..|log|] == log && log[trace.from..|log|] == log[trace.from..];
  }

  lemma SinceIsHarmless(me: nat, resolutions: Resolutions, trace: Trace, log: Log, e: StoredEvent)
    requires Completed(resolutions, trace) && CopiesHold(me, resolutions, trace, log)
    requires trace.from <= trace.at < |log| && OthersHarmless(me, trace.from, log)
    requires forall e :: e in Flatten(ToReplay(trace, resolutions)) ==> e.event != Deleted(Person)
    requires e in Filter(OnMain(), log[trace.from..])
    ensures e.event != Deleted(Person)
    ensures e.writer == me || !e.event.ChildLinked?
  {
    hide ActiveGroups, CopiesHold;
    FilterMembers(OnMain(), log[trace.from..]);
    var k :| 0 <= k < |log[trace.from..]| && log[trace.from..][k] == e;
    assert log[trace.from + k] == e;
    if e.writer == me {
      var o := OnMainIsReplayed(me, resolutions, trace, log, e);
    }
  }

  /** A person the replay links and touches was there, or is created on main. */
  lemma TouchedPersonLands(me: nat, resolutions: Resolutions, trace: Trace, log: Log, rows: Rows, o: StoredEvent, p: Uuid)
    requires Completed(resolutions, trace) && CopiesHold(me, resolutions, trace, log)
    requires trace.from <= trace.at < |log|
    requires forall g :: g in ToReplay(trace, resolutions) ==> CreatesIfLinked(g, rows, Flatten(ToReplay(trace, resolutions)))
    requires o in Flatten(ToReplay(trace, resolutions)) && IsLink(o, p) && p in StreamsOf(ToReplay(trace, resolutions))
    ensures p in rows.persons || exists c :: c in Filter(OnMain(), log[trace.from..]) && CreatesPerson(c, p)
  {
    hide ActiveGroups, CopiesHold;
    var active := ToReplay(trace, resolutions);
    var k :| 0 <= k < |active| && active[k].stream == p;
    assert active[k] in active;
    if p !in rows.persons {
      var made :| made in active[k].events && CreatesPerson(made, p);
      FlattenMembers(active, made);
      var c := ReplayedReachesMain(me, resolutions, trace, log, made);
      assert CreatesPerson(c, p);
    }
  }

  /** A person the replay links and does not touch was seen on main, and nobody has deleted them since. */
  lemma SeenPersonLands(resolutions: Resolutions, groups: seq<StreamGroup>, from: nat, at: nat, log: Log, p: Uuid)
    requires from <= at < |log| && LinksSeen(groups, resolutions, from, log[..at]) && LinksAbroad(groups, resolutions, p)
    requires forall e :: e in Filter(OnMain(), log[from..]) ==> e.event != Deleted(Person)
    ensures p in MainRows(log[..from]).persons
      || exists c :: c in Filter(OnMain(), log[from..]) && CreatesPerson(c, p)
  {
    hide LinksAbroad, MainRows;
    var k :| from <= k <= |log[..at]| && p in MainRows(log[..at][..k]).persons;
    assert log[..at][..k] == log[..k];
    PersonsSince(log, from, k, p);
  }

  /** A link on main since the check names a person who is there. */
  lemma LinkLands(me: nat, resolutions: Resolutions, trace: Trace, log: Log, e: StoredEvent, p: Uuid)
    requires Completed(resolutions, trace) && CopiesHold(me, resolutions, trace, log)
    requires trace.from <= trace.at < |log| && LinksSeen(GroupsOf(trace.plan.replay), resolutions, trace.from, log[..trace.at])
    requires OthersHarmless(me, trace.from, log)
    requires forall e :: e in Filter(OnMain(), log[trace.from..]) ==> e.event != Deleted(Person)
    requires forall g :: g in ToReplay(trace, resolutions) ==>
      CreatesIfLinked(g, MainRows(log[..trace.from]), Flatten(ToReplay(trace, resolutions)))
    requires e in Filter(OnMain(), log[trace.from..]) && e.writer == me && IsLink(e, p)
    ensures p in MainRows(log[..trace.from]).persons
      || exists c :: c in Filter(OnMain(), log[trace.from..]) && CreatesPerson(c, p)
  {
    hide ActiveGroups, MainRows, CopiesHold, LinksSeen, StreamsOf, CreatesIfLinked, OthersHarmless;
    FilterMembers(OnMain(), log[trace.from..]);
    assert e in log && MineOnMain(me)(e);
    var o := OnMainIsReplayed(me, resolutions, trace, log, e);
    assert IsLink(o, p);
    if p in StreamsOf(ToReplay(trace, resolutions)) {
      TouchedPersonLands(me, resolutions, trace, log, MainRows(log[..trace.from]), o, p);
    } else {
      assert LinksAbroad(GroupsOf(trace.plan.replay), resolutions, p);
      SeenPersonLands(resolutions, GroupsOf(trace.plan.replay), trace.from, trace.at, log, p);
    }
  }

  lemma LinkIsLink(e: StoredEvent, p: Uuid)
    requires IsLink(e, p)
    ensures e.event.ChildLinked?
  {
  }
}
