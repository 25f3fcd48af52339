/**
 * A conflict verdict that missed a write, step by step: branch 9 edits a field of stream 7, which main has
 * never seen; a merge plans, reads main's version again, and only then another request edits the same field on
 * main; the copy lands over it.
 */
module MissedVerdict {
  import opened Base
  import opened EventLog
  import opened BranchQueries
  import opened Conflicts
  import opened Replay
  import opened MergeModel

  const OPENING := StoredEvent(9, 9, 1, 1, BranchCreated(0, "b", ""), 1)
  const EDIT := StoredEvent(7, 9, 1, 2, Updated(Person, map["name" := "Ann"]), 1)
  const SLIPPED_IN := StoredEvent(7, NIL, 1, 3, Updated(Person, map["name" := "Anna"]), 3)
  const COPY := StoredEvent(7, NIL, 2, 4, Updated(Person, map["name" := "Ann"]), 2)

  /** The log when the plan was made, when the other request's edit had landed, and when the copy had. */
  const PLANNED := [OPENING] + [EDIT]
  const OVERTAKEN := PLANNED + [SLIPPED_IN]
  const MERGED := OVERTAKEN + [COPY]

  const PLAN := Plan(Branch(9, "b", "", 0, BranchStatus.Active, ""), [EDIT], [], map[7 := 0], false, false)

  lemma VersionStep(log: Log, e: StoredEvent, s: Uuid, b: Uuid)
    ensures StreamVersion(log + [e], s, b) == if e.stream == s && e.branch == b then e.version else StreamVersion(log, s, b)
  {
    assert (log + [e])[..|log|] == log;
  }

  lemma FilterStep(keep: StoredEvent -> bool, log: Log, e: StoredEvent)
    ensures Filter(keep, log + [e]) == if keep(e) then Filter(keep, log) + [e] else Filter(keep, log)
  {
    FilterConcat(keep, log, [e]);
    FilterOne(keep, e);
  }

  lemma FilterTwoEvents(keep: StoredEvent -> bool)
    ensures Filter(keep, PLANNED) == (if keep(OPENING) then [OPENING] else []) + (if keep(EDIT) then [EDIT] else [])
  {
    FilterOne(keep, OPENING);
    FilterStep(keep, [OPENING], EDIT);
  }

  lemma Versions()
    ensures StreamVersion([OPENING], 7, 9) == 0 && StreamVersion(PLANNED, 7, NIL) == 0 && StreamVersion(OVERTAKEN, 7, NIL) == 1
  {
    hide StreamVersion;
    assert StreamVersion([], 7, NIL) == 0 == StreamVersion([], 7, 9) by {
      NoEvents();
    }
    assert [] + [OPENING] == [OPENING];
    VersionStep([], OPENING, 7, 9);
    VersionStep([], OPENING, 7, NIL);
    VersionStep([OPENING], EDIT, 7, NIL);
    VersionStep(PLANNED, SLIPPED_IN, 7, NIL);
  }

  lemma NoEvents()
    ensures forall s, b :: StreamVersion([], s, b) == 0
  {
  }

  lemma AllValid()
    ensures ValidLog(PLANNED) && ValidLog(MERGED)
  {
    hide ValidLog, StreamVersion;
    Versions();
    NoEvents();
    assert ValidLog([]) by {
      EmptyIsValid();
    }
    assert [] + [OPENING] == [OPENING];
    OneMore([], OPENING);
    OneMore([OPENING], EDIT);
    OneMore(PLANNED, SLIPPED_IN);
    OneMore(OVERTAKEN, COPY);
  }

  lemma EmptyIsValid()
    ensures ValidLog([])
  {
  }

  lemma Opened()
    ensures Forked(PLANNED) && OpenedAs(PLANNED, PLAN.branch)
  {
    assert PLANNED[0] == OPENING && PLANNED[1] == EDIT;
    assert OpensAlone(PLANNED, 0);
  }

  lemma BranchSideRead()
    ensures BranchSide(PLANNED, PLAN.branch) == [EDIT] && !BranchTruncated(PLANNED, PLAN.branch)
  {
    hide Filter;
    FilterTwoEvents(After(9, 0));
    assert [OPENING] + [EDIT] == PLANNED;
    FilterTwoEvents(NotLifecycle());
    assert [] + [EDIT] == [EDIT];
  }

  lemma OneStream()
    ensures StreamIds([EDIT]) == [7] && SetOf([7]) == {7} && forall s :: XrefOf([EDIT], s) == ""
  {
    assert [EDIT][..0] == [];
  }

  lemma MainSideRead()
    ensures MainSide(PLANNED, [7], 0) == [] && !MainTruncated(PLANNED, [7], 0)
  {
    hide Filter;
    FilterTwoEvents(AfterOn(NIL, 0, SetOf([7])));
    assert Filter(NotLifecycle(), []) == [] by {
      FilterNone(NotLifecycle(), []);
    }
  }

  lemma NoConflict()
    ensures ConflictList([EDIT], [], []) == []
  {
    hide SideOf;
    OneStream();
    assert [7][..0] == [];
    assert StreamIds([]) == [];
    assert XrefOf([EDIT], 7) == "";
    assert Verdict(7, [EDIT], [], []) == None;
    assert Verdicts([7][..0], [EDIT], [], []) == [];
    assert Verdicts([7], [EDIT], [], []) == [];
  }

  lemma TailIsEmpty()
    ensures MainTail([EDIT], 0, PLANNED) == []
  {
    OneStream();
  }

  /** The plan is one the three reads can make, on a log all three saw, and it reports no conflict. */
  lemma PlanIsMade()
    ensures PlannedFrom(PLAN, PLANNED, PLANNED, PLANNED)
  {
    hide BranchSide, BranchTruncated, MainSide, MainTruncated, MainTail, ConflictList, StreamIds, Forked, OpenedAs,
         StreamVersion;
    Opened();
    BranchSideRead();
    OneStream();
    MainSideRead();
    NoConflict();
    TailIsEmpty();
    Versions();
    assert PLANNED[..2] == PLANNED;
    assert VersionSeen(PLANNED, |PLANNED|, 7, 0);
    assert PLAN.pins.Keys == {7};
    assert BranchRead(PLAN, PLANNED);
    assert StreamIds(PLAN.replay) == [7] && MainTail(PLAN.replay, PLAN.branch.base, PLANNED) == [];
    assert MainSide(PLANNED, StreamIds(PLAN.replay), 0) == [] && ConflictList(PLAN.replay, [], []) == PLAN.conflicts;
    assert forall s :: s in PLAN.pins ==> VersionSeen(PLANNED, |PLANNED|, s, PLAN.pins[s]);
    assert PLAN.pins.Keys == SetOf(StreamIds(PLAN.replay));
  }

  lemma OthersOnMain()
    ensures Filter(Foreign(2, 7, 0), OVERTAKEN) == [SLIPPED_IN] && Filter(Foreign(2, 7, 0), [SLIPPED_IN]) == [SLIPPED_IN]
  {
    hide Filter;
    FilterTwoEvents(Foreign(2, 7, 0));
    FilterStep(Foreign(2, 7, 0), PLANNED, SLIPPED_IN);
    FilterOne(Foreign(2, 7, 0), SLIPPED_IN);
    assert [] + [] + [SLIPPED_IN] == [SLIPPED_IN];
  }

  /** The two edits leave one field at different values. */
  lemma EditsConflict()
    ensures ClassifyStream(7, FoldAll(UNTOUCHED, [EDIT]), Some(FoldAll(UNTOUCHED, [SLIPPED_IN])))
         == Some(Conflict(7, EditEdit, {Named("name")}, {BRANCH, MAIN}))
  {
    var ours, theirs := FoldAll(UNTOUCHED, [EDIT]), FoldAll(UNTOUCHED, [SLIPPED_IN]);
    FoldOne(EDIT, "Ann");
    FoldOne(SLIPPED_IN, "Anna");
    assert |"Ann"| != |"Anna"|;
    assert Divergent(ours.fields, theirs.fields) == {Named("name")};
  }

  lemma FoldOne(e: StoredEvent, name: string)
    requires e.event == Updated(Person, map["name" := name])
    ensures FoldAll(UNTOUCHED, [e]) == StreamSide(false, map[Named("name") := Text(name)])
  {
    assert [e][..0] == [];
    assert ChangeFields(map["name" := name]) == map[Named("name") := Text(name)];
  }

  /**
   * Everything a merge checks held, and still its verdict was not about all of main's side: the comparison
   * saw nothing there and found no conflict, while the copy landed over an edit it does conflict with.
   */
  lemma VerdictMissesWrite()
    ensures ValidLog(MERGED) && PlannedFrom(PLAN, PLANNED, PLANNED, PLANNED) && PLAN.conflicts == []
    ensures MERGED[3].writer == 2 && MERGED[3].branch == NIL && HeldSince(2, PLAN, PLANNED, MERGED, 3, 2)
    ensures Filter(Foreign(2, 7, 0), MERGED[..3]) == [SLIPPED_IN] && MainSide(PLANNED, [7], 0) == []
    ensures ClassifyStream(7, FoldAll(UNTOUCHED, PLAN.replay), Some(FoldAll(UNTOUCHED, [SLIPPED_IN])))
         == Some(Conflict(7, EditEdit, {Named("name")}, {BRANCH, MAIN}))
  {
    hide ValidLog, MainSide, ClassifyStream, FoldAll, Filter, StreamIds, StreamVersion, Foreign, PlannedFrom;
    AllValid();
    PlanIsMade();
    MainSideRead();
    OneStream();
    OthersOnMain();
    EditsConflict();
    Versions();
    assert MERGED[..3] == OVERTAKEN && MERGED[2..3] == [SLIPPED_IN] && MERGED[..2] == PLANNED && MERGED[3] == COPY;
    assert Filter(OfStream(7), []) == [] by {
      FilterNone(OfStream(7), []);
    }
    assert [] + [SLIPPED_IN] == [SLIPPED_IN];
  }
}
