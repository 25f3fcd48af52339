/**
 * The conflict rule of a branch comparison: fold each side's events into the final value it asserts
 * per field, then compare the two folds stream by stream.
 */
module Conflicts {
  import opened Base
  import opened EventLog
  import opened BranchQueries

  /** A child link and a single name compare as fields of their own, beside the ordinary ones. */
  datatype Field = Named(name: string) | Child(person: Uuid) | NameOf(nameId: Uuid)

  datatype Value = Text(text: string) | Linked | Unlinked | Removed | FullName(name: NameFields)

  /** One side's net effect on a stream: did it delete it, and the final value of each field it set. */
  datatype StreamSide = StreamSide(deleted: bool, fields: map<Field, Value>)

  const UNTOUCHED := StreamSide(false, map[])

  datatype ConflictKind = EditEdit | DeleteEdit | CreateCreate

  datatype Conflict = Conflict(stream: Uuid, kind: ConflictKind, fields: set<Field>, supported: set<string>)

  function ChangeFields(changes: map<string, string>): map<Field, Value>
  {
    map f | f in (set n | n in changes :: Named(n)) :: Text(changes[f.name])
  }

  /** How one event changes its side's net effect. */
  function FoldEvent(side: StreamSide, e: Event): StreamSide
  {
    match e
    case Deleted(_) => side.(deleted := true)
    case ChildLinked(p) => side.(fields := side.fields[Child(p) := Linked])
    case ChildUnlinked(p) => side.(fields := side.fields[Child(p) := Unlinked])
    case NameRemoved(n) => side.(fields := side.fields[NameOf(n) := Removed])
    case NameAdded(n, fields) => side.(fields := side.fields[NameOf(n) := FullName(fields)])
    case NameUpdated(n, fields) => side.(fields := side.fields[NameOf(n) := FullName(fields)])
    case Updated(_, changes) => side.(fields := side.fields + ChangeFields(changes))
    case _ => side
  }

  function FoldAll(side: StreamSide, events: Log): StreamSide
  {
    if events == [] then side
    else FoldEvent(FoldAll(side, events[..|events| - 1]), events[|events| - 1].event)
  }

  /** The net effect of a side on one stream. */
  function SideOf(events: Log, stream: Uuid): StreamSide
  {
    FoldAll(UNTOUCHED, Filter(OfStream(stream), events))
  }

  lemma SideOfStep(events: Log, e: StoredEvent)
    ensures forall s {:trigger SideOf(events, s)} {:trigger SideOf(events + [e], s)} ::
      SideOf(events + [e], s) == if s == e.stream then FoldEvent(SideOf(events, s), e.event) else SideOf(events, s)
  {
    forall s
      ensures SideOf(events + [e], s) == if s == e.stream then FoldEvent(SideOf(events, s), e.event) else SideOf(events, s)
    {
      FilterConcat(OfStream(s), events, [e]);
      FilterOne(OfStream(s), e);
      if s == e.stream {
        var rows := Filter(OfStream(s), events);
        assert (rows + [e])[..|rows|] == rows;
      }
    }
  }

  lemma UntouchedSide(events: Log, stream: Uuid)
    requires stream !in StreamIds(events)
    ensures SideOf(events, stream) == UNTOUCHED
  {
    StreamIdsMembers(events);
    FilterNone(OfStream(stream), events);
  }

  lemma StreamIdsGrow(events: Log, e: StoredEvent)
    ensures forall s :: s in StreamIds(events + [e]) <==> s in StreamIds(events) || s == e.stream
  {
    assert (events + [e])[..|events|] == events;
  }

  /** Folds one side's events into a table by stream. */
  method SummarizeStreams(events: Log) returns (sides: map<Uuid, StreamSide>)
    ensures forall s :: s in sides <==> s in StreamIds(events)
    ensures forall s :: s in sides ==> sides[s] == SideOf(events, s)
  {
    assert StreamIds([]) == [];
    hide SideOf, StreamIds, FoldEvent;
    sides := map[];
    for i := 0 to |events|
      invariant forall s :: s in sides <==> s in StreamIds(events[..i])
      invariant forall s :: s in sides ==> sides[s] == SideOf(events[..i], s)
    {
      var e := events[i];
      ghost var before := events[..i];
      assert events[..i + 1] == before + [e];
      StreamIdsGrow(before, e);
      if e.stream !in sides {
        UntouchedSide(before, e.stream);
        sides := sides[e.stream := UNTOUCHED];
      }
      SideOfStep(before, e);
      sides := sides[e.stream := FoldEvent(sides[e.stream], e.event)];
    }
    assert events[..|events|] == events;
  }

  /** The fields both sides touched and left at different values. */
  function Divergent(branch: map<Field, Value>, main: map<Field, Value>): set<Field>
  {
    set f | f in branch && f in main && branch[f] != main[f]
  }

  /** Compares the two sides of one stream; main's side is absent when main never touched it. */
  function ClassifyStream(stream: Uuid, branch: StreamSide, main: Option<StreamSide>): Option<Conflict>
  {
    if main.None? then None
    else if branch.deleted != main.value.deleted then
      Some(Conflict(stream, DeleteEdit, {}, if main.value.deleted then {MAIN} else {BRANCH, MAIN}))
    else if branch.deleted then None
    else
      var fields := Divergent(branch.fields, main.value.fields);
      if fields == {} then None else Some(Conflict(stream, EditEdit, fields, {BRANCH, MAIN}))
  }

  /** The GEDCOM xref a creating event carries, "" for none. */
  function CreatedXref(e: Event): string
  {
    if e.Created? then e.xref else ""
  }

  /** The first non-empty xref a stream was created with, "" for none. */
  function XrefOf(events: Log, stream: Uuid): string
  {
    if events == [] then ""
    else
      var before := XrefOf(events[..|events| - 1], stream);
      var last := events[|events| - 1];
      if before != "" then before
      else if last.stream == stream then CreatedXref(last.event) else ""
  }

  /** The stream that first claimed an xref. */
  function XrefOwner(events: Log, xref: string): Option<Uuid>
  {
    if events == [] then None
    else
      var before := XrefOwner(events[..|events| - 1], xref);
      var last := events[|events| - 1];
      if before.Some? then before
      else if xref != "" && CreatedXref(last.event) == xref then Some(last.stream) else None
  }

  function ClassifyCreate(stream: Uuid, xref: string, owner: Option<Uuid>): Option<Conflict>
  {
    if xref == "" || owner.None? || owner.value == stream then None
    else Some(Conflict(stream, CreateCreate, {}, {MAIN}))
  }

  /** The verdict on one of the branch's streams. */
  function Verdict(stream: Uuid, branchEvents: Log, mainEvents: Log, mainTail: Log): Option<Conflict>
  {
    var mainSide := if stream in StreamIds(mainEvents) then Some(SideOf(mainEvents, stream)) else None;
    var edited := ClassifyStream(stream, SideOf(branchEvents, stream), mainSide);
    if edited.Some? then edited
    else
      var xref := XrefOf(branchEvents, stream);
      ClassifyCreate(stream, xref, XrefOwner(mainTail, xref))
  }

  function Verdicts(ids: seq<Uuid>, branchEvents: Log, mainEvents: Log, mainTail: Log): seq<Conflict>
  {
    if ids == [] then []
    else
      var before := Verdicts(ids[..|ids| - 1], branchEvents, mainEvents, mainTail);
      var v := Verdict(ids[|ids| - 1], branchEvents, mainEvents, mainTail);
      if v.Some? then before + [v.value] else before
  }

  /** The conflict list of a merge plan. */
  function ConflictList(branchEvents: Log, mainEvents: Log, mainTail: Log): seq<Conflict>
  {
    Verdicts(StreamIds(branchEvents), branchEvents, mainEvents, mainTail)
  }

  method CreatedXrefs(events: Log) returns (xrefs: map<Uuid, string>)
    ensures forall s :: (if s in xrefs then xrefs[s] else "") == XrefOf(events, s)
    ensures forall s :: s in xrefs ==> xrefs[s] != ""
  {
    xrefs := map[];
    for i := 0 to |events|
      invariant forall s :: (if s in xrefs then xrefs[s] else "") == XrefOf(events[..i], s)
      invariant forall s :: s in xrefs ==> xrefs[s] != ""
    {
      assert events[..i + 1][..i] == events[..i];
      var xref := CreatedXref(events[i].event);
      if xref == "" {
        continue;
      }
      if events[i].stream !in xrefs {
        xrefs := xrefs[events[i].stream := xref];
      }
    }
    assert events[..|events|] == events;
  }

  method XrefOwners(events: Log) returns (owners: map<string, Uuid>)
    ensures forall x :: (if x in owners then Some(owners[x]) else None) == XrefOwner(events, x)
  {
    owners := map[];
    for i := 0 to |events|
      invariant forall x :: (if x in owners then Some(owners[x]) else None) == XrefOwner(events[..i], x)
    {
      assert events[..i + 1][..i] == events[..i];
      var xref := CreatedXref(events[i].event);
      if xref == "" {
        continue;
      }
      if xref !in owners {
        owners := owners[xref := events[i].stream];
      }
    }
    assert events[..|events|] == events;
  }

  /** Classifies every stream the branch touched, in first-touch order. */
  method ClassifyConflicts(branchEvents: Log, mainEvents: Log, mainTail: Log) returns (conflicts: seq<Conflict>)
    ensures conflicts == ConflictList(branchEvents, mainEvents, mainTail)
  {
    var branchSides := SummarizeStreams(branchEvents);
    var mainSides := SummarizeStreams(mainEvents);
    var branchXrefs := CreatedXrefs(branchEvents);
    var owners := XrefOwners(mainTail);
    var ids := BranchStreamIds(branchEvents);
    conflicts := [];
    for i := 0 to |ids|
      invariant conflicts == Verdicts(ids[..i], branchEvents, mainEvents, mainTail)
    {
      var s := ids[i];
      assert ids[..i + 1][..i] == ids[..i];
      assert s in ids;
      var edited := ClassifyStream(s, branchSides[s], if s in mainSides then Some(mainSides[s]) else None);
      if edited.Some? {
        conflicts := conflicts + [edited.value];
        continue;
      }
      var xref := if s in branchXrefs then branchXrefs[s] else "";
      var collision := ClassifyCreate(s, xref, if xref in owners then Some(owners[xref]) else None);
      if collision.Some? {
        conflicts := conflicts + [collision.value];
      }
    }
    assert ids[..|ids|] == ids;
  }

  // --- What the conflict list says ---

  lemma {:induction false} VerdictsMembers(ids: seq<Uuid>, branchEvents: Log, mainEvents: Log, mainTail: Log, c: Conflict)
    ensures c in Verdicts(ids, branchEvents, mainEvents, mainTail)
      <==> c.stream in ids && Verdict(c.stream, branchEvents, mainEvents, mainTail) == Some(c)
  {
    if ids != [] {
      VerdictsMembers(ids[..|ids| - 1], branchEvents, mainEvents, mainTail, c);
      assert ids == ids[..|ids| - 1] + [ids[|ids| - 1]];
    }
  }

  /** A stream's conflicts: exactly its verdict, reported once, and never for a stream the branch left alone. */
  lemma ConflictListExact(branchEvents: Log, mainEvents: Log, mainTail: Log, c: Conflict)
    ensures c in ConflictList(branchEvents, mainEvents, mainTail)
      <==> c.stream in StreamIds(branchEvents) && Verdict(c.stream, branchEvents, mainEvents, mainTail) == Some(c)
  {
    VerdictsMembers(StreamIds(branchEvents), branchEvents, mainEvents, mainTail, c);
  }

  lemma {:induction false} VerdictsDistinct(ids: seq<Uuid>, branchEvents: Log, mainEvents: Log, mainTail: Log)
    requires Distinct(ids)
    ensures forall i, j :: 0 <= i < j < |Verdicts(ids, branchEvents, mainEvents, mainTail)| ==>
      Verdicts(ids, branchEvents, mainEvents, mainTail)[i].stream != Verdicts(ids, branchEvents, mainEvents, mainTail)[j].stream
  {
    if ids != [] {
      var shorter := ids[..|ids| - 1];
      VerdictsDistinct(shorter, branchEvents, mainEvents, mainTail);
      var list := Verdicts(shorter, branchEvents, mainEvents, mainTail);
      forall i | 0 <= i < |list| ensures list[i].stream in shorter {
        VerdictsMembers(shorter, branchEvents, mainEvents, mainTail, list[i]);
      }
    }
  }

  /** At most one conflict per stream. */
  lemma OneConflictPerStream(branchEvents: Log, mainEvents: Log, mainTail: Log, i: nat, j: nat)
    requires i < j < |ConflictList(branchEvents, mainEvents, mainTail)|
    ensures ConflictList(branchEvents, mainEvents, mainTail)[i].stream != ConflictList(branchEvents, mainEvents, mainTail)[j].stream
  {
    StreamIdsDistinct(branchEvents);
    VerdictsDistinct(StreamIds(branchEvents), branchEvents, mainEvents, mainTail);
  }

  // --- What the verdict means: order of application ---

  /** A net effect, applied to whatever state the other side left. */
  function Act(state: StreamSide, side: StreamSide): StreamSide
  {
    StreamSide(state.deleted || side.deleted, state.fields + side.fields)
  }

  /** Folding events over a state is applying their net effect: intermediate values do not matter. */
  lemma {:induction false} FoldIsAct(state: StreamSide, events: Log)
    ensures FoldAll(state, events) == Act(state, FoldAll(UNTOUCHED, events))
  {
    if events == [] {
      assert state.fields + map[] == state.fields;
    } else {
      var shorter := events[..|events| - 1];
      FoldIsAct(state, shorter);
      var e := events[|events| - 1].event;
      var side := FoldAll(UNTOUCHED, shorter);
      FoldEventActs(Act(state, side), e);
      FoldEventActs(side, e);
      ActAssociates(state, side, EventSide(e));
    }
  }

  /** What one event sets, as a net effect of its own. */
  function EventSide(e: Event): StreamSide
  {
    match e
    case Deleted(_) => StreamSide(true, map[])
    case ChildLinked(p) => StreamSide(false, map[Child(p) := Linked])
    case ChildUnlinked(p) => StreamSide(false, map[Child(p) := Unlinked])
    case NameRemoved(n) => StreamSide(false, map[NameOf(n) := Removed])
    case NameAdded(n, fields) => StreamSide(false, map[NameOf(n) := FullName(fields)])
    case NameUpdated(n, fields) => StreamSide(false, map[NameOf(n) := FullName(fields)])
    case Updated(_, changes) => StreamSide(false, ChangeFields(changes))
    case _ => UNTOUCHED
  }

  lemma FoldEventActs(side: StreamSide, e: Event)
    ensures FoldEvent(side, e) == Act(side, EventSide(e))
  {
    assert FoldEvent(side, e).fields == Act(side, EventSide(e)).fields;
  }

  lemma ActAssociates(a: StreamSide, b: StreamSide, c: StreamSide)
    ensures Act(Act(a, b), c) == Act(a, Act(b, c))
  {
    assert a.fields + b.fields + c.fields == a.fields + (b.fields + c.fields);
  }

  /** The replay order does not matter for the two sides, from any starting state. */
  ghost predicate Commute(branch: StreamSide, main: StreamSide)
  {
    forall state: StreamSide {:trigger Act(state, main)} :: Act(Act(state, main), branch) == Act(Act(state, branch), main)
  }

  lemma {:induction false} CommuteIffAgree(branch: StreamSide, main: StreamSide)
    ensures Commute(branch, main) <==> Divergent(branch.fields, main.fields) == {}
  {
    if Divergent(branch.fields, main.fields) == {} {
      forall state: StreamSide ensures Act(Act(state, main), branch) == Act(Act(state, branch), main) {
        forall f | f in branch.fields && f in main.fields ensures branch.fields[f] == main.fields[f] {
          assert f !in Divergent(branch.fields, main.fields);
        }
        assert state.fields + main.fields + branch.fields == state.fields + branch.fields + main.fields;
      }
    } else {
      var f :| f in Divergent(branch.fields, main.fields);
      var one, two := Act(Act(UNTOUCHED, main), branch), Act(Act(UNTOUCHED, branch), main);
      assert one.fields[f] == branch.fields[f] && two.fields[f] == main.fields[f];
    }
  }

  function ReplayBoth(state: StreamSide, first: Log, second: Log): StreamSide
  {
    FoldAll(FoldAll(state, first), second)
  }

  /** Replaying one side's events after the other's can end differently from the reverse order. */
  ghost predicate OrderMatters(branch: Log, main: Log)
  {
    exists state: StreamSide {:trigger ReplayBoth(state, main, branch)} ::
      ReplayBoth(state, main, branch) != ReplayBoth(state, branch, main)
  }

  lemma {:induction false} ReplayIsAct(state: StreamSide, first: Log, second: Log)
    ensures ReplayBoth(state, first, second) == Act(Act(state, FoldAll(UNTOUCHED, first)), FoldAll(UNTOUCHED, second))
  {
    FoldIsAct(state, first);
    FoldIsAct(FoldAll(state, first), second);
  }

  /** The edit-edit test decides order dependence of the full event replays, not just of field tables. */
  lemma OrderMattersIffDivergent(branch: Log, main: Log, bs: StreamSide, ms: StreamSide)
    requires bs == FoldAll(UNTOUCHED, branch) && ms == FoldAll(UNTOUCHED, main)
    ensures OrderMatters(branch, main) <==> Divergent(bs.fields, ms.fields) != {}
  {
    hide Act, FoldAll, Divergent, ReplayBoth;
    CommuteIffAgree(bs, ms);
    if OrderMatters(branch, main) {
      var state: StreamSide :| ReplayBoth(state, main, branch) != ReplayBoth(state, branch, main);
      ReplayIsAct(state, main, branch);
      ReplayIsAct(state, branch, main);
      assert !Commute(bs, ms);
    }
    if !Commute(bs, ms) {
      var state: StreamSide :| Act(Act(state, ms), bs) != Act(Act(state, bs), ms);
      ReplayIsAct(state, main, branch);
      ReplayIsAct(state, branch, main);
    }
  }

  /**
   * The verdict on a stream both sides touched, by meaning: an edit-edit conflict is reported exactly
   * when neither side deleted the stream and the replay order matters; a delete-edit conflict exactly
   * when one side alone deleted it; and the branch's side is offered unless main deleted.
   */
  lemma VerdictMeaning(stream: Uuid, branch: Log, main: Log, bs: StreamSide, ms: StreamSide)
    requires bs == FoldAll(UNTOUCHED, branch) && ms == FoldAll(UNTOUCHED, main)
    ensures
      var verdict := ClassifyStream(stream, bs, Some(ms));
      && (verdict.Some? && verdict.value.kind == EditEdit <==> !bs.deleted && !ms.deleted && OrderMatters(branch, main))
      && (verdict.Some? && verdict.value.kind == DeleteEdit <==> bs.deleted != ms.deleted)
      && (verdict.Some? ==> MAIN in verdict.value.supported)
      && (verdict.Some? ==> (BRANCH in verdict.value.supported <==> !ms.deleted))
  {
    OrderMattersIffDivergent(branch, main, bs, ms);
    assert "branch"[0] != "main"[0];
  }
}
