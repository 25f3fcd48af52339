/**
 * The conflict rule against the read model: what each side's net effect says about the rows its events leave
 * behind, and what a verdict therefore means for those rows.
 */
module ConflictRows {
  import opened Base
  import opened EventLog
  import opened BranchQueries
  import opened Conflicts
  import MergeValidation
  import PrimaryNames
  import Replay

  // --- What the fold records ---

  predicate HasDelete(events: Log)
  {
    exists i :: 0 <= i < |events| && events[i].event.Deleted?
  }

  /** The event says something about the field. */
  predicate Touches(e: Event, f: Field)
  {
    match f
    case Named(name) => e.Updated? && name in e.changes
    case Child(p) => e == ChildLinked(p) || e == ChildUnlinked(p)
    case NameOf(n) => (e.NameAdded? || e.NameUpdated? || e.NameRemoved?) && e.nameId == n
  }

  predicate TouchedIn(events: Log, f: Field)
  {
    exists i :: 0 <= i < |events| && Touches(events[i].event, f)
  }

  /** A side counts as deleting exactly when one of its events does, and has exactly the fields its events touch. */
  lemma {:induction false} FoldRecords(events: Log)
    ensures FoldAll(UNTOUCHED, events).deleted <==> HasDelete(events)
    ensures forall f :: f in FoldAll(UNTOUCHED, events).fields <==> TouchedIn(events, f)
  {
    if events != [] {
      var n := |events| - 1;
      var shorter, e := events[..n], events[n].event;
      FoldRecords(shorter);
      assert HasDelete(events) <==> HasDelete(shorter) || e.Deleted? by {
        if i :| 0 <= i < n && shorter[i].event.Deleted? {
          assert events[i].event.Deleted?;
        }
      }
      forall f ensures TouchedIn(events, f) <==> TouchedIn(shorter, f) || Touches(e, f) {
        if i :| 0 <= i < n && Touches(shorter[i].event, f) {
          assert Touches(events[i].event, f);
        }
      }
    }
  }

  /** The last event that touches a field decides its value. */
  lemma {:induction false} LastWordCounts(events: Log, i: nat, f: Field)
    requires i < |events| && Touches(events[i].event, f)
    requires forall j :: i < j < |events| ==> !Touches(events[j].event, f)
    ensures f in FoldAll(UNTOUCHED, events).fields
    ensures
      var value := FoldAll(UNTOUCHED, events).fields[f];
      match events[i].event
      case ChildLinked(_) => value == Linked
      case ChildUnlinked(_) => value == Unlinked
      case NameRemoved(_) => value == Removed
      case NameAdded(_, name) => value == FullName(name)
      case NameUpdated(_, name) => value == FullName(name)
      case Updated(_, changes) => f.Named? && f.name in changes && value == Text(changes[f.name])
      case _ => true
  {
    var n := |events| - 1;
    if i < n {
      assert !Touches(events[n].event, f);
      LastWordCounts(events[..n], i, f);
      assert events[..n][i] == events[i];
    }
  }

  // --- The rows ---

  /** What one stream's events leave in the read model: its text fields, its child links, its names. */
  datatype Details = Details(texts: map<string, string>, children: set<Uuid>, names: map<Uuid, NameFields>)

  function ProjectDetails(d: Details, e: StoredEvent): Details
  {
    match e.event
    case Updated(_, changes) => d.(texts := d.texts + changes)
    case Deleted(_) => Details(map[], {}, map[])
    case ChildLinked(p) => d.(children := d.children + {p})
    case ChildUnlinked(p) => d.(children := d.children - {p})
    case NameAdded(n, name) => d.(names := d.names[n := name])
    case NameUpdated(n, name) => d.(names := d.names[n := name])
    case NameRemoved(n) => d.(names := d.names - {n})
    case _ => d
  }

  function RowsAfter(d: Details, events: Log): Details
  {
    Replay.Fold(ProjectDetails, d, events)
  }

  function TextIn(d: Details, name: string): Option<string>
  {
    if name in d.texts then Some(d.texts[name]) else None
  }

  function NameIn(d: Details, n: Uuid): Option<NameFields>
  {
    if n in d.names then Some(d.names[n]) else None
  }

  /** Two details that agree on what a field stands for. */
  predicate AgreeOn(a: Details, b: Details, f: Field)
  {
    match f
    case Named(name) => TextIn(a, name) == TextIn(b, name)
    case Child(p) => p in a.children <==> p in b.children
    case NameOf(n) => NameIn(a, n) == NameIn(b, n)
  }

  /** The row says what the value does. */
  predicate Shows(d: Details, f: Field, value: Value)
  {
    match f
    case Named(name) => value.Text? && TextIn(d, name) == Some(value.text)
    case Child(p) => (value == Linked && p in d.children) || (value == Unlinked && p !in d.children)
    case NameOf(n) => (value == Removed && n !in d.names) || (value.FullName? && NameIn(d, n) == Some(value.name))
  }

  /**
   * A side without a deletion leaves the rows showing exactly its net effect: every field it touched at the value
   * it asserts, every other as it was.
   */
  lemma {:induction false} RowsShowNetEffect(d: Details, events: Log, f: Field)
    requires !HasDelete(events)
    ensures var side := FoldAll(UNTOUCHED, events);
      if f in side.fields then Shows(RowsAfter(d, events), f, side.fields[f]) else AgreeOn(RowsAfter(d, events), d, f)
  {
    if events != [] {
      hide FoldEvent, ProjectDetails, Shows, AgreeOn;
      var n := |events| - 1;
      assert !events[n].event.Deleted? && forall i :: 0 <= i < n ==> events[..n][i] == events[i];
      RowsShowNetEffect(d, events[..n], f);
      StepShows(d, RowsAfter(d, events[..n]), FoldAll(UNTOUCHED, events[..n]), events[n], f);
    }
  }

  lemma StepShows(before: Details, d: Details, side: StreamSide, e: StoredEvent, f: Field)
    requires !e.event.Deleted?
    requires if f in side.fields then Shows(d, f, side.fields[f]) else AgreeOn(d, before, f)
    ensures var next := FoldEvent(side, e.event);
      if f in next.fields then Shows(ProjectDetails(d, e), f, next.fields[f]) else AgreeOn(ProjectDetails(d, e), before, f)
  {
    match f
    case Named(name) => StepShowsText(before, d, side, e, name);
    case Child(p) =>
    case NameOf(n) =>
  }

  lemma StepShowsText(before: Details, d: Details, side: StreamSide, e: StoredEvent, name: string)
    requires !e.event.Deleted?
    requires if Named(name) in side.fields then Shows(d, Named(name), side.fields[Named(name)])
             else TextIn(d, name) == TextIn(before, name)
    ensures var next := FoldEvent(side, e.event).fields;
      if Named(name) in next then Shows(ProjectDetails(d, e), Named(name), next[Named(name)])
      else TextIn(ProjectDetails(d, e), name) == TextIn(before, name)
  {
    match e.event
    case Updated(_, changes) =>
      assert Named(name) in ChangeFields(changes) <==> name in changes;
    case _ =>
  }

  /** Details that agree on every field are the same. */
  lemma AgreeOnAll(a: Details, b: Details)
    requires forall f :: AgreeOn(a, b, f)
    ensures a == b
  {
    forall name ensures TextIn(a, name) == TextIn(b, name) {
      assert AgreeOn(a, b, Named(name));
    }
    forall p ensures p in a.children <==> p in b.children {
      assert AgreeOn(a, b, Child(p));
    }
    forall n ensures NameIn(a, n) == NameIn(b, n) {
      assert AgreeOn(a, b, NameOf(n));
    }
    assert a.texts == b.texts by {
      forall name ensures name in a.texts <==> name in b.texts ensures name in a.texts ==> a.texts[name] == b.texts[name] {
        assert TextIn(a, name) == TextIn(b, name);
      }
    }
    assert a.names == b.names by {
      forall n ensures n in a.names <==> n in b.names ensures n in a.names ==> a.names[n] == b.names[n] {
        assert NameIn(a, n) == NameIn(b, n);
      }
    }
    assert a.children == b.children;
  }

  // --- When the order of two sides matters to the rows ---

  /** Replaying the branch's events over main's can leave other rows than the reverse order. */
  ghost predicate RowOrderMatters(branch: Log, main: Log)
  {
    exists d: Details :: OrdersDiffer(d, branch, main)
  }

  predicate OrdersDiffer(d: Details, branch: Log, main: Log)
  {
    RowsAfter(RowsAfter(d, main), branch) != RowsAfter(RowsAfter(d, branch), main)
  }

  lemma OneValueShown(d: Details, f: Field, v: Value, w: Value)
    requires Shows(d, f, v) && Shows(d, f, w)
    ensures v == w
  {
  }

  lemma ShownAgrees(a: Details, b: Details, f: Field, v: Value)
    requires Shows(a, f, v)
    ensures Shows(b, f, v) <==> AgreeOn(a, b, f)
  {
  }

  /** Either order leaves the same on a field the sides do not disagree about. */
  lemma {:induction false} OrderAgrees(d: Details, branch: Log, main: Log, f: Field)
    requires !HasDelete(branch) && !HasDelete(main)
    requires f !in Divergent(FoldAll(UNTOUCHED, branch).fields, FoldAll(UNTOUCHED, main).fields)
    ensures AgreeOn(RowsAfter(RowsAfter(d, main), branch), RowsAfter(RowsAfter(d, branch), main), f)
  {
    hide FoldAll, HasDelete, RowsAfter, Shows, AgreeOn;
    var bs, ms := FoldAll(UNTOUCHED, branch).fields, FoldAll(UNTOUCHED, main).fields;
    RowsShowNetEffect(d, main, f);
    RowsShowNetEffect(d, branch, f);
    RowsShowNetEffect(RowsAfter(d, main), branch, f);
    RowsShowNetEffect(RowsAfter(d, branch), main, f);
    var one, two := RowsAfter(RowsAfter(d, main), branch), RowsAfter(RowsAfter(d, branch), main);
    if f in bs {
      ShownAgrees(one, two, f, bs[f]);
      if f !in ms {
        ShownAgrees(RowsAfter(d, branch), two, f, bs[f]);
        Symmetric(two, RowsAfter(d, branch), f);
      }
    } else if f in ms {
      ShownAgrees(two, one, f, ms[f]);
      ShownAgrees(RowsAfter(d, main), one, f, ms[f]);
      Symmetric(one, RowsAfter(d, main), f);
      Symmetric(two, one, f);
    } else {
      Chain(one, RowsAfter(d, main), d, f);
      Chain(two, RowsAfter(d, branch), d, f);
      Symmetric(two, d, f);
      Chain(one, d, two, f);
    }
  }

  lemma Symmetric(a: Details, b: Details, f: Field)
    ensures AgreeOn(a, b, f) <==> AgreeOn(b, a, f)
  {
  }

  lemma Chain(a: Details, b: Details, c: Details, f: Field)
    requires AgreeOn(a, b, f) && AgreeOn(b, c, f)
    ensures AgreeOn(a, c, f)
  {
  }

  /** For sides without deletions, the field-by-field test decides whether the order matters to the rows. */
  lemma RowOrderIff(branch: Log, main: Log)
    requires !HasDelete(branch) && !HasDelete(main)
    ensures RowOrderMatters(branch, main)
      <==> Divergent(FoldAll(UNTOUCHED, branch).fields, FoldAll(UNTOUCHED, main).fields) != {}
  {
    hide FoldAll, HasDelete, RowsAfter, Shows, AgreeOn;
    var bs, ms := FoldAll(UNTOUCHED, branch).fields, FoldAll(UNTOUCHED, main).fields;
    if Divergent(bs, ms) == {} {
      forall d: Details ensures !OrdersDiffer(d, branch, main) {
        EitherOrder(d, branch, main);
      }
    } else {
      SomeOrder(branch, main);
    }
  }

  lemma EitherOrder(d: Details, branch: Log, main: Log)
    requires !HasDelete(branch) && !HasDelete(main)
    requires Divergent(FoldAll(UNTOUCHED, branch).fields, FoldAll(UNTOUCHED, main).fields) == {}
    ensures RowsAfter(RowsAfter(d, main), branch) == RowsAfter(RowsAfter(d, branch), main)
  {
    hide FoldAll, HasDelete, RowsAfter, AgreeOn;
    forall f ensures AgreeOn(RowsAfter(RowsAfter(d, main), branch), RowsAfter(RowsAfter(d, branch), main), f) {
      OrderAgrees(d, branch, main, f);
    }
    AgreeOnAll(RowsAfter(RowsAfter(d, main), branch), RowsAfter(RowsAfter(d, branch), main));
  }

  lemma SomeOrder(branch: Log, main: Log)
    requires !HasDelete(branch) && !HasDelete(main)
    requires Divergent(FoldAll(UNTOUCHED, branch).fields, FoldAll(UNTOUCHED, main).fields) != {}
    ensures RowOrderMatters(branch, main)
  {
    hide FoldAll, HasDelete, RowsAfter, Shows;
    var bs, ms := FoldAll(UNTOUCHED, branch).fields, FoldAll(UNTOUCHED, main).fields;
    var f :| f in Divergent(bs, ms);
    var d := Details(map[], {}, map[]);
    RowsShowNetEffect(RowsAfter(d, main), branch, f);
    RowsShowNetEffect(RowsAfter(d, branch), main, f);
    if RowsAfter(RowsAfter(d, main), branch) == RowsAfter(RowsAfter(d, branch), main) {
      OneValueShown(RowsAfter(RowsAfter(d, main), branch), f, bs[f], ms[f]);
    }
    assert OrdersDiffer(d, branch, main);
  }

  /** A field is divergent exactly when both sides touch it and leave its row different, from any rows. */
  lemma {:induction false} DivergentIff(d: Details, branch: Log, main: Log, f: Field)
    requires !HasDelete(branch) && !HasDelete(main)
    ensures f in Divergent(FoldAll(UNTOUCHED, branch).fields, FoldAll(UNTOUCHED, main).fields)
      <==> TouchedIn(branch, f) && TouchedIn(main, f) && !AgreeOn(RowsAfter(d, branch), RowsAfter(d, main), f)
  {
    hide FoldAll, HasDelete, RowsAfter, Shows, AgreeOn, TouchedIn;
    FoldRecords(branch);
    FoldRecords(main);
    var bs, ms := FoldAll(UNTOUCHED, branch).fields, FoldAll(UNTOUCHED, main).fields;
    if f in bs && f in ms {
      RowsShowNetEffect(d, branch, f);
      RowsShowNetEffect(d, main, f);
      ShownAgrees(RowsAfter(d, branch), RowsAfter(d, main), f, bs[f]);
      if Shows(RowsAfter(d, main), f, bs[f]) {
        OneValueShown(RowsAfter(d, main), f, bs[f], ms[f]);
      }
    }
  }

  // --- The rows of the other projections ---

  /** Child links: the same as the check for dangling links projects. */
  lemma {:induction false} LinksAsProjected(rows: MergeValidation.Rows, d: Details, s: Uuid, events: Log)
    requires !HasDelete(events) && forall i :: 0 <= i < |events| ==> events[i].stream == s
    requires forall p :: (s, p) in rows.links <==> p in d.children
    ensures forall p :: (s, p) in Replay.Fold(MergeValidation.Project, rows, events).links <==> p in RowsAfter(d, events).children
  {
    if events != [] {
      var n := |events| - 1;
      assert !events[n].event.Deleted? && forall i :: 0 <= i < n ==> events[..n][i] == events[i];
      LinksAsProjected(rows, d, s, events[..n]);
    }
  }

  /** Names: the same as the name commands project. */
  lemma {:induction false} NamesAsProjected(d: Details, events: Log)
    requires !HasDelete(events)
    ensures RowsAfter(d, events).names == PrimaryNames.ProjectAll(d.names, Map(EventOf(), events))
  {
    if events != [] {
      var n := |events| - 1;
      assert !events[n].event.Deleted? && forall i :: 0 <= i < n ==> events[..n][i] == events[i];
      NamesAsProjected(d, events[..n]);
      assert Map(EventOf(), events)[..n] == Map(EventOf(), events[..n]);
    }
  }

  /**
   * A side without a deletion ends with the child linked, by its net effect, exactly when the read model shows
   * the link after its events, whatever links there were before.
   */
  lemma LinkedIff(rows: MergeValidation.Rows, s: Uuid, events: Log, p: Uuid)
    requires !HasDelete(events) && forall i :: 0 <= i < |events| ==> events[i].stream == s
    requires TouchedIn(events, Child(p))
    ensures Child(p) in FoldAll(UNTOUCHED, events).fields
    ensures FoldAll(UNTOUCHED, events).fields[Child(p)] in {Linked, Unlinked}
    ensures FoldAll(UNTOUCHED, events).fields[Child(p)] == Linked
      <==> (s, p) in Replay.Fold(MergeValidation.Project, rows, events).links
  {
    hide FoldAll, TouchedIn, MergeValidation.Project, HasDelete;
    FoldRecords(events);
    var d := Details(map[], set l | l in rows.links && l.0 == s :: l.1, map[]);
    assert forall q :: (s, q) in rows.links ==> (s, q).0 == s && (s, q).1 == q;
    LinksAsProjected(rows, d, s, events);
    RowsShowNetEffect(d, events, Child(p));
  }

  // --- What a listed conflict means ---

  function Ours(replay: Log, s: Uuid): Log
  {
    Filter(OfStream(s), replay)
  }

  /** The stream's first creation with an xref claims this one. */
  ghost predicate FirstXref(events: Log, s: Uuid, xref: string)
  {
    && xref != ""
    && exists i ::
         0 <= i < |events| && CreatesWith(events[i], xref) && events[i].stream == s
         && forall j :: 0 <= j < i && events[j].stream == s ==> CreatesWith(events[j], "") || !events[j].event.Created?
  }

  predicate CreatesWith(e: StoredEvent, xref: string)
  {
    e.event.Created? && e.event.xref == xref
  }

  /** The first creation with this xref is of this stream. */
  ghost predicate FirstClaim(events: Log, xref: string, s: Uuid)
  {
    exists i :: 0 <= i < |events| && CreatesWith(events[i], xref) && events[i].stream == s
      && forall j :: 0 <= j < i ==> !CreatesWith(events[j], xref)
  }

  lemma {:induction false} XrefIsFirst(events: Log, s: Uuid)
    ensures XrefOf(events, s) != "" ==> FirstXref(events, s, XrefOf(events, s))
    ensures XrefOf(events, s) == "" ==>
      forall i :: 0 <= i < |events| && events[i].stream == s ==> CreatesWith(events[i], "") || !events[i].event.Created?
  {
    if events != [] {
      var n := |events| - 1;
      var shorter := events[..n];
      XrefIsFirst(shorter, s);
      assert forall i :: 0 <= i < n ==> shorter[i] == events[i];
      if XrefOf(shorter, s) != "" {
        var i :| 0 <= i < n && CreatesWith(shorter[i], XrefOf(shorter, s)) && shorter[i].stream == s
          && forall j :: 0 <= j < i && shorter[j].stream == s ==> CreatesWith(shorter[j], "") || !shorter[j].event.Created?;
        assert CreatesWith(events[i], XrefOf(events, s));
      } else if XrefOf(events, s) != "" {
        assert CreatesWith(events[n], XrefOf(events, s));
      }
    }
  }

  lemma {:induction false} OwnerIsFirst(events: Log, xref: string, s: Uuid)
    requires xref != ""
    ensures XrefOwner(events, xref) == Some(s) ==> FirstClaim(events, xref, s)
    ensures XrefOwner(events, xref) == None ==> forall i :: 0 <= i < |events| ==> !CreatesWith(events[i], xref)
  {
    if events != [] {
      var n := |events| - 1;
      var shorter := events[..n];
      OwnerIsFirst(shorter, xref, s);
      assert forall i :: 0 <= i < n ==> shorter[i] == events[i];
      if XrefOwner(shorter, xref) == Some(s) {
        var i :| 0 <= i < n && CreatesWith(shorter[i], xref) && shorter[i].stream == s
          && forall j :: 0 <= j < i ==> !CreatesWith(shorter[j], xref);
        assert CreatesWith(events[i], xref);
      } else if XrefOwner(shorter, xref).None? && XrefOwner(events, xref) == Some(s) {
        assert CreatesWith(events[n], xref);
      }
    }
  }

  /** The branch created the stream with an xref that another stream claimed first on main's tail. */
  ghost predicate Collides(replay: Log, tail: Log, s: Uuid)
  {
    exists xref, other :: FirstXref(replay, s, xref) && FirstClaim(tail, xref, other) && other != s
  }

  lemma OneXref(events: Log, s: Uuid, x: string, y: string)
    requires FirstXref(events, s, x) && FirstXref(events, s, y)
    ensures x == y
  {
  }

  lemma OneClaim(events: Log, x: string, s: Uuid, t: Uuid)
    requires FirstClaim(events, x, s) && FirstClaim(events, x, t)
    ensures s == t
  {
  }

  lemma CollidesIff(replay: Log, tail: Log, s: Uuid)
    ensures Collides(replay, tail, s)
      <==> ClassifyCreate(s, XrefOf(replay, s), XrefOwner(tail, XrefOf(replay, s))) == Some(Conflict(s, CreateCreate, {}, {MAIN}))
    ensures !Collides(replay, tail, s) ==> ClassifyCreate(s, XrefOf(replay, s), XrefOwner(tail, XrefOf(replay, s))) == None
  {
    hide XrefOf, XrefOwner, FirstXref, FirstClaim;
    var x := XrefOf(replay, s);
    XrefIsFirst(replay, s);
    if x != "" && XrefOwner(tail, x).Some? {
      OwnerIsFirst(tail, x, XrefOwner(tail, x).value);
    }
    if y, other :| FirstXref(replay, s, y) && FirstClaim(tail, y, other) && other != s {
      HasXref(replay, s, y);
      OneXref(replay, s, x, y);
      HasClaim(tail, x, other);
      OneClaim(tail, x, other, XrefOwner(tail, x).value);
    }
  }

  lemma HasXref(events: Log, s: Uuid, x: string)
    requires FirstXref(events, s, x)
    ensures XrefOf(events, s) != "" && FirstXref(events, s, XrefOf(events, s))
  {
    XrefIsFirst(events, s);
  }

  lemma HasClaim(events: Log, x: string, s: Uuid)
    requires x != "" && FirstClaim(events, x, s)
    ensures XrefOwner(events, x).Some? && FirstClaim(events, x, XrefOwner(events, x).value)
  {
    var owner := XrefOwner(events, x);
    OwnerIsFirst(events, x, if owner.Some? then owner.value else s);
  }

  ghost predicate Listed(replay: Log, main: Log, tail: Log, s: Uuid, kind: ConflictKind)
  {
    exists c :: c in ConflictList(replay, main, tail) && c.stream == s && c.kind == kind
  }

  lemma ListedIsVerdict(replay: Log, main: Log, tail: Log, s: Uuid, kind: ConflictKind)
    requires s in StreamIds(replay)
    ensures Listed(replay, main, tail, s, kind)
      <==> Verdict(s, replay, main, tail).Some? && Verdict(s, replay, main, tail).value.kind == kind
  {
    hide ConflictList, Verdict;
    VerdictStream(s, replay, main, tail);
    var v := Verdict(s, replay, main, tail);
    if v.Some? {
      ConflictListExact(replay, main, tail, v.value);
    }
    if c :| c in ConflictList(replay, main, tail) && c.stream == s && c.kind == kind {
      ConflictListExact(replay, main, tail, c);
    }
  }

  lemma VerdictStream(s: Uuid, replay: Log, main: Log, tail: Log)
    ensures Verdict(s, replay, main, tail).Some? ==> Verdict(s, replay, main, tail).value.stream == s
  {
  }

  /** A stream main never touched has no events on its side. */
  lemma TouchedIffEvents(main: Log, s: Uuid)
    ensures s in StreamIds(main) <==> Ours(main, s) != []
  {
    StreamIdsMembers(main);
    FilterMembers(OfStream(s), main);
    if s in StreamIds(main) {
      var e :| e in main && e.stream == s;
      assert e in Ours(main, s);
    } else {
      FilterNone(OfStream(s), main);
    }
  }

  /** The verdict on a stream, with the two sides told by their events and rows alone. */
  lemma VerdictByRows(replay: Log, main: Log, tail: Log, s: Uuid)
    ensures
      var ours, theirs, verdict := Ours(replay, s), Ours(main, s), Verdict(s, replay, main, tail);
      var deletes := theirs != [] && HasDelete(ours) != HasDelete(theirs);
      var edits := !HasDelete(ours) && !HasDelete(theirs) && RowOrderMatters(ours, theirs);
      && (verdict.Some? && verdict.value.kind == DeleteEdit <==> deletes)
      && (verdict.Some? && verdict.value.kind == EditEdit <==> edits)
      && (verdict.Some? && verdict.value.kind == CreateCreate <==> !deletes && !edits && Collides(replay, tail, s))
      && (verdict.Some? ==>
            verdict.value.supported == if verdict.value.kind == CreateCreate || HasDelete(theirs) then {MAIN} else {BRANCH, MAIN})
      && (verdict.Some? && verdict.value.kind == EditEdit ==>
            verdict.value.fields == Divergent(FoldAll(UNTOUCHED, ours).fields, FoldAll(UNTOUCHED, theirs).fields))
  {
    hide FoldAll, HasDelete, RowOrderMatters, Divergent, XrefOf, XrefOwner, ClassifyCreate, Collides, StreamIds;
    var ours, theirs := Ours(replay, s), Ours(main, s);
    TouchedIffEvents(main, s);
    FoldRecords(ours);
    FoldRecords(theirs);
    CollidesIff(replay, tail, s);
    if !HasDelete(ours) && !HasDelete(theirs) {
      RowOrderIff(ours, theirs);
      if theirs == [] {
        NothingDiverges(ours);
      }
    }
    NoDeleteInNone();
  }

  lemma NothingDiverges(ours: Log)
    ensures Divergent(FoldAll(UNTOUCHED, ours).fields, FoldAll(UNTOUCHED, []).fields) == {}
  {
  }

  lemma NoDeleteInNone()
    ensures !HasDelete([])
  {
  }

  /**
   * A merge plan's conflict list, by what the two sides do to the read model. On a stream the branch touched, a
   * delete-edit conflict is listed exactly when main touched it too and one side alone deletes it; an edit-edit
   * conflict exactly when neither deletes it and the order of replay matters to the rows; a create-create conflict
   * exactly when neither is and its xref was first claimed by another stream on main's tail.
   */
  lemma ListedByRows(replay: Log, main: Log, tail: Log, s: Uuid)
    requires s in StreamIds(replay)
    ensures
      var ours, theirs := Ours(replay, s), Ours(main, s);
      var deletes := theirs != [] && HasDelete(ours) != HasDelete(theirs);
      var edits := !HasDelete(ours) && !HasDelete(theirs) && RowOrderMatters(ours, theirs);
      && (Listed(replay, main, tail, s, DeleteEdit) <==> deletes)
      && (Listed(replay, main, tail, s, EditEdit) <==> edits)
      && (Listed(replay, main, tail, s, CreateCreate) <==> !deletes && !edits && Collides(replay, tail, s))
  {
    hide HasDelete, RowOrderMatters, Collides, StreamIds, Verdict, Listed, FoldAll, Divergent;
    VerdictByRows(replay, main, tail, s);
    ListedIsVerdict(replay, main, tail, s, DeleteEdit);
    ListedIsVerdict(replay, main, tail, s, EditEdit);
    ListedIsVerdict(replay, main, tail, s, CreateCreate);
  }

  /**
   * A listed conflict offers main always, and the branch's side exactly when it is no create collision and main
   * does not delete the stream; an edit-edit conflict names exactly the fields both sides touch and leave
   * different in the rows, whatever the rows were.
   */
  lemma ListedSays(replay: Log, main: Log, tail: Log, c: Conflict, d: Details, f: Field)
    requires c in ConflictList(replay, main, tail)
    ensures
      var ours, theirs := Ours(replay, c.stream), Ours(main, c.stream);
      && c.supported == (if c.kind == CreateCreate || HasDelete(theirs) then {MAIN} else {BRANCH, MAIN})
      && (c.kind == EditEdit ==>
            (f in c.fields <==> TouchedIn(ours, f) && TouchedIn(theirs, f) && !AgreeOn(RowsAfter(d, ours), RowsAfter(d, theirs), f)))
  {
    hide HasDelete, RowOrderMatters, Collides, StreamIds, Verdict, FoldAll, Divergent, AgreeOn, RowsAfter, TouchedIn, ConflictList;
    ConflictListExact(replay, main, tail, c);
    VerdictByRows(replay, main, tail, c.stream);
    if c.kind == EditEdit {
      DivergentIff(d, Ours(replay, c.stream), Ours(main, c.stream), f);
    }
  }

  /** Where the two sides leave a child link different on main's rows and neither deletes the family, it is a conflict. */
  lemma DifferentLinksConflict(replay: Log, main: Log, tail: Log, s: Uuid, p: Uuid, rows: MergeValidation.Rows)
    requires !HasDelete(Ours(replay, s)) && !HasDelete(Ours(main, s))
    requires TouchedIn(Ours(replay, s), Child(p)) && TouchedIn(Ours(main, s), Child(p))
    requires ((s, p) in Replay.Fold(MergeValidation.Project, rows, Ours(replay, s)).links)
          != ((s, p) in Replay.Fold(MergeValidation.Project, rows, Ours(main, s)).links)
    ensures Listed(replay, main, tail, s, EditEdit)
  {
    hide HasDelete, FoldAll, MergeValidation.Project, TouchedIn, RowOrderMatters, Verdict, Listed;
    var ours, theirs := Ours(replay, s), Ours(main, s);
    OneStream(replay, s);
    OneStream(main, s);
    LinkedIff(rows, s, ours, p);
    LinkedIff(rows, s, theirs, p);
    assert Child(p) in Divergent(FoldAll(UNTOUCHED, ours).fields, FoldAll(UNTOUCHED, theirs).fields);
    RowOrderIff(ours, theirs);
    TouchedIffEvents(replay, s);
    TouchedMeansSome(ours, Child(p));
    ListedByRows(replay, main, tail, s);
  }

  lemma TouchedMeansSome(events: Log, f: Field)
    requires TouchedIn(events, f)
    ensures events != []
  {
  }

  lemma OneStream(events: Log, s: Uuid)
    ensures forall i :: 0 <= i < |Ours(events, s)| ==> Ours(events, s)[i].stream == s
  {
    FilterMembers(OfStream(s), events);
    forall i | 0 <= i < |Ours(events, s)| ensures Ours(events, s)[i].stream == s {
      assert Ours(events, s)[i] in Ours(events, s);
    }
  }
}
