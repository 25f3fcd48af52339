/** The checks a merge passes before it writes anything, and what passing them buys. */
module MergeValidation {
  import opened Base
  import opened EventLog
  import opened BranchQueries
  import opened Conflicts
  import opened Replay
  import opened MergeModel

  function StreamsOf(groups: seq<StreamGroup>): set<Uuid>
  {
    set i | 0 <= i < |groups| :: groups[i].stream
  }

  lemma StreamsOfStep(groups: seq<StreamGroup>, g: StreamGroup)
    ensures StreamsOf(groups + [g]) == StreamsOf(groups) + {g.stream}
  {
    var longer := groups + [g];
    assert longer[|groups|] == g;
    assert forall i :: 0 <= i < |groups| ==> longer[i] == groups[i];
  }

  /** Every resolution names a stream the branch changed and carries a known value. */
  ghost predicate ResolutionsKnown(resolutions: Resolutions, groups: seq<StreamGroup>)
  {
    forall s :: s in resolutions ==> s in StreamsOf(groups) && resolutions[s] in {BRANCH, MAIN}
  }

  method ValidateResolutions(resolutions: Resolutions, groups: seq<StreamGroup>) returns (err: Option<MergeError>)
    ensures err.None? <==> ResolutionsKnown(resolutions, groups)
    ensures err.Some? ==> err.value == Wrap(UnknownResolution)
  {
    if |resolutions| == 0 {
      return None;
    }
    var touched: set<Uuid> := {};
    for i := 0 to |groups|
      invariant touched == StreamsOf(groups[..i])
    {
      touched := touched + {groups[i].stream};
    }
    assert groups[..|groups|] == groups;
    var keys := resolutions.Keys;
    while keys != {}
      invariant keys <= resolutions.Keys
      invariant forall s :: s in resolutions && s !in keys ==> s in touched && resolutions[s] in {BRANCH, MAIN}
    {
      var s :| s in keys;
      if s !in touched || (resolutions[s] != BRANCH && resolutions[s] != MAIN) {
        return Some(Wrap(UnknownResolution));
      }
      keys := keys - {s};
    }
    err := None;
  }

  /** Every decided conflict is decided in a way that conflict can honour. */
  ghost predicate ResolutionsSupported(conflicts: seq<Conflict>, resolutions: Resolutions)
  {
    forall c :: c in conflicts && c.stream in resolutions ==> resolutions[c.stream] in c.supported
  }

  method ValidateConflictResolutions(conflicts: seq<Conflict>, resolutions: Resolutions) returns (err: Option<MergeError>)
    ensures err.None? <==> ResolutionsSupported(conflicts, resolutions)
    ensures err.Some? ==> err.value == Wrap(UnsupportedResolution)
  {
    for i := 0 to |conflicts|
      invariant ResolutionsSupported(conflicts[..i], resolutions)
    {
      var c := conflicts[i];
      if c.stream in resolutions && resolutions[c.stream] !in c.supported {
        return Some(Wrap(UnsupportedResolution));
      }
    }
    assert conflicts[..|conflicts|] == conflicts;
    err := None;
  }

  function Undecided(resolutions: Resolutions): Conflict -> bool
  {
    (c: Conflict) => c.stream !in resolutions
  }

  /** How many conflicts have no resolution. */
  method UnresolvedConflicts(conflicts: seq<Conflict>, resolutions: Resolutions) returns (unresolved: nat)
    ensures unresolved == |Filter(Undecided(resolutions), conflicts)|
    ensures unresolved == 0 <==> forall c :: c in conflicts ==> c.stream in resolutions
  {
    unresolved := 0;
    for i := 0 to |conflicts|
      invariant unresolved == |Filter(Undecided(resolutions), conflicts[..i])|
    {
      assert conflicts[..i + 1][..i] == conflicts[..i];
      if conflicts[i].stream !in resolutions {
        unresolved := unresolved + 1;
      }
    }
    assert conflicts[..|conflicts|] == conflicts;
    FilterMembers(Undecided(resolutions), conflicts);
    if unresolved == 0 {
      assert Filter(Undecided(resolutions), conflicts) == [];
    } else {
      assert Filter(Undecided(resolutions), conflicts)[0] in conflicts;
    }
  }

  // --- Dangling references ---

  /** The rows of main the check is about: which persons exist and which child links point at them. */
  datatype Rows = Rows(persons: set<Uuid>, links: set<(Uuid, Uuid)>)

  const NO_ROWS := Rows({}, {})

  ghost predicate NoDanglingLink(rows: Rows)
  {
    forall l :: l in rows.links ==> l.1 in rows.persons
  }

  /** How one event changes those rows. A child link is saved whether or not the person exists. */
  function Project(rows: Rows, e: StoredEvent): Rows
  {
    match e.event
    case Created(Person, _) => rows.(persons := rows.persons + {e.stream})
    case Deleted(Person) => rows.(persons := rows.persons - {e.stream})
    case Deleted(Family) => rows.(links := set l | l in rows.links && l.0 != e.stream)
    case ChildLinked(p) => rows.(links := rows.links + {(e.stream, p)})
    case ChildUnlinked(p) => rows.(links := rows.links - {(e.stream, p)})
    case _ => rows
  }

  function OnMain(): StoredEvent -> bool
  {
    (e: StoredEvent) => e.branch == NIL
  }

  /** Main's rows once the whole log is projected. */
  function MainRows(log: Log): Rows
  {
    Fold(Project, NO_ROWS, Filter(OnMain(), log))
  }

  /** The event at `i` creates the person on main, and nothing later on main deletes them. */
  ghost predicate CreatedLast(log: Log, i: nat, person: Uuid)
    requires i < |log|
  {
    && log[i].branch == NIL && CreatesPerson(log[i], person)
    && forall j :: i < j < |log| && log[j].branch == NIL && log[j].stream == person ==> log[j].event != Deleted(Person)
  }

  /** The event at `i` links the child to the family on main, and nothing later on main unlinks them or deletes the family. */
  ghost predicate LinkedLast(log: Log, i: nat, family: Uuid, person: Uuid)
    requires i < |log|
  {
    && log[i].branch == NIL && log[i].stream == family && log[i].event == ChildLinked(person)
    && forall j :: i < j < |log| && log[j].branch == NIL && log[j].stream == family ==>
         log[j].event != ChildUnlinked(person) && log[j].event != Deleted(Family)
  }

  lemma MainRowsStep(log: Log)
    requires log != []
    ensures
      var before, last := MainRows(log[..|log| - 1]), log[|log| - 1];
      MainRows(log) == if last.branch == NIL then Project(before, last) else before
  {
  }

  lemma CreatedLastStep(log: Log, i: nat, person: Uuid)
    requires i < |log| - 1
    ensures var last := log[|log| - 1];
      CreatedLast(log, i, person) <==> CreatedLast(log[..|log| - 1], i, person) && !(last.branch == NIL && last.stream == person && last.event == Deleted(Person))
  {
    assert forall j :: 0 <= j < |log| - 1 ==> log[..|log| - 1][j] == log[j];
  }

  lemma NoMainRows()
    ensures MainRows([]) == NO_ROWS
  {
  }

  lemma CreatedAtEnd(log: Log, person: Uuid)
    requires log != []
    ensures var last := log[|log| - 1];
      && (CreatedLast(log, |log| - 1, person) <==> last.branch == NIL && CreatesPerson(last, person))
      && (CreatesPerson(last, person) ==> last.event.Created? && last.event.kind == Person && last.stream == person)
      && (last.event.Created? && last.event.kind == Person && last.stream == person ==> CreatesPerson(last, person))
  {
  }

  lemma LinkedAtEnd(log: Log, family: Uuid, person: Uuid)
    requires log != []
    ensures var last := log[|log| - 1];
      LinkedLast(log, |log| - 1, family, person)
      <==> (last.branch == NIL && last.stream == family && last.event == ChildLinked(person))
  {
  }

  /** Main has exactly the persons whose creation on main no later deletion undid. */
  lemma {:induction false} PersonRowIff(log: Log, person: Uuid)
    ensures person in MainRows(log).persons <==> exists i :: 0 <= i < |log| && CreatedLast(log, i, person)
  {
    hide MainRows, CreatedLast, CreatesPerson;
    if log == [] {
      NoMainRows();
    } else {
      var n := |log| - 1;
      PersonRowIff(log[..n], person);
      MainRowsStep(log);
      CreatedAtEnd(log, person);
      if i :| 0 <= i < |log| && CreatedLast(log, i, person) {
        if i < n {
          CreatedLastStep(log, i, person);
        }
      }
      if i :| 0 <= i < n && CreatedLast(log[..n], i, person) {
        CreatedLastStep(log, i, person);
      }
    }
  }

  lemma LinkedLastStep(log: Log, i: nat, family: Uuid, person: Uuid)
    requires i < |log| - 1
    ensures var last := log[|log| - 1];
      LinkedLast(log, i, family, person) <==> LinkedLast(log[..|log| - 1], i, family, person) && !(last.branch == NIL && last.stream == family && (last.event == ChildUnlinked(person) || last.event == Deleted(Family)))
  {
    assert forall j :: 0 <= j < |log| - 1 ==> log[..|log| - 1][j] == log[j];
  }

  /** And exactly the child links nothing later undid. */
  lemma {:induction false} LinkRowIff(log: Log, family: Uuid, person: Uuid)
    ensures (family, person) in MainRows(log).links <==> exists i :: 0 <= i < |log| && LinkedLast(log, i, family, person)
  {
    hide MainRows, LinkedLast;
    if log == [] {
      NoMainRows();
    } else {
      var n := |log| - 1;
      LinkRowIff(log[..n], family, person);
      MainRowsStep(log);
      LinkedAtEnd(log, family, person);
      if i :| 0 <= i < |log| && LinkedLast(log, i, family, person) {
        if i < n {
          LinkedLastStep(log, i, family, person);
        }
      }
      if i :| 0 <= i < n && LinkedLast(log[..n], i, family, person) {
        LinkedLastStep(log, i, family, person);
      }
    }
  }

  lemma MainRowsSince(log: Log, from: nat, to: nat)
    requires from <= to <= |log|
    ensures MainRows(log[..to]) == Fold(Project, MainRows(log[..from]), Filter(OnMain(), log[from..to]))
  {
    assert log[..to] == log[..from] + log[from..to];
    FilterConcat(OnMain(), log[..from], log[from..to]);
    FoldConcat(Project, NO_ROWS, Filter(OnMain(), log[..from]), Filter(OnMain(), log[from..to]));
  }

  /** Main's read model had the person, at a moment when it showed at least the first `from` events of the log. */
  ghost predicate SeenOnMain(person: Uuid, from: nat, log: Log)
  {
    exists k :: from <= k <= |log| && person in MainRows(log[..k]).persons
  }

  /** Main's read model lacked the person at such a moment. */
  ghost predicate MissedOnMain(person: Uuid, from: nat, log: Log)
  {
    exists k :: from <= k <= |log| && person !in MainRows(log[..k]).persons
  }

  lemma SeenOnMainLater(person: Uuid, from: nat, earlier: nat, before: Log, after: Log)
    requires before <= after && earlier <= from
    ensures SeenOnMain(person, from, before) ==> SeenOnMain(person, earlier, after)
    ensures MissedOnMain(person, from, before) ==> MissedOnMain(person, earlier, after)
  {
    forall k | from <= k <= |before| ensures after[..k] == before[..k] {
    }
  }

  predicate IsLink(e: StoredEvent, person: Uuid)
  {
    e.event == ChildLinked(person)
  }

  /** The replay will write a child link to this person, and touches the person nowhere. */
  ghost predicate LinksAbroad(groups: seq<StreamGroup>, resolutions: Resolutions, person: Uuid)
  {
    var active := ActiveGroups(groups, resolutions);
    person !in StreamsOf(active) && exists e :: e in Flatten(active) && IsLink(e, person)
  }

  /** Every child link the replay will write names a person seen on main, or one the replay itself touches. */
  ghost predicate LinksSeen(groups: seq<StreamGroup>, resolutions: Resolutions, from: nat, log: Log)
  {
    forall person :: LinksAbroad(groups, resolutions, person) ==> SeenOnMain(person, from, log)
  }

  lemma LinksSeenLater(groups: seq<StreamGroup>, resolutions: Resolutions, from: nat, earlier: nat, before: Log, after: Log)
    requires LinksSeen(groups, resolutions, from, before) && before <= after && earlier <= from
    ensures LinksSeen(groups, resolutions, earlier, after)
  {
    hide LinksAbroad, SeenOnMain;
    forall person | LinksAbroad(groups, resolutions, person) ensures SeenOnMain(person, earlier, after) {
      SeenOnMainLater(person, from, earlier, before, after);
    }
  }

  lemma ActiveMember(groups: seq<StreamGroup>, resolutions: Resolutions, i: nat, e: StoredEvent)
    requires i < |groups| && !KeepsMain(resolutions, groups[i].stream) && e in groups[i].events
    ensures e in Flatten(ActiveGroups(groups, resolutions))
  {
    var active := ActiveGroups(groups, resolutions);
    FilterMembers(Replayed(resolutions), groups);
    assert groups[i] in active;
    var k :| 0 <= k < |active| && active[k] == groups[i];
    FlattenMembers(active, e);
  }

  predicate CreatesPerson(e: StoredEvent, person: Uuid)
  {
    e.stream == person && e.event.Created? && e.event.kind == Person
  }

  /** Where the persons and the links after a projection come from, when no event deletes a person. */
  lemma {:induction false} ReplayBounds(rows: Rows, events: Log)
    requires forall e :: e in events ==> e.event != Deleted(Person)
    ensures var after := Fold(Project, rows, events);
      && rows.persons <= after.persons
      && (forall e, p :: e in events && CreatesPerson(e, p) ==> p in after.persons)
      && (forall p :: p in after.persons ==> p in rows.persons || exists e :: e in events && CreatesPerson(e, p))
      && (forall l :: l in after.links ==> l in rows.links || exists e :: e in events && IsLink(e, l.1))
  {
    if events != [] {
      var shorter, last := events[..|events| - 1], events[|events| - 1];
      assert events == shorter + [last];
      ReplayBounds(rows, shorter);
      var before, after := Fold(Project, rows, shorter), Fold(Project, rows, events);
      assert last in events;
      forall p | p in after.persons ensures p in rows.persons || exists e :: e in events && CreatesPerson(e, p) {
        assert p in before.persons || CreatesPerson(last, p);
      }
      forall l | l in after.links ensures l in rows.links || exists e :: e in events && IsLink(e, l.1) {
        assert l in before.links || IsLink(last, l.1);
      }
    }
  }

  /** The group's stream exists on main, or creates its person, or is no person any replayed link names. */
  ghost predicate CreatesIfLinked(g: StreamGroup, rows: Rows, events: Log)
  {
    || g.stream in rows.persons
    || (exists e :: e in g.events && CreatesPerson(e, g.stream))
    || (forall e :: e in events ==> !IsLink(e, g.stream))
  }

  /**
   * Events that delete no person and link only persons who are there, or whom one of them creates,
   * leave no child link pointing at a missing person.
   */
  lemma ReplayLeavesNoDanglingLink(rows: Rows, events: Log)
    requires NoDanglingLink(rows)
    requires forall e :: e in events ==> e.event != Deleted(Person)
    requires forall e, p :: e in events && IsLink(e, p) ==>
      p in rows.persons || exists c :: c in events && CreatesPerson(c, p)
    ensures NoDanglingLink(Fold(Project, rows, events))
  {
    ReplayBounds(rows, events);
  }
}
