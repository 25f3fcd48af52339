/**
 * Branch-scoped commands: the copy-on-write overlay of the read model, the guard that keeps main-only
 * events off branches, and the isolation the two together give.
 */
module BranchScope {
  import opened Base
  import opened EventLog

  // --- The overlay ---

  /** The tables of the read model; `Records` stands for those of citations, media, attributes, associations and the like. */
  datatype Table =
    | Persons | PersonNames | PersonExternalIds | Families | FamilyExternalIds | FamilyChildren | PedigreeEdges
    | Sources | Registry | Records(tag: nat)

  /** The tables whose cells are kept per branch; in the others a row has one cell, main's. */
  predicate BranchKeyed(t: Table)
  {
    t in {Persons, PersonNames, PersonExternalIds, Families, FamilyExternalIds, FamilyChildren, PedigreeEdges}
  }

  /** A row of a table; a bucket of rows under one parent counts as one row. */
  datatype Key = Key(table: Table, id: Uuid)

  /** A present cell without a row is a tombstone. */
  type Cell = Option<string>

  type Rows = map<(Uuid, Key), Cell>

  type View = map<Key, string>

  /** What a branch sees of a row: its own cell if it has one, otherwise main's. */
  function Resolve(rows: Rows, branch: Uuid, k: Key): Cell
  {
    if (branch, k) in rows then rows[(branch, k)]
    else if branch != NIL && (NIL, k) in rows then rows[(NIL, k)]
    else None
  }

  /** `view` is all that `branch` sees. */
  ghost predicate Sees(rows: Rows, branch: Uuid, view: View)
  {
    forall k {:trigger Resolve(rows, branch, k)} {:trigger k in view} ::
      Resolve(rows, branch, k) == if k in view then Some(view[k]) else None
  }

  /** Main's rows first, then the branch's own cells over them; a tombstone takes a row away. */
  method ResolveAllRows(rows: Rows, branch: Uuid) returns (view: View)
    ensures Sees(rows, branch, view)
  {
    view := map[];
    var todo := rows.Keys;
    while todo != {}
      invariant todo <= rows.Keys
      invariant forall k :: k in view ==> (NIL, k) in rows.Keys - todo && rows[(NIL, k)] == Some(view[k])
      invariant forall k :: (NIL, k) in rows.Keys - todo && rows[(NIL, k)].Some? ==> k in view
    {
      var key :| key in todo;
      if key.0 == NIL && rows[key].Some? {
        assert key == (NIL, key.1);
        view := view[key.1 := rows[key].value];
      }
      todo := todo - {key};
    }
    if branch == NIL {
      return;
    }
    todo := rows.Keys;
    while todo != {}
      invariant todo <= rows.Keys
      invariant forall k :: (branch, k) in rows.Keys - todo ==> rows[(branch, k)] == if k in view then Some(view[k]) else None
      invariant forall k :: (branch, k) !in rows.Keys - todo ==>
        (if (NIL, k) in rows then rows[(NIL, k)] else None) == if k in view then Some(view[k]) else None
    {
      var key :| key in todo;
      if key.0 == branch {
        assert key == (branch, key.1);
        if rows[key].None? {
          view := view - {key.1};
        } else {
          view := view[key.1 := rows[key].value];
        }
      }
      todo := todo - {key};
    }
  }

  datatype Op = Save(key: Key, row: string) | Remove(key: Key)

  /** Where a write made in a scope lands: a table that is not kept per branch knows main's cells only. */
  function Destination(t: Table, branch: Uuid): Uuid
  {
    if BranchKeyed(t) then branch else NIL
  }

  /** A write in a scope. Removing on main drops the cell; on a branch it leaves a tombstone. */
  function Write(rows: Rows, branch: Uuid, op: Op): Rows
  {
    var to := Destination(op.key.table, branch);
    match op
    case Save(k, row) => rows[(to, k) := Some(row)]
    case Remove(k) => if to == NIL then rows - {(to, k)} else rows[(to, k) := None]
  }

  /** Every one of the writes stays in the scope it is made in. */
  predicate StaysIn(ops: seq<Op>, branch: Uuid)
  {
    forall i :: 0 <= i < |ops| ==> branch == NIL || BranchKeyed(ops[i].key.table)
  }

  /** The same write on a plain copy. */
  function WriteCopy(view: View, op: Op): View
  {
    match op
    case Save(k, row) => view[k := row]
    case Remove(k) => view - {k}
  }

  function WriteAll(rows: Rows, branch: Uuid, ops: seq<Op>): Rows
  {
    if ops == [] then rows else Write(WriteAll(rows, branch, ops[..|ops| - 1]), branch, ops[|ops| - 1])
  }

  function WriteCopyAll(view: View, ops: seq<Op>): View
  {
    if ops == [] then view else WriteCopy(WriteCopyAll(view, ops[..|ops| - 1]), ops[|ops| - 1])
  }

  /** Nothing another branch or, for a branch's write, main can see has changed. */
  ghost predicate OthersKeep(rows: Rows, after: Rows, branch: Uuid)
  {
    forall c, k {:trigger Resolve(after, c, k)} :: c != branch ==> Resolve(after, c, k) == Resolve(rows, c, k)
  }

  /** The branch sees its own write as on a copy of its own. */
  lemma WriteSeen(rows: Rows, branch: Uuid, op: Op, view: View)
    requires Sees(rows, branch, view) && (branch == NIL || BranchKeyed(op.key.table))
    ensures Sees(Write(rows, branch, op), branch, WriteCopy(view, op))
  {
    var after := Write(rows, branch, op);
    forall k ensures Resolve(after, branch, k) == if k in WriteCopy(view, op) then Some(WriteCopy(view, op)[k]) else None {
      assert Resolve(rows, branch, k) == if k in view then Some(view[k]) else None;
    }
  }

  /** And nobody else sees it at all. */
  lemma WriteUnseen(rows: Rows, branch: Uuid, op: Op)
    requires branch != NIL && BranchKeyed(op.key.table)
    ensures OthersKeep(rows, Write(rows, branch, op), branch)
  {
  }

  /** A write to a table that is not kept per branch would change what main sees, wherever it is made. */
  lemma MainOnlyWriteSeen(rows: Rows, branch: Uuid, k: Key, row: string)
    requires !BranchKeyed(k.table)
    ensures Resolve(Write(rows, branch, Save(k, row)), NIL, k) == Some(row)
  {
  }

  lemma {:induction false} AllWritesSeen(rows: Rows, branch: Uuid, ops: seq<Op>, view: View)
    requires Sees(rows, branch, view) && StaysIn(ops, branch)
    ensures Sees(WriteAll(rows, branch, ops), branch, WriteCopyAll(view, ops))
  {
    if ops != [] {
      var n := |ops| - 1;
      AllWritesSeen(rows, branch, ops[..n], view);
      WriteSeen(WriteAll(rows, branch, ops[..n]), branch, ops[n], WriteCopyAll(view, ops[..n]));
    }
  }

  lemma {:induction false} AllWritesUnseen(rows: Rows, branch: Uuid, ops: seq<Op>)
    requires branch != NIL && StaysIn(ops, branch)
    ensures OthersKeep(rows, WriteAll(rows, branch, ops), branch)
  {
    if ops != [] {
      var n := |ops| - 1;
      AllWritesUnseen(rows, branch, ops[..n]);
      var mid := WriteAll(rows, branch, ops[..n]);
      WriteUnseen(mid, branch, ops[n]);
      forall c, k | c != branch ensures Resolve(WriteAll(rows, branch, ops), c, k) == Resolve(rows, c, k) {
        assert Resolve(mid, c, k) == Resolve(rows, c, k);
      }
    }
  }

  /** Purging a branch drops every cell of its own, so that it sees main again; main is never purged. */
  method PurgeBranch(rows: Rows, branch: Uuid) returns (after: Rows)
    ensures branch == NIL ==> after == rows
    ensures branch != NIL ==> forall k :: Resolve(after, branch, k) == Resolve(rows, NIL, k)
    ensures OthersKeep(rows, after, branch)
  {
    after := rows;
    if branch == NIL {
      return;
    }
    var todo := rows.Keys;
    while todo != {}
      invariant todo <= rows.Keys && after.Keys <= rows.Keys
      invariant forall key :: key in rows ==> (key in after <==> key.0 != branch || key in todo)
      invariant forall key :: key in after ==> after[key] == rows[key]
    {
      var key :| key in todo;
      if key.0 == branch {
        after := after - {key};
      }
      todo := todo - {key};
    }
    assert forall k :: (branch, k) !in after by {
      assert forall k: Key :: (branch, k).0 == branch;
    }
    forall c, k | c != branch ensures Resolve(after, c, k) == Resolve(rows, c, k) {
      assert (c, k).0 == c && (NIL, k).0 == NIL;
    }
  }

  // --- The guard ---

  /**
   * The tables an event's projection may write in a scope. Deleting a person cascades to further tables,
   * but on main alone. `Other` stands for every event type not told apart here, a person merge among them.
   */
  predicate Writes(e: Event, branch: Uuid, t: Table)
  {
    match e
    case Created(Person, _) => t == Persons
    case Updated(Person, _) => t == Persons
    case Deleted(Person) =>
      || t in {Persons, PersonNames, PersonExternalIds, PedigreeEdges}
      || (branch == NIL && (t == FamilyChildren || t.Records?))
    case Created(Family, _) => t == Families
    case Updated(Family, _) => t == Families
    case Deleted(Family) => t in {Families, FamilyExternalIds, FamilyChildren, PedigreeEdges}
    case Created(Source, _) => t == Sources
    case Updated(Source, _) => t == Sources
    case Deleted(Source) => t == Sources
    case ChildLinked(_) => t in {FamilyChildren, PedigreeEdges, Families}
    case ChildUnlinked(_) => t in {FamilyChildren, PedigreeEdges, Families}
    case NameAdded(_, _) => t in {PersonNames, Persons}
    case NameUpdated(_, _) => t in {PersonNames, Persons}
    case NameRemoved(_) => t in {PersonNames, Persons}
    case BranchCreated(_, _, _) => t == Registry
    case BranchDeleted => t == Registry
    case BranchMerged(_, _, _) => t == Registry
    case Other(_) => t != Registry
    case _ => t == Sources || t.Records?
  }

  /** The allowlist: the events a branch-scoped handler may append. */
  predicate BranchAware(e: Event)
  {
    match e
    case Created(kind, _) => kind == Person || kind == Family
    case Updated(kind, _) => kind == Person || kind == Family
    case Deleted(kind) => kind == Person || kind == Family
    case ChildLinked(_) => true
    case ChildUnlinked(_) => true
    case NameAdded(_, _) => true
    case NameUpdated(_, _) => true
    case NameRemoved(_) => true
    case _ => false
  }

  /** The allowlist holds exactly the events whose projections on a branch write nothing but branch-keyed tables. */
  lemma BranchAwareIff(e: Event)
    ensures BranchAware(e) <==> forall branch, t :: branch != NIL && Writes(e, branch, t) ==> BranchKeyed(t)
  {
    if !BranchAware(e) {
      var t := MainOnlyTable(e, 1);
    }
  }

  lemma MainOnlyTable(e: Event, branch: Uuid) returns (t: Table)
    requires branch != NIL && !BranchAware(e)
    ensures Writes(e, branch, t) && !BranchKeyed(t)
  {
    t := if Writes(e, branch, Registry) then Registry else Sources;
  }

  /** Branch lifecycle events are those that write the registry; the allowlist holds data events only. */
  lemma LifecycleWritesRegistry(e: Event, branch: Uuid)
    ensures IsLifecycle(e) <==> Writes(e, branch, Registry)
    ensures BranchAware(e) ==> !IsLifecycle(e)
  {
  }

  predicate AllBranchAware(events: seq<Event>)
  {
    forall e :: e in events ==> BranchAware(e)
  }

  /** The row writes a projection makes in a scope, given what that scope sees. */
  type Projection = (Uuid, View, Event) -> seq<Op>

  /** Each event's projection keeps to the tables that event writes. */
  ghost predicate KeepsToTables(project: Projection)
  {
    forall branch, view, e, i {:trigger project(branch, view, e)[i]} ::
      0 <= i < |project(branch, view, e)| ==> Writes(e, branch, project(branch, view, e)[i].key.table)
  }

  /** So an event on the allowlist writes nothing outside its scope. */
  lemma AwareStaysIn(project: Projection, branch: Uuid, view: View, e: Event)
    requires KeepsToTables(project) && (branch == NIL || BranchAware(e))
    ensures StaysIn(project(branch, view, e), branch)
  {
    BranchAwareIff(e);
  }

  /** Everything a command can change. */
  datatype World = World(log: Log, rows: Rows)

  /**
   * A command: its handler's scope, the stream, the events, the expected version. Projection errors
   * are ignored, so of each event's writes only the first `landed` reach the rows.
   */
  datatype Command = Command(scope: Scope, stream: Uuid, events: seq<Event>, expected: int, landed: seq<nat>, writer: nat)

  predicate Refuses(c: Command)
  {
    c.scope.branch != NIL && !AllBranchAware(c.events)
  }

  /** A command is refused exactly on a branch, and for an event that would write a table main alone has. */
  lemma RefusesIff(c: Command)
    ensures Refuses(c) <==> c.scope.branch != NIL && WritesMainOnly(c.events, c.scope.branch)
  {
    if i, t :| c.scope.branch != NIL && 0 <= i < |c.events| && Writes(c.events[i], c.scope.branch, t) && !BranchKeyed(t) {
      BranchAwareIff(c.events[i]);
      assert c.events[i] in c.events;
    }
    if c.scope.branch != NIL && !AllBranchAware(c.events) {
      var e :| e in c.events && !BranchAware(e);
      var i :| 0 <= i < |c.events| && c.events[i] == e;
      var t := MainOnlyTable(e, c.scope.branch);
      assert Writes(c.events[i], c.scope.branch, t);
    }
  }

  /** Some event writes, in this scope, a table that is not kept per branch. */
  ghost predicate WritesMainOnly(events: seq<Event>, branch: Uuid)
  {
    exists i, t :: 0 <= i < |events| && Writes(events[i], branch, t) && !BranchKeyed(t)
  }

  /** Creating a source, a branch lifecycle event or a person merge is refused on every branch. */
  lemma RefusedOnBranch(project: Projection, w: World, c: Command, e: Event)
    requires c.scope.branch != NIL && e in c.events
    requires e.Other? || IsLifecycle(e) || ((e.Created? || e.Updated? || e.Deleted?) && (e.kind == Source || e.kind.Misc?))
    ensures Execute(project, w, c) == w
  {
  }

  function Landed(c: Command, i: nat, ops: seq<Op>): seq<Op>
  {
    if i < |c.landed| && c.landed[i] < |ops| then ops[..c.landed[i]] else ops
  }

  /** The rows after the projections of the first `n` events, each made in the command's scope. */
  ghost function Projected(project: Projection, c: Command, rows: Rows, n: nat): Rows
    requires n <= |c.events|
  {
    if n == 0 then rows
    else
      var before := Projected(project, c, rows, n - 1);
      var branch := c.scope.branch;
      WriteAll(before, branch, Landed(c, n - 1, project(branch, SeenBy(before, branch), c.events[n - 1])))
  }

  /** The view of a branch, as a value. */
  ghost function SeenBy(rows: Rows, branch: Uuid): (view: View)
    ensures Sees(rows, branch, view)
  {
    var keys := set key | key in rows :: key.1;
    var view := map k | k in keys && Resolve(rows, branch, k).Some? :: Resolve(rows, branch, k).value;
    assert forall k :: Resolve(rows, branch, k).Some? ==> k in keys by {
      forall k | Resolve(rows, branch, k).Some? ensures k in keys {
        assert (branch, k) in rows || (NIL, k) in rows;
        assert (branch, k).1 == k && (NIL, k).1 == k;
      }
    }
    view
  }

  ghost function Execute(project: Projection, w: World, c: Command): World
  {
    if Refuses(c) then w
    else
      var appended := Append(w.log, c.stream, c.events, c.expected, c.scope, c.writer);
      if appended.None? then w else World(appended.value, Projected(project, c, w.rows, |c.events|))
  }

  // --- Isolation ---

  lemma {:induction false} ProjectedUnseen(project: Projection, c: Command, rows: Rows, n: nat)
    requires KeepsToTables(project) && c.scope.branch != NIL && !Refuses(c) && n <= |c.events|
    ensures OthersKeep(rows, Projected(project, c, rows, n), c.scope.branch)
  {
    if n > 0 {
      ProjectedUnseen(project, c, rows, n - 1);
      var before, e := Projected(project, c, rows, n - 1), c.events[n - 1];
      assert e in c.events;
      var branch := c.scope.branch;
      AwareStaysIn(project, branch, SeenBy(before, branch), e);
      AllWritesUnseen(before, branch, Landed(c, n - 1, project(branch, SeenBy(before, branch), e)));
      forall d, k | d != c.scope.branch ensures Resolve(Projected(project, c, rows, n), d, k) == Resolve(rows, d, k) {
        assert Resolve(before, d, k) == Resolve(rows, d, k);
      }
    }
  }

  /** An append on one branch adds nothing to any stream's history on another. */
  lemma AppendElsewhere(log: Log, c: Command, stream: Uuid, branch: Uuid)
    requires branch != c.scope.branch && Append(log, c.stream, c.events, c.expected, c.scope, c.writer).Some?
    ensures var after := Append(log, c.stream, c.events, c.expected, c.scope, c.writer).value;
      History(after, stream, branch) == History(log, stream, branch)
      && StreamVersion(after, stream, branch) == StreamVersion(log, stream, branch)
  {
    var version := CurrentVersion(log, c.stream, c.scope);
    var stored := Stored(c.stream, c.scope.branch, version, |log|, c.events, c.writer);
    FilterConcat(On(stream, branch), log, stored);
    FilterNone(On(stream, branch), stored);
    StoredOtherPair(log, c.stream, c.scope.branch, version, c.events, c.writer, stream, branch);
  }

  /** What someone working in scope `branch` can tell about the world. */
  ghost predicate SameFor(branch: Uuid, before: World, after: World)
  {
    && (forall s {:trigger History(after.log, s, branch)} ::
          History(after.log, s, branch) == History(before.log, s, branch)
          && StreamVersion(after.log, s, branch) == StreamVersion(before.log, s, branch))
    && (forall k {:trigger Resolve(after.rows, branch, k)} :: Resolve(after.rows, branch, k) == Resolve(before.rows, branch, k))
  }

  lemma ExecuteIsolated(project: Projection, w: World, c: Command, branch: Uuid)
    requires KeepsToTables(project) && c.scope.branch != NIL && c.scope.branch != branch
    ensures SameFor(branch, w, Execute(project, w, c))
  {
    var appended := Append(w.log, c.stream, c.events, c.expected, c.scope, c.writer);
    if !Refuses(c) && appended.Some? {
      ProjectedUnseen(project, c, w.rows, |c.events|);
      forall s
        ensures History(appended.value, s, branch) == History(w.log, s, branch)
        ensures StreamVersion(appended.value, s, branch) == StreamVersion(w.log, s, branch)
      {
        AppendElsewhere(w.log, c, s, branch);
      }
    }
  }

  ghost function Run(project: Projection, w: World, run: seq<Command>): World
  {
    if run == [] then w else Execute(project, Run(project, w, run[..|run| - 1]), run[|run| - 1])
  }

  /**
   * No run of branch-scoped commands changes main's streams or rows, nor any branch's that none of
   * them is scoped to, whatever their events, expected versions and projection failures. A write lands where
   * its table lets it, so this rests on the guard admitting no event that writes a table main alone has.
   */
  lemma {:induction false} RunIsolated(project: Projection, w: World, run: seq<Command>, branch: Uuid)
    requires KeepsToTables(project)
    requires forall i :: 0 <= i < |run| ==> run[i].scope.branch != NIL && run[i].scope.branch != branch
    ensures SameFor(branch, w, Run(project, w, run))
  {
    if run != [] {
      var n := |run| - 1;
      RunIsolated(project, w, run[..n], branch);
      ExecuteIsolated(project, Run(project, w, run[..n]), run[n], branch);
      SameForTransitive(branch, w, Run(project, w, run[..n]), Run(project, w, run));
    }
  }

  lemma SameForTransitive(branch: Uuid, a: World, b: World, c: World)
    requires SameFor(branch, a, b) && SameFor(branch, b, c)
    ensures SameFor(branch, a, c)
  {
    forall s ensures History(c.log, s, branch) == History(a.log, s, branch)
      ensures StreamVersion(c.log, s, branch) == StreamVersion(a.log, s, branch)
    {
      assert History(c.log, s, branch) == History(b.log, s, branch) == History(a.log, s, branch);
    }
    forall k ensures Resolve(c.rows, branch, k) == Resolve(a.rows, branch, k) {
      assert Resolve(c.rows, branch, k) == Resolve(b.rows, branch, k) == Resolve(a.rows, branch, k);
    }
  }

  /** A branch's own copy after the same events, had it one. */
  function OwnCopy(project: Projection, branch: Uuid, view: View, events: seq<Event>): View
  {
    if events == [] then view
    else
      var before := OwnCopy(project, branch, view, events[..|events| - 1]);
      WriteCopyAll(before, project(branch, before, events[|events| - 1]))
  }

  /**
   * The overlay refines a copy per branch: a command whose projections all land shows on its branch
   * exactly as it would on a private copy of what the branch saw before.
   */
  lemma {:induction false} OverlayIsOwnCopy(project: Projection, c: Command, rows: Rows, view: View, n: nat)
    requires KeepsToTables(project) && Sees(rows, c.scope.branch, view) && !Refuses(c) && c.landed == [] && n <= |c.events|
    ensures Sees(Projected(project, c, rows, n), c.scope.branch, OwnCopy(project, c.scope.branch, view, c.events[..n]))
  {
    if n > 0 {
      OverlayIsOwnCopy(project, c, rows, view, n - 1);
      var before, e := Projected(project, c, rows, n - 1), c.events[n - 1];
      var branch := c.scope.branch;
      var copy := OwnCopy(project, branch, view, c.events[..n - 1]);
      assert e in c.events && c.events[..n][..n - 1] == c.events[..n - 1];
      OneView(before, branch, copy, SeenBy(before, branch));
      AwareStaysIn(project, branch, copy, e);
      AllWritesSeen(before, branch, project(branch, copy, e), copy);
    }
  }

  lemma OneView(rows: Rows, branch: Uuid, a: View, b: View)
    requires Sees(rows, branch, a) && Sees(rows, branch, b)
    ensures a == b
  {
    forall k ensures k in a <==> k in b
      ensures k in a ==> a[k] == b[k]
    {
      assert Resolve(rows, branch, k) == if k in a then Some(a[k]) else None;
    }
  }

  /** What a command does, and that nobody outside a branch can tell that it was run there. */
  lemma RunsAs(project: Projection, w: World, c: Command)
    ensures Refuses(c) <==> c.scope.branch != NIL && WritesMainOnly(c.events, c.scope.branch)
    ensures
      var appended := Append(w.log, c.stream, c.events, c.expected, c.scope, c.writer);
      Execute(project, w, c)
      == if Refuses(c) || appended.None? then w else World(appended.value, Projected(project, c, w.rows, |c.events|))
    ensures c.scope.branch != NIL && KeepsToTables(project) ==>
      forall branch :: branch != c.scope.branch ==> SameFor(branch, w, Execute(project, w, c))
  {
    RefusesIff(c);
    if c.scope.branch != NIL && KeepsToTables(project) {
      forall branch | branch != c.scope.branch ensures SameFor(branch, w, Execute(project, w, c)) {
        ExecuteIsolated(project, w, c, branch);
      }
    }
  }

  // --- The handler ---

  class Handler {
    const store: EventStore
    const scope: Scope
    const project: Projection
    var rows: Rows

    constructor (store: EventStore, scope: Scope, project: Projection, rows: Rows)
      ensures this.store == store && this.scope == scope && this.project == project && this.rows == rows
    {
      this.store, this.scope, this.project, this.rows := store, scope, project, rows;
    }

    ghost function Seen(): World
      reads this, store
    {
      World(store.events, rows)
    }

    /**
     * Appends and projects. On a branch, one event that writes a table main alone has refuses the whole
     * command before anything is written; projection errors are ignored.
     */
    method Run(stream: Uuid, events: seq<Event>, expected: int, writer: nat) returns (ok: bool, version: int, ghost c: Command)
      requires store.Valid()
      modifies this, store
      ensures store.Valid() && c == Command(scope, stream, events, expected, c.landed, writer)
      ensures Seen() == Execute(project, old(Seen()), c)
      ensures scope.branch != NIL && WritesMainOnly(events, scope.branch) ==> !ok && Seen() == old(Seen())
      ensures scope.branch != NIL && KeepsToTables(project) ==>
        forall branch :: branch != scope.branch ==> SameFor(branch, old(Seen()), Seen())
      ensures ok ==> scope.branch == NIL || !WritesMainOnly(events, scope.branch)
      ensures ok ==> Append(old(store.events), stream, events, expected, scope, writer).Some?
      ensures !ok && (scope.branch == NIL || !WritesMainOnly(events, scope.branch)) ==>
        Append(old(store.events), stream, events, expected, scope, writer).None? && Seen() == old(Seen())
      ensures ok ==> version == (if expected < 0 then 0 else expected) + |events|
    {
      hide CurrentVersion, Stored, ValidLog, Indexed, SeenBy, WriteAll, Landed, SameFor, Execute, KeepsToTables, WritesMainOnly;
      var landed: seq<nat> := *;
      c := Command(scope, stream, events, expected, landed, writer);
      RunsAs(project, Seen(), c);
      ok, version := false, 0;
      if scope.branch != NIL {
        for i := 0 to |events|
          invariant AllBranchAware(events[..i])
        {
          if !BranchAware(events[i]) {
            assert events[i] in events;
            return;
          }
          assert events[..i + 1] == events[..i] + [events[i]];
        }
        assert events[..|events|] == events;
      }
      ok := store.AppendEvents(stream, events, expected, scope, writer);
      if !ok {
        return;
      }
      version := if expected < 0 then 0 else expected;
      ghost var before := rows;
      for i := 0 to |events|
        invariant version == (if expected < 0 then 0 else expected) + i
        invariant rows == Projected(project, c, before, i)
        invariant store.Valid() && store.events == Append(old(store.events), stream, events, expected, scope, writer).value
      {
        version := version + 1;
        ProjectOne(events[i], i, landed, c);
      }
    }

    /** One projection, of whose writes perhaps only some land. */
    method ProjectOne(e: Event, i: nat, landed: seq<nat>, ghost c: Command)
      requires c.scope == scope && c.landed == landed && i < |c.events| && c.events[i] == e
      modifies this`rows
      ensures rows == WriteAll(old(rows), scope.branch,
                Landed(c, i, project(scope.branch, SeenBy(old(rows), scope.branch), e)))
    {
      var branch := scope.branch;
      var view := ResolveAllRows(rows, branch);
      OneView(rows, branch, view, SeenBy(rows, branch));
      var ops := project(branch, view, e);
      if i < |landed| && landed[i] < |ops| {
        ops := ops[..landed[i]];
      }
      ghost var before := rows;
      for j := 0 to |ops|
        invariant rows == WriteAll(before, branch, ops[..j])
      {
        assert ops[..j + 1][..j] == ops[..j];
        rows := Write(rows, branch, ops[j]);
      }
      assert ops[..|ops|] == ops;
    }
  }
}
