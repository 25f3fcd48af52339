/**
 * A person's names and their primary flag, under any interleaving of the commands that change them.
 *
 * A command reads the person row's version, reads the names, builds its events, appends them at that
 * version, and projects them one by one; between any two of these operations other commands run. Each
 * projection of one event is a single step that succeeds.
 */
module PrimaryNames {
  import opened Base
  import opened EventLog
  import opened BranchQueries
  import opened Conflicts

  type Names = map<Uuid, NameFields>

  /** How one event of the person's stream changes the name rows. */
  function Project(names: Names, e: Event): Names
  {
    match e
    case NameAdded(id, name) => names[id := name]
    case NameUpdated(id, name) => names[id := name]
    case NameRemoved(id) => names - {id}
    case _ => names
  }

  function ProjectAll(names: Names, events: seq<Event>): Names
  {
    if events == [] then names else Project(ProjectAll(names, events[..|events| - 1]), events[|events| - 1])
  }

  /** The rows after the first `k` events of the stream. */
  function RowsAt(log: seq<Event>, k: nat): Names
    requires k <= |log|
  {
    ProjectAll(map[], log[..k])
  }

  ghost predicate AtMostOnePrimary(names: Names)
  {
    forall a, b :: a in names && b in names && names[a].primary && names[b].primary ==> a == b
  }

  ghost predicate OnePrimaryUnlessEmpty(names: Names)
  {
    names != map[] ==> exists a :: a in names && names[a].primary
  }

  // --- What a command appends ---

  datatype Command =
    | Add(id: Uuid, name: NameFields)
    | Update(id: Uuid, text: Option<string>, primary: Option<bool>)
    | Delete(id: Uuid)
    | Touch(kind: Kind)

  predicate ClearsPrimary(c: Command)
  {
    c.Update? && c.primary == Some(false)
  }

  /** The event that demotes a primary name other than `except`, when there is one. */
  ghost predicate Demotion(names: Names, except: Option<Uuid>, events: seq<Event>)
  {
    if events == [] then forall a :: a in names && names[a].primary ==> except == Some(a)
    else exists a :: a in names && names[a].primary && except != Some(a) && events == [NameUpdated(a, names[a].(primary := false))]
  }

  function Changed(existing: NameFields, c: Command): NameFields
    requires c.Update?
  {
    NameFields(if c.text.Some? then c.text.value else existing.text,
               if c.primary.Some? then c.primary.value else existing.primary)
  }

  /** A demotion where the change promotes, and then the change itself. */
  ghost predicate DemoteThen(names: Names, except: Option<Uuid>, promotes: bool, e: Event, events: seq<Event>)
  {
    && events != [] && events[|events| - 1] == e
    && if promotes then Demotion(names, except, events[..|events| - 1]) else |events| == 1
  }

  /** The events a command builds from the name it looked up and the names it read. */
  ghost predicate Builds(c: Command, existing: Option<NameFields>, names: Names, events: seq<Event>)
  {
    match c
    case Add(id, name) =>
      var primary := name.primary || names == map[];
      DemoteThen(names, None, primary, NameAdded(id, name.(primary := primary)), events)
    case Update(id, _, _) =>
      existing.Some?
      && var changed := Changed(existing.value, c);
      DemoteThen(names, Some(id), changed.primary && !existing.value.primary, NameUpdated(id, changed), events)
    case Delete(id) => id in names && |names| > 1 && !names[id].primary && events == [NameRemoved(id)]
    case Touch(kind) => events == [Other(kind)]
  }

  /** The loop that looks for the primary to demote. */
  method DemotePrimary(rows: seq<(Uuid, NameFields)>, except: Option<Uuid>, ghost names: Names) returns (events: seq<Event>)
    requires forall i :: 0 <= i < |rows| ==> rows[i].0 in names && names[rows[i].0] == rows[i].1
    requires forall a :: a in names ==> exists i :: 0 <= i < |rows| && rows[i].0 == a
    ensures Demotion(names, except, events)
  {
    events := [];
    for i := 0 to |rows|
      invariant events == [] && forall j :: 0 <= j < i ==> !rows[j].1.primary || except == Some(rows[j].0)
    {
      if rows[i].1.primary && except != Some(rows[i].0) {
        events := [NameUpdated(rows[i].0, rows[i].1.(primary := false))];
        return;
      }
    }
  }

  /**
   * Told by the rows alone: the name has this text and flag now. Every other name keeps its text, and its
   * flag too unless the name takes the flag over; if it does, no other primary is left where there was one.
   */
  ghost predicate OnlyNameChanged(names: Names, after: Names, id: Uuid, text: string, primary: bool, takesOver: bool)
  {
    && after.Keys == names.Keys + {id} && after[id] == NameFields(text, primary)
    && (forall a :: a in names && a != id ==>
          && after[a].text == names[a].text
          && (after[a].primary == names[a].primary || (takesOver && names[a].primary)))
    && (takesOver && AtMostOnePrimary(names) ==> forall a :: a in names && a != id ==> !after[a].primary)
  }

  /** What an update asks of the name: the given text and flag, and what it had where none is given. */
  ghost predicate UpdateAsked(c: Command, existing: NameFields, names: Names, after: Names)
    requires c.Update?
  {
    && c.id in after
    && after[c.id].text == (match c.text case Some(text) => text case None => existing.text)
    && after[c.id].primary == (match c.primary case Some(primary) => primary case None => existing.primary)
    && var takesOver := after[c.id].primary && !existing.primary;
       OnlyNameChanged(names, after, c.id, after[c.id].text, after[c.id].primary, takesOver)
  }

  method AddName(id: Uuid, name: NameFields, rows: seq<(Uuid, NameFields)>, ghost names: Names) returns (events: seq<Event>)
    requires forall i :: 0 <= i < |rows| ==> rows[i].0 in names && names[rows[i].0] == rows[i].1
    requires forall a :: a in names ==> exists i :: 0 <= i < |rows| && rows[i].0 == a
    ensures Builds(Add(id, name), None, names, events)
    ensures var primary := name.primary || names == map[];
      OnlyNameChanged(names, ProjectAll(names, events), id, name.text, primary, primary)
  {
    var added := name;
    if |rows| == 0 {
      added := added.(primary := true);
    }
    assert |rows| == 0 <==> names == map[] by {
      if |rows| > 0 {
        assert rows[0].0 in names;
      }
    }
    events := [];
    if added.primary {
      events := DemotePrimary(rows, None, names);
    }
    ChangeRows(names, None, added.primary, NameAdded(id, added), events);
    events := events + [NameAdded(id, added)];
  }

  method BuildNameUpdateEvents(id: Uuid, text: Option<string>, primary: Option<bool>, existing: NameFields,
                               rows: seq<(Uuid, NameFields)>, ghost names: Names) returns (events: seq<Event>)
    requires forall i :: 0 <= i < |rows| ==> rows[i].0 in names && names[rows[i].0] == rows[i].1
    requires forall a :: a in names ==> exists i :: 0 <= i < |rows| && rows[i].0 == a
    ensures Builds(Update(id, text, primary), Some(existing), names, events)
    ensures UpdateAsked(Update(id, text, primary), existing, names, ProjectAll(names, events))
  {
    var pn := existing;
    if text.Some? {
      pn := pn.(text := text.value);
    }
    if primary.Some? {
      pn := pn.(primary := primary.value);
    }
    events := [];
    if pn.primary && !existing.primary {
      events := DemotePrimary(rows, Some(id), names);
    }
    assert pn == Changed(existing, Update(id, text, primary));
    ChangeRows(names, Some(id), pn.primary && !existing.primary, NameUpdated(id, pn), events);
    events := events + [NameUpdated(id, pn)];
  }

  datatype DeleteError = NameNotFound | CannotDeleteLast | CannotDeletePrimary

  method DeleteName(id: Uuid, rows: seq<(Uuid, NameFields)>, ghost names: Names)
    returns (err: Option<DeleteError>, events: seq<Event>)
    requires forall i :: 0 <= i < |rows| ==> rows[i].0 in names && names[rows[i].0] == rows[i].1
    requires forall a :: a in names ==> exists i :: 0 <= i < |rows| && rows[i].0 == a
    requires |rows| == |names|
    ensures err == Some(NameNotFound) <==> id !in names
    ensures err == Some(CannotDeleteLast) <==> id in names && names.Keys == {id}
    ensures err == Some(CannotDeletePrimary) <==> id in names && names.Keys != {id} && names[id].primary
    ensures err.None? ==> Builds(Delete(id), None, names, events)
    ensures err.None? ==> ProjectAll(names, events) == names - {id} && ProjectAll(names, events) != map[]
  {
    var i := 0;
    while i < |rows| && rows[i].0 != id
      invariant 0 <= i <= |rows| && forall j :: 0 <= j < i ==> rows[j].0 != id
    {
      i := i + 1;
    }
    if i == |rows| {
      return Some(NameNotFound), [];
    }
    OnlyKey(names, id);
    if |rows| <= 1 {
      return Some(CannotDeleteLast), [];
    }
    if rows[i].1.primary {
      return Some(CannotDeletePrimary), [];
    }
    err, events := None, [NameRemoved(id)];
    ProjectTwo(names, events[0], events[0]);
    RemainsNamed(names, id);
  }

  lemma OnlyKey(names: Names, id: Uuid)
    requires id in names
    ensures |names| <= 1 <==> names.Keys == {id}
  {
    assert |names| == |names.Keys|;
    if names.Keys != {id} {
      var other :| other in names.Keys && other != id;
      assert |{id, other}| == 2 && {id, other} <= names.Keys;
      SubsetSize({id, other}, names.Keys);
    }
  }

  lemma SubsetSize(a: set<Uuid>, b: set<Uuid>)
    requires a <= b
    ensures |a| <= |b|
  {
    assert b == a + (b - a);
  }

  /** A demotion, in rows: no text changes, and at most a primary name other than the excepted one loses its flag. */
  lemma DemotionRows(names: Names, except: Option<Uuid>, events: seq<Event>)
    requires Demotion(names, except, events)
    ensures ProjectAll(names, events).Keys == names.Keys
    ensures forall a :: a in names ==> ProjectAll(names, events)[a].text == names[a].text
    ensures forall a :: a in names ==> ProjectAll(names, events)[a].primary == names[a].primary || names[a].primary
    ensures AtMostOnePrimary(names) ==> forall a :: a in names && ProjectAll(names, events)[a].primary ==> except == Some(a)
  {
    if events != [] {
      var a :| a in names && names[a].primary && except != Some(a) && events == [NameUpdated(a, names[a].(primary := false))];
      ProjectTwo(names, events[0], events[0]);
    }
  }

  /** The rows after a change and the demotion before it. */
  lemma ChangeRows(names: Names, except: Option<Uuid>, promotes: bool, e: Event, before: seq<Event>)
    requires if promotes then Demotion(names, except, before) else before == []
    requires e.NameAdded? || e.NameUpdated?
    requires except == None || except == Some(e.nameId)
    ensures OnlyNameChanged(names, ProjectAll(names, before + [e]), e.nameId, e.name.text, e.name.primary, promotes)
  {
    assert (before + [e])[..|before|] == before;
    if promotes {
      DemotionRows(names, except, before);
    }
  }

  // --- The interleaving machine ---

  /** Where one command stands. The version and the names it read may be out of date by now. */
  datatype Task =
    | HasVersion(cmd: Command, version: nat)
    | HasName(cmd: Command, version: nat, existing: Option<NameFields>)
    | HasEvents(cmd: Command, version: nat, existing: Option<NameFields>, seen: Names, events: seq<Event>)
    | Projecting(next: nat, end: nat)
    | Finished

  /** The person's stream, the person row's version, the name rows, the commands, and the name ids ever generated. */
  datatype State = State(log: seq<Event>, version: nat, names: Names, tasks: map<nat, Task>, ids: set<Uuid>)

  const INIT := State([], 0, map[], map[], {})

  datatype Step =
    | ReadsVersion(p: nat, cmd: Command)
    | ReadsName(p: nat)
    | ReadsNames(p: nat, events: seq<Event>)
    | Appends(p: nat)
    | ProjectsOne(p: nat)

  function To(s: State, p: nat, t: Task): State
  {
    s.(tasks := s.tasks[p := t])
  }

  /** One operation of one command; a new name's id is freshly generated. */
  ghost function Next(s: State, step: Step): State
  {
    match step
    case ReadsVersion(p, cmd) =>
      if p in s.tasks || (cmd.Add? && cmd.id in s.ids) then s
      else To(s.(ids := if cmd.Add? then s.ids + {cmd.id} else s.ids), p, HasVersion(cmd, s.version))
    case ReadsName(p) =>
      if p !in s.tasks || !s.tasks[p].HasVersion? then s
      else
        var t := s.tasks[p];
        if t.cmd.Update? && t.cmd.id !in s.names then To(s, p, Finished)
        else To(s, p, HasName(t.cmd, t.version, if t.cmd.Update? then Some(s.names[t.cmd.id]) else None))
    case ReadsNames(p, events) =>
      if p !in s.tasks || !s.tasks[p].HasName? then s
      else
        var t := s.tasks[p];
        if Builds(t.cmd, t.existing, s.names, events) then To(s, p, HasEvents(t.cmd, t.version, t.existing, s.names, events))
        else s
    case Appends(p) =>
      if p !in s.tasks || !s.tasks[p].HasEvents? then s
      else
        var t := s.tasks[p];
        if |s.log| != t.version then To(s, p, Finished)
        else To(s.(log := s.log + t.events), p, Projecting(|s.log|, |s.log| + |t.events|))
    case ProjectsOne(p) =>
      if p !in s.tasks || !s.tasks[p].Projecting? || s.tasks[p].next >= s.tasks[p].end || s.tasks[p].next >= |s.log| then s
      else
        var t := s.tasks[p];
        To(s.(names := Project(s.names, s.log[t.next]), version := t.next + 1), p, Projecting(t.next + 1, t.end))
  }

  ghost function Exec(run: seq<Step>): State
  {
    if run == [] then INIT else Next(Exec(run[..|run| - 1]), run[|run| - 1])
  }

  // --- What holds of the stream ---

  /** Along the stream a person never has two primaries, and once named stays named. */
  ghost predicate StreamOk(log: seq<Event>)
  {
    && (forall k :: 0 <= k <= |log| ==> AtMostOnePrimary(RowsAt(log, k)))
    && (forall j, k :: 0 <= j <= k <= |log| && RowsAt(log, j) != map[] ==> RowsAt(log, k) != map[])
  }

  /** A task's reads are current if nothing was appended since its version was. */
  ghost predicate TaskOk(t: Task, s: State)
  {
    match t
    case HasVersion(_, version) => version <= s.version
    case HasName(cmd, version, existing) =>
      version <= s.version && (version == |s.log| ==> Current(cmd, existing, s.names))
    case HasEvents(cmd, version, existing, seen, events) =>
      version <= s.version && Builds(cmd, existing, seen, events)
      && (version == |s.log| ==> seen == s.names && Current(cmd, existing, s.names))
    case Projecting(next, end) => next <= end <= |s.log| && (next < end ==> next == s.version && end == |s.log|)
    case Finished => true
  }

  ghost predicate Current(cmd: Command, existing: Option<NameFields>, names: Names)
  {
    cmd.Update? ==> existing.Some? && cmd.id in names && names[cmd.id] == existing.value
  }

  ghost predicate Unprojected(s: State, p: nat)
  {
    p in s.tasks && s.tasks[p].Projecting? && s.tasks[p].next < s.tasks[p].end
  }

  ghost predicate Inv(s: State)
  {
    && s.version <= |s.log|
    && s.names == RowsAt(s.log, s.version)
    && StreamOk(s.log)
    && (forall p :: p in s.tasks ==> TaskOk(s.tasks[p], s))
    && (forall p, q :: Unprojected(s, p) && Unprojected(s, q) ==> p == q)
    && (s.version < |s.log| ==> exists p :: Unprojected(s, p))
  }

  // --- What one command's events do to the names ---

  ghost predicate Fine(names: Names, after: Names)
  {
    AtMostOnePrimary(after) && (names != map[] ==> after != map[])
  }

  lemma ProjectTwo(names: Names, a: Event, b: Event)
    ensures ProjectAll(names, []) == names && ProjectAll(names, [a]) == Project(names, a)
    ensures ProjectAll(names, [a, b]) == Project(Project(names, a), b)
  {
    assert [a][..0] == [] && [a, b][..1] == [a];
  }

  /** Demoting the primary leaves none but the excepted name. */
  lemma DemotionLeavesNone(names: Names, except: Option<Uuid>, events: seq<Event>)
    requires AtMostOnePrimary(names) && Demotion(names, except, events)
    ensures |events| <= 1 && ProjectAll(names, events).Keys == names.Keys && AtMostOnePrimary(ProjectAll(names, events))
    ensures forall a :: a in names && ProjectAll(names, events)[a].primary ==> except == Some(a)
  {
    if events != [] {
      var a :| a in names && names[a].primary && except != Some(a) && events == [NameUpdated(a, names[a].(primary := false))];
      ProjectTwo(names, events[0], events[0]);
    }
  }

  /** A change behind its demotion keeps one primary at most, at every intermediate state. */
  lemma DemoteThenFine(names: Names, except: Option<Uuid>, promotes: bool, e: Event, events: seq<Event>, k: nat)
    requires AtMostOnePrimary(names) && DemoteThen(names, except, promotes, e, events) && k <= |events|
    requires e.NameAdded? || e.NameUpdated?
    requires except == None || except == Some(e.nameId)
    requires !promotes && e.name.primary ==> e.nameId in names && names[e.nameId].primary
    ensures Fine(names, ProjectAll(names, events[..k]))
    ensures ProjectAll(names, events) == ProjectAll(names, events[..|events| - 1])[e.nameId := e.name]
  {
    var n := |events| - 1;
    var mid := ProjectAll(names, events[..n]);
    if promotes {
      DemotionLeavesNone(names, except, events[..n]);
    }
    assert events[..|events|] == events;
    if k == |events| {
      assert e.nameId in ProjectAll(names, events);
    } else if k < n {
      assert events[..k] == [];
    }
  }

  /** Whatever a command builds from current reads keeps one primary at most, at every intermediate state. */
  lemma BuildsFine(c: Command, existing: Option<NameFields>, names: Names, events: seq<Event>, k: nat)
    requires AtMostOnePrimary(names) && Builds(c, existing, names, events) && Current(c, existing, names) && k <= |events|
    ensures Fine(names, ProjectAll(names, events[..k]))
  {
    match c
    case Add(id, name) =>
      var primary := name.primary || names == map[];
      DemoteThenFine(names, None, primary, NameAdded(id, name.(primary := primary)), events, k);
    case Update(id, _, _) =>
      var changed := Changed(existing.value, c);
      DemoteThenFine(names, Some(id), changed.primary && !existing.value.primary, NameUpdated(id, changed), events, k);
    case Delete(id) =>
      OneEvent(names, events, k);
      RemainsNamed(names, id);
    case Touch(_) =>
      OneEvent(names, events, k);
  }

  lemma OneEvent(names: Names, events: seq<Event>, k: nat)
    requires |events| == 1 && k <= 1
    ensures ProjectAll(names, events[..k]) == if k == 0 then names else Project(names, events[0])
  {
    assert events == [events[0]] && events[..k] == if k == 0 then [] else events;
    ProjectTwo(names, events[0], events[0]);
  }

  lemma RemainsNamed(names: Names, id: Uuid)
    requires id in names && |names| > 1
    ensures names - {id} != map[]
  {
    var rest := names.Keys - {id};
    assert |names.Keys| == |names| && |rest| == |names.Keys| - 1;
    var x :| x in rest;
    assert x in names - {id};
  }

  /** A command that does not clear the flag leaves exactly one primary, given one or no name at all. */
  lemma BuildsOnePrimary(c: Command, existing: Option<NameFields>, names: Names, events: seq<Event>)
    requires AtMostOnePrimary(names) && OnePrimaryUnlessEmpty(names) && !ClearsPrimary(c)
    requires Builds(c, existing, names, events) && Current(c, existing, names) && (c.Add? ==> c.id !in names)
    ensures OnePrimaryUnlessEmpty(ProjectAll(names, events))
  {
    match c
    case Add(id, name) =>
      var primary := name.primary || names == map[];
      DemoteThenFine(names, None, primary, NameAdded(id, name.(primary := primary)), events, 0);
      DemoteThenOne(names, None, primary, NameAdded(id, name.(primary := primary)), events);
    case Update(id, _, _) =>
      var changed := Changed(existing.value, c);
      DemoteThenFine(names, Some(id), changed.primary && !existing.value.primary, NameUpdated(id, changed), events, 0);
      DemoteThenOne(names, Some(id), changed.primary && !existing.value.primary, NameUpdated(id, changed), events);
    case Delete(id) =>
      ProjectTwo(names, events[0], events[0]);
      var a :| a in names && names[a].primary;
      assert a in ProjectAll(names, events) && ProjectAll(names, events)[a].primary;
    case Touch(_) =>
      ProjectTwo(names, events[0], events[0]);
  }

  lemma DemoteThenOne(names: Names, except: Option<Uuid>, promotes: bool, e: Event, events: seq<Event>)
    requires OnePrimaryUnlessEmpty(names) && DemoteThen(names, except, promotes, e, events)
    requires e.NameAdded? || e.NameUpdated?
    requires e.name.primary || (!promotes && names != map[] && (e.nameId !in names || !names[e.nameId].primary))
    requires ProjectAll(names, events) == ProjectAll(names, events[..|events| - 1])[e.nameId := e.name]
    ensures OnePrimaryUnlessEmpty(ProjectAll(names, events))
  {
    var after := ProjectAll(names, events);
    if e.name.primary {
      assert e.nameId in after && after[e.nameId].primary;
    } else {
      assert events[..|events| - 1] == [];
      var a :| a in names && names[a].primary;
      assert a in after && after[a].primary;
    }
  }

  // --- The steps ---

  lemma {:induction false} ProjectConcat(names: Names, a: seq<Event>, b: seq<Event>)
    ensures ProjectAll(names, a + b) == ProjectAll(ProjectAll(names, a), b)
  {
    if b == [] {
      assert a + b == a;
    } else {
      ProjectConcat(names, a, b[..|b| - 1]);
      assert (a + b)[..|a + b| - 1] == a + b[..|b| - 1];
    }
  }

  lemma RowsAfterAppend(log: seq<Event>, events: seq<Event>, k: nat)
    requires k <= |log| + |events|
    ensures RowsAt(log + events, k)
         == if k <= |log| then RowsAt(log, k) else ProjectAll(RowsAt(log, |log|), events[..k - |log|])
  {
    if k <= |log| {
      assert (log + events)[..k] == log[..k];
    } else {
      assert (log + events)[..k] == log + events[..k - |log|];
      assert log[..|log|] == log;
      ProjectConcat(map[], log, events[..k - |log|]);
    }
  }

  lemma AppendFine(log: seq<Event>, c: Command, existing: Option<NameFields>, events: seq<Event>)
    requires StreamOk(log) && Builds(c, existing, RowsAt(log, |log|), events) && Current(c, existing, RowsAt(log, |log|))
    ensures StreamOk(log + events)
  {
    var names, later, n := RowsAt(log, |log|), log + events, |log|;
    forall k | 0 <= k <= |later|
      ensures AtMostOnePrimary(RowsAt(later, k))
      ensures k <= n ==> RowsAt(later, k) == RowsAt(log, k)
      ensures k >= n && names != map[] ==> RowsAt(later, k) != map[]
    {
      RowsAfterAppend(log, events, k);
      if k > n {
        BuildsFine(c, existing, names, events, k - n);
      }
    }
    forall j, k | 0 <= j <= k <= |later| && RowsAt(later, j) != map[] ensures RowsAt(later, k) != map[] {
      if k > n {
        StaysNamed(log, c, existing, events, j, k);
      }
    }
  }

  /** Within the appended events: what is named at one of them is named at every later one. */
  lemma StaysNamed(log: seq<Event>, c: Command, existing: Option<NameFields>, events: seq<Event>, j: nat, k: nat)
    requires StreamOk(log) && Builds(c, existing, RowsAt(log, |log|), events) && Current(c, existing, RowsAt(log, |log|))
    requires j <= k <= |log| + |events| && k > |log| && RowsAt(log + events, j) != map[]
    ensures RowsAt(log + events, k) != map[]
  {
    var names, n := RowsAt(log, |log|), |log|;
    RowsAfterAppend(log, events, j);
    RowsAfterAppend(log, events, k);
    if names != map[] || j <= n {
      BuildsFine(c, existing, names, events, k - n);
    } else {
      OnlyFirstName(c, existing, names, events);
    }
  }

  /** With no names, the only events a command can build add one name or touch nothing. */
  lemma OnlyFirstName(c: Command, existing: Option<NameFields>, names: Names, events: seq<Event>)
    requires names == map[] && Builds(c, existing, names, events) && Current(c, existing, names)
    ensures |events| == 1
  {
  }

  /** Growing the stream by one command's events keeps every other task's reads honest. */
  lemma AppendKeeps(s: State, p: nat)
    requires Inv(s) && p in s.tasks && s.tasks[p].HasEvents? && |s.log| == s.tasks[p].version
    ensures Inv(Next(s, Appends(p)))
  {
    hide StreamOk, Builds, RowsAt;
    var t, u := s.tasks[p], Next(s, Appends(p));
    assert TaskOk(t, s);
    assert s.version == |s.log|;
    AppendFine(s.log, t.cmd, t.existing, t.events);
    RowsAfterAppend(s.log, t.events, s.version);
    SomeEvents(t.cmd, t.existing, t.seen, t.events);
    assert Unprojected(u, p);
    forall q | q in u.tasks ensures TaskOk(u.tasks[q], u) {
      assert q != p ==> TaskOk(s.tasks[q], s);
    }
    forall q | q in s.tasks && q != p ensures !Unprojected(u, q) {
      assert TaskOk(s.tasks[q], s);
    }
  }

  lemma SomeEvents(c: Command, existing: Option<NameFields>, names: Names, events: seq<Event>)
    requires Builds(c, existing, names, events)
    ensures events != []
  {
  }

  lemma ProjectKeeps(s: State, p: nat)
    requires Inv(s) && Unprojected(s, p)
    ensures Inv(Next(s, ProjectsOne(p)))
  {
    hide StreamOk, Builds;
    var t, u := s.tasks[p], Next(s, ProjectsOne(p));
    assert TaskOk(t, s);
    assert s.log[..s.version + 1][..s.version] == s.log[..s.version];
    forall q | q in u.tasks ensures TaskOk(u.tasks[q], u) {
      assert TaskOk(s.tasks[q], s);
      assert q != p ==> !Unprojected(s, q);
    }
    forall a, b | Unprojected(u, a) && Unprojected(u, b) ensures a == b {
      assert Unprojected(s, a) && Unprojected(s, b);
    }
    if u.version < |u.log| {
      assert Unprojected(u, p);
    }
  }

  /** A step that only reads. */
  lemma ReadKeeps(s: State, p: nat, t: Task, ids: set<Uuid>)
    requires Inv(s) && TaskOk(t, s) && !t.Projecting? && (p in s.tasks ==> !s.tasks[p].Projecting?)
    ensures Inv(To(s.(ids := ids), p, t))
  {
    hide StreamOk, Builds, RowsAt;
    var u := To(s.(ids := ids), p, t);
    forall q | q in u.tasks ensures TaskOk(u.tasks[q], u) {
      assert q != p ==> TaskOk(s.tasks[q], s);
    }
    forall q ensures Unprojected(u, q) <==> Unprojected(s, q) {
    }
  }

  lemma NextKeeps(s: State, step: Step)
    requires Inv(s)
    ensures Inv(Next(s, step))
  {
    hide StreamOk, RowsAt;
    match step
    case ReadsVersion(p, cmd) =>
      if p !in s.tasks {
        ReadKeeps(s, p, HasVersion(cmd, s.version), if cmd.Add? then s.ids + {cmd.id} else s.ids);
      }
    case ReadsName(p) =>
      if p in s.tasks && s.tasks[p].HasVersion? {
        assert TaskOk(s.tasks[p], s);
        ReadKeeps(s, p, Next(s, step).tasks[p], s.ids);
      }
    case ReadsNames(p, events) =>
      if p in s.tasks && s.tasks[p].HasName? && Builds(s.tasks[p].cmd, s.tasks[p].existing, s.names, events) {
        assert TaskOk(s.tasks[p], s);
        ReadKeeps(s, p, Next(s, step).tasks[p], s.ids);
      }
    case Appends(p) =>
      if p in s.tasks && s.tasks[p].HasEvents? {
        if |s.log| == s.tasks[p].version {
          AppendKeeps(s, p);
        } else {
          ReadKeeps(s, p, Finished, s.ids);
        }
      }
    case ProjectsOne(p) =>
      if Unprojected(s, p) {
        ProjectKeeps(s, p);
      }
  }

  lemma {:induction false} Reachable(run: seq<Step>)
    ensures Inv(Exec(run))
  {
    if run == [] {
      assert RowsAt([], 0) == map[];
    } else {
      Reachable(run[..|run| - 1]);
      NextKeeps(Exec(run[..|run| - 1]), run[|run| - 1]);
    }
  }

  // --- What holds of every run ---

  /** However the commands interleave, a person never has two primary names. */
  lemma {:induction false} NeverTwoPrimaries(run: seq<Step>)
    ensures AtMostOnePrimary(Exec(run).names)
  {
    Reachable(run);
  }

  /** And never goes from some names to none. */
  lemma {:induction false} NeverUnnamed(run: seq<Step>, more: seq<Step>)
    requires Exec(run).names != map[]
    ensures Exec(run + more).names != map[]
  {
    Reachable(run);
    Reachable(run + more);
    OnlyForward(run, more);
    var s, t := Exec(run), Exec(run + more);
    assert RowsAt(t.log, s.version) == RowsAt(s.log, s.version) by {
      assert t.log[..s.version] == s.log[..s.version];
    }
  }

  /** The stream and the projected version only grow. */
  lemma {:induction false} OnlyForward(run: seq<Step>, more: seq<Step>)
    ensures Exec(run).log <= Exec(run + more).log && Exec(run).version <= Exec(run + more).version
  {
    hide Next, Inv;
    if more == [] {
      assert run + more == run;
    } else {
      var shorter := more[..|more| - 1];
      OnlyForward(run, shorter);
      assert (run + more)[..|run + more| - 1] == run + shorter;
      Reachable(run + shorter);
      StepForward(Exec(run + shorter), more[|more| - 1]);
    }
  }

  lemma StepForward(s: State, step: Step)
    requires Inv(s)
    ensures s.log <= Next(s, step).log && s.version <= Next(s, step).version
  {
    hide StreamOk, Builds, RowsAt;
    if step.ProjectsOne? && Unprojected(s, step.p) {
      assert TaskOk(s.tasks[step.p], s);
    }
  }

  // --- What a command's events do to the rows, in the machine ---

  /** `n` projections of one command in a row. */
  function Projections(p: nat, n: nat): seq<Step>
  {
    seq(n, _ => ProjectsOne(p))
  }

  /** A command that appends at a version that still stands puts all its events on the stream. */
  lemma AppendLands(run: seq<Step>, p: nat)
    requires p in Exec(run).tasks && Exec(run).tasks[p].HasEvents? && Exec(run).tasks[p].version == |Exec(run).log|
    ensures
      var s, u, t := Exec(run), Exec(run + [Appends(p)]), Exec(run).tasks[p];
      && u.log == s.log + t.events && u.names == s.names && u.version == s.version == |s.log|
      && t.seen == s.names && Current(t.cmd, t.existing, s.names) && Builds(t.cmd, t.existing, t.seen, t.events)
      && p in u.tasks && u.tasks[p] == Projecting(|s.log|, |s.log| + |t.events|)
  {
    Reachable(run);
    assert TaskOk(Exec(run).tasks[p], Exec(run));
    assert (run + [Appends(p)])[..|run|] == run;
  }

  /** And its projections then bring all of them into the rows. */
  lemma {:induction false} ProjectionsLand(run: seq<Step>, p: nat, names: Names, from: nat, events: seq<Event>, n: nat)
    requires n <= |events| && Exec(run).names == names && Exec(run).version == from
    requires p in Exec(run).tasks && Exec(run).tasks[p] == Projecting(from, from + |events|)
    requires |Exec(run).log| == from + |events| && Exec(run).log[from..] == events
    ensures
      var u := Exec(run + Projections(p, n));
      && u.names == ProjectAll(names, events[..n]) && u.version == from + n && u.log == Exec(run).log
      && p in u.tasks && u.tasks[p] == Projecting(from + n, from + |events|)
  {
    hide Next, Project, Exec, Builds;
    if n == 0 {
      assert run + Projections(p, 0) == run;
    } else {
      ProjectionsLand(run, p, names, from, events, n - 1);
      ExecStep(run, p, n);
      var before := Exec(run + Projections(p, n - 1));
      assert events[..n][..n - 1] == events[..n - 1];
      assert before.log[from + n - 1] == before.log[from..][n - 1] == events[n - 1];
      ProjectsNext(before, p, from + n - 1, from + |events|);
    }
  }

  lemma ExecStep(run: seq<Step>, p: nat, n: nat)
    requires n > 0
    ensures Exec(run + Projections(p, n)) == Next(Exec(run + Projections(p, n - 1)), ProjectsOne(p))
  {
    var steps := run + Projections(p, n);
    assert steps[..|steps| - 1] == run + Projections(p, n - 1);
  }

  lemma ProjectsNext(s: State, p: nat, next: nat, end: nat)
    requires p in s.tasks && s.tasks[p] == Projecting(next, end) && next < end <= |s.log|
    ensures Next(s, ProjectsOne(p))
         == To(s.(names := Project(s.names, s.log[next]), version := next + 1), p, Projecting(next + 1, end))
  {
  }

  /**
   * In any run: an update whose append finds its version standing leaves, after its projections, the name as
   * asked and every other name's text as it was; and no other name primary if it takes the flag over.
   */
  lemma UpdateTakesEffect(run: seq<Step>, p: nat)
    requires p in Exec(run).tasks && Exec(run).tasks[p].HasEvents? && Exec(run).tasks[p].version == |Exec(run).log|
    requires Exec(run).tasks[p].cmd.Update?
    ensures
      var s, t := Exec(run), Exec(run).tasks[p];
      && t.cmd.id in s.names
      && UpdateAsked(t.cmd, s.names[t.cmd.id], s.names, Exec(run + [Appends(p)] + Projections(p, |t.events|)).names)
  {
    hide Exec, ProjectAll, Next;
    var s, t := Exec(run), Exec(run).tasks[p];
    AppendLands(run, p);
    ProjectionsLand(run + [Appends(p)], p, s.names, |s.log|, t.events, |t.events|);
    assert t.events[..|t.events|] == t.events;
    UpdateDone(t.cmd, t.existing.value, s.names, t.events);
  }

  lemma UpdateDone(c: Command, existing: NameFields, names: Names, events: seq<Event>)
    requires c.Update? && Builds(c, Some(existing), names, events)
    ensures UpdateAsked(c, existing, names, ProjectAll(names, events))
  {
    var changed, before := Changed(existing, c), events[..|events| - 1];
    assert events == before + [events[|events| - 1]];
    ChangeRows(names, Some(c.id), changed.primary && !existing.primary, NameUpdated(c.id, changed), before);
  }

  // --- Exactly one primary ---

  predicate Pending(t: Task)
  {
    t.HasVersion? || t.HasName? || t.HasEvents?
  }

  predicate PendingAdd(s: State, p: nat)
  {
    p in s.tasks && Pending(s.tasks[p]) && s.tasks[p].cmd.Add?
  }

  /** The names on the stream have ids that were generated, and a pending new name's id is on no name yet. */
  ghost predicate IdsFresh(s: State)
  {
    && RowsAt(s.log, |s.log|).Keys <= s.ids
    && (forall p :: PendingAdd(s, p) ==> s.tasks[p].cmd.id in s.ids - RowsAt(s.log, |s.log|).Keys)
    && (forall p, q :: p != q && PendingAdd(s, p) && PendingAdd(s, q) ==> s.tasks[p].cmd.id != s.tasks[q].cmd.id)
  }

  ghost predicate OneInv(s: State)
  {
    && Inv(s) && IdsFresh(s)
    && OnePrimaryUnlessEmpty(RowsAt(s.log, |s.log|))
    && (forall p :: p in s.tasks && Pending(s.tasks[p]) ==> !ClearsPrimary(s.tasks[p].cmd))
  }

  lemma {:induction false} BuildsNoOtherKey(c: Command, existing: Option<NameFields>, names: Names, events: seq<Event>)
    requires AtMostOnePrimary(names) && Builds(c, existing, names, events) && Current(c, existing, names)
    ensures ProjectAll(names, events).Keys <= names.Keys + (if c.Add? then {c.id} else {})
  {
    match c
    case Add(id, name) =>
      var primary := name.primary || names == map[];
      DemoteThenFine(names, None, primary, NameAdded(id, name.(primary := primary)), events, 0);
      if primary {
        DemotionLeavesNone(names, None, events[..|events| - 1]);
      }
    case Update(id, _, _) =>
      var changed := Changed(existing.value, c);
      var promotes := changed.primary && !existing.value.primary;
      DemoteThenFine(names, Some(id), promotes, NameUpdated(id, changed), events, 0);
      if promotes {
        DemotionLeavesNone(names, Some(id), events[..|events| - 1]);
      }
    case _ =>
      OneEvent(names, events, 1);
      assert events[..1] == events;
  }

  lemma AppendKeepsOne(s: State, p: nat)
    requires OneInv(s) && p in s.tasks && s.tasks[p].HasEvents? && |s.log| == s.tasks[p].version
    ensures OneInv(Next(s, Appends(p)))
  {
    hide StreamOk, Builds, RowsAt, ClearsPrimary, OnePrimaryUnlessEmpty;
    var t, u := s.tasks[p], Next(s, Appends(p));
    assert TaskOk(t, s);
    AppendKeeps(s, p);
    var names := RowsAt(s.log, |s.log|);
    OneAtMost(s);
    RowsAfterAppend(s.log, t.events, |u.log|);
    SomeEvents(t.cmd, t.existing, names, t.events);
    assert t.events[..|t.events|] == t.events;
    assert RowsAt(u.log, |u.log|) == ProjectAll(names, t.events);
    BuildsOnePrimary(t.cmd, t.existing, names, t.events);
    BuildsNoOtherKey(t.cmd, t.existing, names, t.events);
  }

  lemma OneAtMost(s: State)
    requires Inv(s)
    ensures AtMostOnePrimary(RowsAt(s.log, |s.log|))
  {
  }

  lemma NextKeepsOne(s: State, step: Step)
    requires OneInv(s) && (step.ReadsVersion? ==> !ClearsPrimary(step.cmd))
    ensures OneInv(Next(s, step))
  {
    hide Inv, Builds, RowsAt, OnePrimaryUnlessEmpty, Project;
    NextKeeps(s, step);
    if step.Appends? && step.p in s.tasks && s.tasks[step.p].HasEvents? && |s.log| == s.tasks[step.p].version {
      AppendKeepsOne(s, step.p);
    }
  }

  /** No command of the run clears the primary flag. */
  predicate NeverClears(run: seq<Step>)
  {
    forall i :: 0 <= i < |run| && run[i].ReadsVersion? ==> !ClearsPrimary(run[i].cmd)
  }

  lemma {:induction false} ReachableOne(run: seq<Step>)
    requires NeverClears(run)
    ensures OneInv(Exec(run))
  {
    if run == [] {
      Reachable(run);
      assert RowsAt([], 0) == map[];
    } else {
      ReachableOne(run[..|run| - 1]);
      NextKeepsOne(Exec(run[..|run| - 1]), run[|run| - 1]);
    }
  }

  /**
   * If no update clears the flag, exactly one name is primary whenever no command is between its
   * append and the end of its projections.
   */
  lemma {:induction false} ExactlyOnePrimaryAtRest(run: seq<Step>)
    requires NeverClears(run) && Exec(run).names != map[]
    requires forall p :: !Unprojected(Exec(run), p)
    ensures exists a :: a in Exec(run).names && Exec(run).names[a].primary
    ensures AtMostOnePrimary(Exec(run).names)
  {
    ReachableOne(run);
    NeverTwoPrimaries(run);
  }

  // --- A merge can undo it ---

  /** What replaying a person's branch events makes of main's name rows. */
  function Merged(main: Names, branch: Log): Names
  {
    ProjectAll(main, Map(EventOf(), branch))
  }

  function NameIn(names: Names, id: Uuid): Option<NameFields>
  {
    if id in names then Some(names[id]) else None
  }

  /** The name a net effect leaves behind, when it wrote that name at all. */
  function Written(side: StreamSide, id: Uuid): Option<NameFields>
    requires NameOf(id) in side.fields
  {
    match side.fields[NameOf(id)]
    case FullName(name) => Some(name)
    case _ => None
  }

  /** The merged rows are main's, overridden name by name with the branch's net effect. */
  lemma {:induction false} MergedIsOverride(main: Names, branch: Log, id: Uuid)
    ensures
      var side := FoldAll(UNTOUCHED, branch);
      NameIn(Merged(main, branch), id) == if NameOf(id) in side.fields then Written(side, id) else NameIn(main, id)
  {
    if branch != [] {
      var n := |branch| - 1;
      MergedIsOverride(main, branch[..n], id);
      assert Map(EventOf(), branch)[..n] == Map(EventOf(), branch[..n]);
    }
  }

  /** The branch's last word on the name makes it primary. */
  predicate MadePrimary(branch: Log, id: Uuid)
  {
    var side := FoldAll(UNTOUCHED, branch);
    NameOf(id) in side.fields && Written(side, id).Some? && Written(side, id).value.primary
  }

  /** The name is primary on main, and the branch never wrote it. */
  predicate KeptPrimary(main: Names, branch: Log, id: Uuid)
  {
    id in main && main[id].primary && NameOf(id) !in FoldAll(UNTOUCHED, branch).fields
  }

  lemma MergedPrimary(main: Names, branch: Log, id: Uuid)
    ensures id in Merged(main, branch) && Merged(main, branch)[id].primary
      <==> MadePrimary(branch, id) || KeptPrimary(main, branch, id)
  {
    MergedIsOverride(main, branch, id);
  }

  /**
   * Exactly when a merge leaves two primary names, for main rows with at most one: the branch's net
   * effect makes two names primary, or makes one primary while main has a primary it never wrote.
   */
  lemma MergeLeavesTwoPrimariesIff(main: Names, branch: Log)
    requires AtMostOnePrimary(main)
    ensures !AtMostOnePrimary(Merged(main, branch))
      <==> (exists a, b :: a != b && MadePrimary(branch, a) && MadePrimary(branch, b))
           || (exists a, b :: MadePrimary(branch, a) && KeptPrimary(main, branch, b))
  {
    hide MadePrimary, KeptPrimary, Merged;
    var merged := Merged(main, branch);
    forall id ensures id in merged && merged[id].primary <==> MadePrimary(branch, id) || KeptPrimary(main, branch, id) {
      MergedPrimary(main, branch, id);
    }
    KeptOnce(main, branch);
    if a, b :| MadePrimary(branch, a) && KeptPrimary(main, branch, b) {
      MadeOrKept(main, branch, a, b);
    }
  }

  lemma KeptOnce(main: Names, branch: Log)
    requires AtMostOnePrimary(main)
    ensures forall a, b :: KeptPrimary(main, branch, a) && KeptPrimary(main, branch, b) ==> a == b
  {
  }

  lemma MadeOrKept(main: Names, branch: Log, a: Uuid, b: Uuid)
    requires MadePrimary(branch, a) && KeptPrimary(main, branch, b)
    ensures a != b
  {
  }

  /**
   * On a branch that itself sees at most one primary name, as the name commands guarantee, that is: the
   * branch made some name primary while main has a primary the branch never wrote.
   */
  lemma MergeOfOnePrimaryEach(fork: Names, main: Names, branch: Log)
    requires AtMostOnePrimary(main) && AtMostOnePrimary(Merged(fork, branch))
    ensures !AtMostOnePrimary(Merged(main, branch))
      <==> (exists a :: MadePrimary(branch, a)) && (exists b :: KeptPrimary(main, branch, b))
  {
    hide MadePrimary, KeptPrimary, Merged;
    MergeLeavesTwoPrimariesIff(main, branch);
    forall a, b | MadePrimary(branch, a) && MadePrimary(branch, b) ensures a == b {
      MergedPrimary(fork, branch, a);
      MergedPrimary(fork, branch, b);
    }
  }

  /** A branch and main each hand the primary flag from name 1 to a name of their own. */
  function HandsPrimaryTo(branch: Uuid, id: Uuid, from: nat): Log
  {
    [StoredEvent(7, branch, from, from, NameUpdated(1, NameFields("Ann", false)), 0),
     StoredEvent(7, branch, from + 1, from + 1, NameAdded(id, NameFields("Anna", true)), 0)]
  }

  lemma SideOfHandover(branch: Uuid, id: Uuid, from: nat)
    ensures FoldAll(UNTOUCHED, HandsPrimaryTo(branch, id, from))
         == StreamSide(false, map[NameOf(1) := FullName(NameFields("Ann", false)), NameOf(id) := FullName(NameFields("Anna", true))])
  {
    var log := HandsPrimaryTo(branch, id, from);
    assert log[..1][..0] == [] && log[..1] == [log[0]];
    assert FoldAll(UNTOUCHED, log[..1]) == StreamSide(false, map[NameOf(1) := FullName(NameFields("Ann", false))]);
  }

  /** Handing the flag on leaves a side with one primary. */
  lemma HandoverKeepsOne(branch: Uuid, id: Uuid, from: nat)
    requires id != 1
    ensures AtMostOnePrimary(Merged(map[1 := NameFields("Ann", true)], HandsPrimaryTo(branch, id, from)))
  {
    SideOfHandover(branch, id, from);
    MergeLeavesTwoPrimariesIff(map[1 := NameFields("Ann", true)], HandsPrimaryTo(branch, id, from));
  }

  /**
   * The conflict rule compares names one by one, so such a pair is no conflict at all; and replaying
   * the branch's events over main's leaves the person with two primary names.
   */
  lemma MergeCanLeaveTwoPrimaries() returns (branch: Log, main: Log)
    ensures |branch| == 2 == |main|
    ensures ClassifyStream(7, FoldAll(UNTOUCHED, branch), Some(FoldAll(UNTOUCHED, main))) == None
    ensures AtMostOnePrimary(Merged(map[1 := NameFields("Ann", true)], main))
    ensures AtMostOnePrimary(Merged(map[1 := NameFields("Ann", true)], branch))
    ensures !AtMostOnePrimary(Merged(Merged(map[1 := NameFields("Ann", true)], main), branch))
  {
    branch, main := HandsPrimaryTo(9, 2, 5), HandsPrimaryTo(NIL, 3, 5);
    var bs, ms := FoldAll(UNTOUCHED, branch), FoldAll(UNTOUCHED, main);
    SideOfHandover(9, 2, 5);
    SideOfHandover(NIL, 3, 5);
    assert Divergent(bs.fields, ms.fields) == {};
    HandoverKeepsOne(9, 2, 5);
    HandoverKeepsOne(NIL, 3, 5);
    hide FoldAll, Merged, AtMostOnePrimary, Divergent;
    var over := Merged(map[1 := NameFields("Ann", true)], main);
    MergedPrimary(map[1 := NameFields("Ann", true)], main, 3);
    MergedPrimary(over, branch, 2);
    MergedPrimary(over, branch, 3);
    assert Merged(over, branch)[2].primary && Merged(over, branch)[3].primary;
  }
}
