/**
 * The family commands over one scope's rows, run one after another. Every method states its refusal
 * and its new state exactly; `Valid` is what any sequence of them keeps.
 */
module FamilyCommands {
  import opened Base
  import opened FamilyGraph

  datatype Refusal =
    | InvalidInput | PersonNotFound | FamilyNotFound | Conflict
    | ChildAlreadyLinked | CircularAncestry | ChildNotInFamily | FamilyHasChildren | PersonHasFamilies
    | SamePersonMerge | CircularMerge | ChildFamilyConflict

  predicate KnownRelation(relation: string)
  {
    relation in {"marriage", "partnership", "unknown", ""}
  }

  function VersionOf(versions: map<Uuid, nat>, stream: Uuid): nat
  {
    if stream in versions then versions[stream] else 0
  }

  /** Whether an append at an expected version goes through; a negative one switches the check off. */
  predicate Accepts(versions: map<Uuid, nat>, stream: Uuid, expected: int)
  {
    expected < 0 || VersionOf(versions, stream) == expected
  }

  ghost function CreateFamilyRefusal(t: Tree, p1: Option<Uuid>, p2: Option<Uuid>, relation: string, dateOk: bool): Option<Refusal>
  {
    if p1.None? && p2.None? then Some(InvalidInput)
    else if (p1.Some? && p1.value !in t.persons) || (p2.Some? && p2.value !in t.persons) then Some(InvalidInput)
    else if p1 == p2 || !KnownRelation(relation) || !dateOk then Some(InvalidInput)
    else None
  }

  ghost function LinkRefusal(t: Tree, f: Uuid, c: Uuid): Option<Refusal>
  {
    if f !in t.families then Some(FamilyNotFound)
    else if c !in t.persons then Some(PersonNotFound)
    else if IsChild(t, c) then Some(ChildAlreadyLinked)
    else if !LinkGuard(t, f, c) then Some(CircularAncestry)
    else None
  }

  ghost function MergeRefusal(t: Tree, s: Uuid, m: Uuid, versionsMatch: bool): Option<Refusal>
  {
    if s == m then Some(SamePersonMerge)
    else if s !in t.persons || m !in t.persons then Some(PersonNotFound)
    else if !versionsMatch then Some(Conflict)
    else if AncestorOrSelf(t, m, s) || AncestorOrSelf(t, s, m) then Some(CircularMerge)
    else if !MergeGuard(t, s, m) then Some(ChildFamilyConflict)
    else None
  }

  ghost predicate InSomeFamily(t: Tree, p: Uuid)
  {
    exists f :: f in t.families && Partner(t.families[f], p)
  }

  /** A link is refused for the child itself, or just where it would close a cycle; otherwise the tree stays a tree. */
  lemma LinkAcceptedIff(t: Tree, f: Uuid, c: Uuid)
    requires TreeOk(t)
    ensures LinkRefusal(t, f, c) == None <==> f in t.families && c in t.persons && !IsChild(t, c) && Acyclic(Linked(t, f, c))
    ensures LinkRefusal(t, f, c) == None ==> TreeOk(Linked(t, f, c))
    ensures LinkRefusal(t, f, c) == Some(FamilyNotFound) <==> f !in t.families
    ensures LinkRefusal(t, f, c) == Some(PersonNotFound) <==> f in t.families && c !in t.persons
    ensures LinkRefusal(t, f, c) == Some(ChildAlreadyLinked) <==> f in t.families && c in t.persons && IsChild(t, c)
    ensures LinkRefusal(t, f, c) == Some(CircularAncestry)
      <==> f in t.families && c in t.persons && !IsChild(t, c) && !Acyclic(Linked(t, f, c))
  {
    if f in t.families {
      if LinkGuard(t, f, c) {
        LinkKeepsAcyclic(t, f, c);
        if c in t.persons && !IsChild(t, c) {
          LinkKeepsTree(t, f, c);
        }
      } else {
        GuardIsNeeded(t, f, c);
      }
    }
  }

  /** A merge of persons is accepted just where it loses no parent and closes no cycle. */
  lemma MergeAcceptedIff(t: Tree, s: Uuid, m: Uuid, versionsMatch: bool)
    requires TreeOk(t)
    ensures MergeRefusal(t, s, m, versionsMatch) == None
      <==> s != m && s in t.persons && m in t.persons && versionsMatch
           && ChildFamiliesAgree(t, s, m) && Acyclic(Contracted(t, s, m))
    ensures MergeRefusal(t, s, m, versionsMatch) == None ==> TreeOk(Contracted(t, s, m))
    ensures MergeRefusal(t, s, m, versionsMatch) == Some(CircularMerge) && ChildFamiliesAgree(t, s, m) ==>
      !Acyclic(Contracted(t, s, m))
    ensures MergeRefusal(t, s, m, versionsMatch) == Some(ChildFamilyConflict) ==> !ChildFamiliesAgree(t, s, m)
  {
    hide Acyclic, AncestorOrSelf, ChildFamiliesAgree, Contracted;
    if s != m {
      MergeGuardIff(t, s, m);
      AgreeIsGuard(t, s, m);
      if MergeGuard(t, s, m) && s in t.persons {
        MergeKeepsTree(t, s, m);
      }
    }
  }

  /** A family needs a partner, and its partners to be known and different. */
  lemma CreateAcceptedIff(t: Tree, p1: Option<Uuid>, p2: Option<Uuid>, relation: string, dateOk: bool)
    ensures CreateFamilyRefusal(t, p1, p2, relation, dateOk) in {None, Some(InvalidInput)}
    ensures CreateFamilyRefusal(t, p1, p2, relation, dateOk) == None
      <==> (exists p :: p1 == Some(p) || p2 == Some(p))
           && (forall p :: p1 == Some(p) || p2 == Some(p) ==> p in t.persons)
           && p1 != p2 && relation in {"marriage", "partnership", "unknown", ""} && dateOk
  {
    if p1.Some? {
      assert p1 == Some(p1.value);
    }
    if p2.Some? {
      assert p2 == Some(p2.value);
    }
  }

  // --- The details of a family update ---

  /** A value in an update's changes: plain text, or a value of one of the domain's own types. */
  datatype Value = Text(text: string) | Relation(relation: string) | Date(raw: string) | Cleared

  /** The changes the command records. An empty date clears the old one. */
  function UpdateChanges(relation: Option<string>, place: Option<string>, date: Option<string>): map<string, Value>
  {
    (if relation.Some? then map["relationship_type" := Relation(relation.value)] else map[])
    + (if place.Some? then map["marriage_place" := Text(place.value)] else map[])
    + (if date.Some? then map["marriage_date" := if date.value == "" then Cleared else Date(date.value)] else map[])
  }

  /** What a stored value reads back as: a relationship type is stored as text, a date as a record. */
  function ReadBack(changes: map<string, Value>): map<string, Value>
  {
    map k | k in changes :: if changes[k].Relation? then Text(changes[k].relation) else changes[k]
  }

  /** The projection takes a change only when its value is plain text. */
  function Taken(changes: map<string, Value>, key: string, current: string): string
  {
    if key in changes && changes[key].Text? then changes[key].text else current
  }

  function ProjectFamilyUpdated(row: Family, changes: map<string, Value>, version: int): Family
  {
    row.(relation := Taken(changes, "relationship_type", row.relation),
         place := Taken(changes, "marriage_place", row.place),
         version := version)
  }

  /** The keys of an update are its own, whatever order they are added in. */
  lemma UpdateChangesKeys(relation: Option<string>, place: Option<string>, date: Option<string>)
    ensures
      var changes := UpdateChanges(relation, place, date);
      && ("relationship_type" in changes <==> relation.Some?)
      && (relation.Some? ==> changes["relationship_type"] == Relation(relation.value))
      && ("marriage_place" in changes <==> place.Some?) && (place.Some? ==> changes["marriage_place"] == Text(place.value))
      && ("marriage_date" in changes ==> !changes["marriage_date"].Text?)
  {
    assert "relationship_type"[0] != "marriage_place"[0];
    assert "relationship_type"[0] != "marriage_date"[0];
    assert "marriage_place"[9] != "marriage_date"[9];
  }

  /**
   * Projecting an update in process gives the row that rebuilding from the stored event gives exactly when
   * the update leaves the relationship type alone or repeats it. A marriage date reaches the row neither way.
   */
  lemma UpdateMatchesRebuildIff(row: Family, relation: Option<string>, place: Option<string>, date: Option<string>,
                                version: int, oldDate: string)
    ensures
      var changes := UpdateChanges(relation, place, date);
      && (ProjectFamilyUpdated(row, changes, version) == ProjectFamilyUpdated(row, ReadBack(changes), version)
          <==> relation.None? || relation.value == row.relation)
      && (relation.Some? ==> ProjectFamilyUpdated(row, ReadBack(changes), version).relation == relation.value)
      && Taken(changes, "marriage_date", oldDate) == oldDate == Taken(ReadBack(changes), "marriage_date", oldDate)
  {
    UpdateChangesKeys(relation, place, date);
  }

  lemma OnlyPlaceReaches(row: Family, relation: Option<string>, place: Option<string>, date: Option<string>, version: int)
    ensures ProjectFamilyUpdated(row, UpdateChanges(relation, place, date), version)
         == row.(place := if place.Some? then place.value else row.place, version := version)
  {
    UpdateChangesKeys(relation, place, date);
  }

  /** A marriage updated to a partnership stays a marriage in its row. */
  lemma RelationIsLost(row: Family)
    requires row == FamilyGraph.Family(Some(1), None, "marriage", "", 1)
    ensures ProjectFamilyUpdated(row, UpdateChanges(Some("partnership"), None, None), 2).relation == "marriage"
    ensures ProjectFamilyUpdated(row, ReadBack(UpdateChanges(Some("partnership"), None, None)), 2).relation == "partnership"
  {
    assert "partnership"[0] != "marriage"[0];
    UpdateMatchesRebuildIff(row, Some("partnership"), None, None, 2, "");
  }

  class FamilyHandler {
    /** The read model: person rows with their version, family rows, child links, pedigree edges. */
    var persons: map<Uuid, int>
    var families: map<Uuid, Family>
    var children: set<(Uuid, Uuid)>
    var edges: set<Uuid>

    /** The event store's stream versions. */
    var versions: map<Uuid, nat>

    ghost function Tree(): Tree
      reads this
    {
      FamilyGraph.Tree(persons.Keys, families, children)
    }

    ghost predicate Valid()
      reads this
    {
      TreeOk(Tree()) && forall p :: p in edges <==> IsChild(Tree(), p)
    }

    constructor ()
      ensures Valid() && Tree() == FamilyGraph.Tree({}, map[], {}) && DistinctPartners(Tree())
    {
      persons, families, children, edges, versions := map[], map[], {}, {}, map[];
      new;
      forall p, c ensures !Parent(Tree(), p, c) {
      }
    }

    /** The append half of a command, and the version its projection will carry. */
    method Append(stream: Uuid, expected: int) returns (ok: bool, version: int)
      modifies this`versions
      ensures ok <==> Accepts(old(versions), stream, expected)
      ensures versions == if ok then old(versions)[stream := VersionOf(old(versions), stream) + 1] else old(versions)
      ensures ok ==> version == if expected < 0 then 1 else expected + 1
    {
      var current := if stream in versions then versions[stream] else 0;
      ok := expected < 0 || current == expected;
      if ok {
        versions := versions[stream := current + 1];
      }
      version := if expected < 0 then 1 else expected + 1;
    }

    /** The family a person is a child of. */
    method GetChildFamily(p: Uuid) returns (family: Option<Uuid>)
      requires Valid()
      ensures family.Some? ==> (family.value, p) in children && family.value in families
      ensures family.None? ==> !IsChild(Tree(), p)
    {
      family := None;
      var rows := children;
      while rows != {}
        invariant rows <= children
        invariant forall l :: l in children - rows ==> l.1 != p
      {
        var l :| l in rows;
        if l.1 == p && l.0 in families {
          return Some(l.0);
        }
        rows := rows - {l};
      }
    }

    method HasFamilies(p: Uuid) returns (has: bool)
      ensures has <==> InSomeFamily(Tree(), p)
    {
      has := exists f :: f in families && Partner(families[f], p);
    }

    /**
     * The guard against circular ancestry. It has no visited set: that it terminates at all, and that
     * it decides the reflexive-transitive parent relation, rests on the acyclicity it protects.
     */
    method IsAncestor(potential: Uuid, person: Uuid) returns (found: bool)
      requires Valid()
      ensures found <==> AncestorOrSelf(Tree(), potential, person)
      decreases Ancestors(Tree(), person)
    {
      if potential == person {
        SelfIsAncestor(Tree(), person);
        return true;
      }
      AncestorByParent(Tree(), potential, person);
      var family := GetChildFamily(person);
      if family.None? {
        return false;
      }
      var row := families[family.value];
      ParentsOfChild(Tree(), family.value, person);
      if row.partner1.Some? {
        AncestorsShrink(Tree(), row.partner1.value, person);
        found := IsAncestor(potential, row.partner1.value);
        if found {
          return;
        }
      }
      if row.partner2.Some? {
        AncestorsShrink(Tree(), row.partner2.value, person);
        found := IsAncestor(potential, row.partner2.value);
        if found {
          return;
        }
      }
      found := false;
    }

    method CreatePerson(id: Uuid)
      requires Valid() && id !in persons && VersionOf(versions, id) == 0
      modifies this
      ensures Valid() && persons == old(persons)[id := 1]
      ensures families == old(families) && children == old(children) && edges == old(edges)
    {
      ghost var before := Tree();
      var _, version := Append(id, -1);
      persons := persons[id := version];
      SameParents(before, Tree());
    }

    method DeletePerson(id: Uuid, version: int) returns (refusal: Option<Refusal>)
      requires Valid()
      modifies this
      ensures Valid()
      ensures refusal ==
        if id !in old(persons) then Some(PersonNotFound)
        else if old(persons)[id] != version then Some(Conflict)
        else if InSomeFamily(old(Tree()), id) || IsChild(old(Tree()), id) then Some(PersonHasFamilies)
        else if !Accepts(old(versions), id, version) then Some(Conflict)
        else None
      ensures refusal.Some? ==> unchanged(this)
      ensures refusal.None? ==> persons == old(persons) - {id}
      ensures families == old(families) && children == old(children) && edges == old(edges)
    {
      if id !in persons {
        return Some(PersonNotFound);
      }
      if persons[id] != version {
        return Some(Conflict);
      }
      var partner := HasFamilies(id);
      if partner {
        return Some(PersonHasFamilies);
      }
      var childFamily := GetChildFamily(id);
      if childFamily.Some? {
        return Some(PersonHasFamilies);
      }
      var ok, _ := Append(id, version);
      if !ok {
        return Some(Conflict);
      }
      ghost var before := Tree();
      DeletePersonRow(id);
      NoLinksOf(before, id);
      SameParents(before, Tree());
      refusal := None;
    }

    /** Removes a person's row with its pedigree edge and its child links. */
    method DeletePersonRow(id: Uuid)
      modifies this`persons, this`edges, this`children
      ensures persons == old(persons) - {id} && edges == old(edges) - {id}
      ensures children == set l | l in old(children) && l.1 != id
    {
      persons := persons - {id};
      edges := edges - {id};
      children := set l | l in children && l.1 != id;
    }

    method CreateFamily(id: Uuid, p1: Option<Uuid>, p2: Option<Uuid>, relation: string, place: string, dateOk: bool)
      returns (refusal: Option<Refusal>)
      requires Valid() && id !in families && VersionOf(versions, id) == 0
      modifies this
      ensures Valid() && (old(DistinctPartners(Tree())) ==> DistinctPartners(Tree()))
      ensures refusal == CreateFamilyRefusal(old(Tree()), p1, p2, if relation == "" then "unknown" else relation, dateOk)
      ensures refusal.Some? ==> unchanged(this)
      ensures refusal.None? ==>
        families == old(families)[id := Family(p1, p2, if relation == "" then "unknown" else relation, place, 1)]
      ensures persons == old(persons) && children == old(children) && edges == old(edges)
    {
      if p1.None? && p2.None? {
        return Some(InvalidInput);
      }
      if p1.Some? && p1.value !in persons {
        return Some(InvalidInput);
      }
      if p2.Some? && p2.value !in persons {
        return Some(InvalidInput);
      }
      var parsed := if relation == "" then "unknown" else relation;
      if p1 == p2 || !KnownRelation(parsed) || !dateOk {
        return Some(InvalidInput);
      }
      ghost var before := Tree();
      var _, version := Append(id, -1);
      families := families[id := Family(p1, p2, parsed, place, version)];
      NewFamilyKeeps(before, id, families[id]);
      refusal := None;
    }

    /**
     * Updates a family's details; the endpoint never passes partners. Only the marriage place reaches
     * the row: the projection takes plain strings, and the command records the relationship type and the
     * marriage date as values of other types.
     */
    method UpdateFamily(id: Uuid, relation: Option<string>, place: Option<string>, date: Option<string>, version: int)
      returns (refusal: Option<Refusal>)
      requires Valid()
      modifies this
      ensures Valid() && (old(DistinctPartners(Tree())) ==> DistinctPartners(Tree()))
      ensures refusal ==
        if id !in old(families) then Some(FamilyNotFound)
        else if (relation.Some? || place.Some? || date.Some?) && !Accepts(old(versions), id, version) then Some(Conflict)
        else None
      ensures refusal.Some? ==> unchanged(this)
      ensures refusal.None? && relation.None? && place.None? && date.None? ==> families == old(families)
      ensures refusal.None? && (relation.Some? || place.Some? || date.Some?) ==>
        families == old(families)[id := old(families)[id].(
          place := if place.Some? then place.value else old(families)[id].place,
          version := if version < 0 then 1 else version + 1)]
      ensures persons == old(persons) && children == old(children) && edges == old(edges)
    {
      if id !in families {
        return Some(FamilyNotFound);
      }
      if relation.None? && place.None? && date.None? {
        return None;
      }
      var ok, newVersion := Append(id, version);
      if !ok {
        return Some(Conflict);
      }
      ghost var before := Tree();
      OnlyPlaceReaches(families[id], relation, place, date, newVersion);
      hide ProjectFamilyUpdated;
      families := families[id := ProjectFamilyUpdated(families[id], UpdateChanges(relation, place, date), newVersion)];
      SameParents(before, Tree());
      refusal := None;
    }

    method DeleteFamily(id: Uuid, version: int) returns (refusal: Option<Refusal>)
      requires Valid()
      modifies this
      ensures Valid() && (old(DistinctPartners(Tree())) ==> DistinctPartners(Tree()))
      ensures refusal ==
        if id !in old(families) then Some(FamilyNotFound)
        else if exists c :: (id, c) in old(children) then Some(FamilyHasChildren)
        else if !Accepts(old(versions), id, version) then Some(Conflict)
        else None
      ensures refusal.Some? ==> unchanged(this)
      ensures refusal.None? ==> families == old(families) - {id}
      ensures persons == old(persons) && children == old(children) && edges == old(edges)
    {
      if id !in families {
        return Some(FamilyNotFound);
      }
      var listed := set l | l in children && l.0 == id && l.1 in persons;
      if listed != {} {
        var l :| l in listed;
        assert (id, l.1) == l;
        return Some(FamilyHasChildren);
      }
      NoChildrenListed(Tree(), id, listed);
      var ok, _ := Append(id, version);
      if !ok {
        return Some(Conflict);
      }
      ghost var before := Tree();
      children := set l | l in children && l.0 != id;
      families := families - {id};
      assert children == before.children;
      SmallerKeepsAcyclic(before, Tree());
      refusal := None;
    }

    /** The circular-ancestry check of a link, partner by partner. */
    method IsAncestorOfPartner(c: Uuid, row: Family) returns (circular: bool)
      requires Valid()
      ensures circular <==> exists x :: Partner(row, x) && AncestorOrSelf(Tree(), c, x)
    {
      hide Valid, AncestorOrSelf;
      circular := false;
      if row.partner1.Some? {
        circular := IsAncestor(c, row.partner1.value);
        if circular {
          assert Partner(row, row.partner1.value);
          return;
        }
      }
      if row.partner2.Some? {
        circular := IsAncestor(c, row.partner2.value);
        assert Partner(row, row.partner2.value);
      }
    }

    /** Adds a child to a family unless that would make the child its own ancestor. */
    method LinkChild(f: Uuid, c: Uuid) returns (refusal: Option<Refusal>)
      requires Valid()
      modifies this
      ensures Valid() && (old(DistinctPartners(Tree())) ==> DistinctPartners(Tree()))
      ensures LinkRefusal(old(Tree()), f, c).Some? ==> refusal == LinkRefusal(old(Tree()), f, c)
      ensures LinkRefusal(old(Tree()), f, c).None? ==>
        refusal == if Accepts(old(versions), f, old(families)[f].version) then None else Some(Conflict)
      ensures refusal.Some? ==> unchanged(this)
      ensures refusal.None? ==> children == old(children) + {(f, c)} && edges == old(edges) + {c}
      ensures refusal.None? ==> families == old(families)[f := old(families)[f].(version := old(families)[f].version + 1)]
      ensures persons == old(persons)
    {
      hide TreeOk, AncestorOrSelf, DistinctPartners;
      if f !in families {
        return Some(FamilyNotFound);
      }
      if c !in persons {
        return Some(PersonNotFound);
      }
      var existing := GetChildFamily(c);
      if existing.Some? {
        return Some(ChildAlreadyLinked);
      }
      var row := families[f];
      var circular := IsAncestorOfPartner(c, row);
      if circular {
        return Some(CircularAncestry);
      }
      var ok, _ := Append(f, row.version);
      if !ok {
        return Some(Conflict);
      }
      ghost var before := Tree();
      LinkKeepsTree(before, f, c);
      children := children + {(f, c)};
      edges := edges + {c};
      families := families[f := row.(version := row.version + 1)];
      LinkedChildren(before, f, c);
      LinkedDistinct(before, f, c);
      SameTree(Linked(before, f, c), Tree());
      refusal := None;
    }

    method UnlinkChild(f: Uuid, c: Uuid) returns (refusal: Option<Refusal>)
      requires Valid()
      modifies this
      ensures Valid() && (old(DistinctPartners(Tree())) ==> DistinctPartners(Tree()))
      ensures refusal ==
        if f !in old(families) then Some(FamilyNotFound)
        else if (f, c) !in old(children) then Some(ChildNotInFamily)
        else if !Accepts(old(versions), f, old(families)[f].version) then Some(Conflict)
        else None
      ensures refusal.Some? ==> unchanged(this)
      ensures refusal.None? ==> children == old(children) - {(f, c)} && edges == old(edges) - {c}
      ensures refusal.None? ==> families == old(families)[f := old(families)[f].(version := old(families)[f].version + 1)]
      ensures persons == old(persons)
    {
      hide Acyclic, RefsOk, SomePartner, DistinctPartners;
      if f !in families {
        return Some(FamilyNotFound);
      }
      var childFamily := GetChildFamily(c);
      if childFamily.None? || childFamily.value != f {
        NotInFamily(Tree(), f, c, childFamily);
        return Some(ChildNotInFamily);
      }
      var row := families[f];
      var ok, _ := Append(f, row.version);
      if !ok {
        return Some(Conflict);
      }
      ghost var before := Tree();
      children := children - {(f, c)};
      edges := edges - {c};
      families := families[f := row.(version := row.version + 1)];
      UnlinkKeeps(before, f, c);
      SameTree(before.(children := before.children - {(f, c)}), Tree());
      refusal := None;
    }

    /**
     * Merges one person into another: neither may be an ancestor of the other, nor may they be children
     * of different families. The new tree is the old one with the two nodes contracted.
     */
    method MergePersons(s: Uuid, m: Uuid, survivorVersion: int, mergedVersion: int) returns (refusal: Option<Refusal>)
      requires Valid()
      modifies this
      ensures Valid()
      ensures
        var versionsMatch :=
          s in old(persons) && m in old(persons) && old(persons)[s] == survivorVersion && old(persons)[m] == mergedVersion;
        var guard := MergeRefusal(old(Tree()), s, m, versionsMatch);
        refusal == if guard.Some? then guard else if Accepts(old(versions), s, survivorVersion) then None else Some(Conflict)
      ensures refusal.Some? ==> unchanged(this)
      ensures refusal.None? ==> Tree() == Contracted(old(Tree()), s, m)
      ensures refusal.None? ==> persons == old(persons)[s := if survivorVersion < 0 then 1 else survivorVersion + 1] - {m}
    {
      if s == m {
        return Some(SamePersonMerge);
      }
      if s !in persons || m !in persons {
        return Some(PersonNotFound);
      }
      if persons[s] != survivorVersion || persons[m] != mergedVersion {
        return Some(Conflict);
      }
      var circular := IsAncestor(m, s);
      if circular {
        return Some(CircularMerge);
      }
      circular := IsAncestor(s, m);
      if circular {
        return Some(CircularMerge);
      }
      var survivorFamily := GetChildFamily(s);
      var mergedFamily := GetChildFamily(m);
      SameFamilyIff(Tree(), s, m, survivorFamily, mergedFamily);
      if survivorFamily.Some? && mergedFamily.Some? && survivorFamily.value != mergedFamily.value {
        return Some(ChildFamilyConflict);
      }
      var ok, version := Append(s, survivorVersion);
      if !ok {
        return Some(Conflict);
      }
      ghost var before := Tree();
      MergeKeepsTree(before, s, m);
      ProjectPersonMerged(s, m, version);
      ContractedChild(before, s, m);
      refusal := None;
    }

    /** The projection of a merge: the survivor's row, the families' partners, the child link, the merged row. */
    method ProjectPersonMerged(s: Uuid, m: Uuid, version: int)
      requires Valid() && s in persons && m in persons && s != m
      modifies this`persons, this`families, this`children, this`edges
      ensures Tree() == Contracted(old(Tree()), s, m)
      ensures persons == old(persons)[s := version] - {m}
      ensures forall p :: p in edges <==> p != m && (p in old(edges) || (p == s && m in old(edges)))
    {
      hide Acyclic, SomePartner, DistinctPartners, ContractedChildren;
      persons := persons[s := version];
      RenamePartners(s, m);
      ContractedByLinks(old(Tree()), Tree(), s, m);
      TransferChildLink(s, m);
      DeletePersonRow(m);
      assert persons.Keys == old(persons.Keys) - {m};
    }

    method RenamePartners(s: Uuid, m: Uuid)
      modifies this`families
      ensures families == map f | f in old(families) :: RenameFamily(old(families)[f], s, m)
    {
      ghost var before := families;
      var todo := set f | f in families && Partner(families[f], m);
      while todo != {}
        invariant todo <= families.Keys == before.Keys
        invariant forall f :: f in families ==>
          families[f] == if f in todo then before[f] else RenameFamily(before[f], s, m)
      {
        var f :| f in todo;
        var row := families[f];
        if row.partner1 == Some(m) {
          row := row.(partner1 := Some(s));
        }
        if row.partner2 == Some(m) {
          row := row.(partner2 := Some(s));
        }
        families := families[f := row];
        todo := todo - {f};
      }
    }

    /** Passes the merged person's place as a child on to a survivor that has none. */
    method TransferChildLink(s: Uuid, m: Uuid)
      requires s != m && (forall p :: p in edges <==> exists f :: (f, p) in children)
      requires OneFamilyEach(Tree()) && forall l :: l in children ==> l.0 in families
      modifies this`children, this`edges
      ensures (set l | l in children && l.1 != m) == ContractedChildren(old(Tree()), s, m)
      ensures forall p :: p in edges && p != m <==> p != m && (p in old(edges) || (p == s && m in old(edges)))
    {
      ghost var before := Tree();
      if m !in edges {
        NoLinksOf(before, m);
        return;
      }
      var mine := set l | l in children && l.1 == m && l.0 in families;
      assert mine != {} by {
        var f :| (f, m) in children;
        assert (f, m) in mine;
      }
      var link :| link in mine;
      children := children - {link};
      edges := edges - {m};
      var theirs := set l | l in children && l.1 == s && l.0 in families;
      if theirs == {} {
        assert forall l :: l in before.children && l.1 == s ==> l in theirs;
        forall f ensures (f, s) !in before.children {
          assert (f, s).1 == s;
        }
        children := children + {(link.0, s)};
        edges := edges + {s};
      } else {
        var l :| l in theirs;
        assert (l.0, s) in before.children;
      }
    }
  }

  // --- The rows behind the tree ---

  /** Links and partners alone decide the parent relation. */
  lemma SameParents(t: Tree, u: Tree)
    requires Acyclic(t) && t.children == u.children && t.families.Keys == u.families.Keys
    requires forall f, p :: f in t.families ==> (Partner(t.families[f], p) <==> Partner(u.families[f], p))
    ensures Acyclic(u)
  {
    SmallerKeepsAcyclic(t, u);
  }

  /** The same links and partners make the same tree. */
  lemma SameTree(t: Tree, u: Tree)
    requires TreeOk(t) && t.persons == u.persons && t.children == u.children && t.families.Keys == u.families.Keys
    requires forall f :: f in t.families ==>
      t.families[f].partner1 == u.families[f].partner1 && t.families[f].partner2 == u.families[f].partner2
    ensures TreeOk(u) && (DistinctPartners(t) ==> DistinctPartners(u))
    ensures forall p :: IsChild(u, p) <==> IsChild(t, p)
  {
    SameParents(t, u);
  }

  lemma NotInFamily(t: Tree, f: Uuid, c: Uuid, childFamily: Option<Uuid>)
    requires OneFamilyEach(t) && childFamily != Some(f)
    requires if childFamily.Some? then (childFamily.value, c) in t.children else !IsChild(t, c)
    ensures (f, c) !in t.children
  {
    if childFamily.Some? {
      assert (childFamily.value, c).1 == (f, c).1;
    }
  }

  lemma ParentsOfChild(t: Tree, f: Uuid, c: Uuid)
    requires OneFamilyEach(t) && f in t.families && (f, c) in t.children
    ensures forall m :: Parent(t, m, c) <==> Partner(t.families[f], m)
  {
    forall m ensures Parent(t, m, c) <==> Partner(t.families[f], m) {
      if Parent(t, m, c) {
        var g :| ParentVia(t, g, m, c);
        assert (g, c).1 == (f, c).1;
      }
      if Partner(t.families[f], m) {
        assert ParentVia(t, f, m, c);
      }
    }
  }

  lemma NoLinksOf(t: Tree, p: Uuid)
    requires !IsChild(t, p)
    ensures (set l | l in t.children && l.1 != p) == t.children
  {
    forall l | l in t.children ensures l.1 != p {
      assert (l.0, l.1) == l;
    }
  }

  lemma NoChildrenListed(t: Tree, f: Uuid, listed: set<(Uuid, Uuid)>)
    requires RefsOk(t) && listed == {}
    requires forall l :: l in t.children && l.0 == f && l.1 in t.persons ==> l in listed
    ensures forall c :: (f, c) !in t.children
  {
    forall c ensures (f, c) !in t.children {
      assert (f, c).0 == f && (f, c).1 == c;
    }
  }

  lemma NewFamilyKeeps(t: Tree, f: Uuid, row: Family)
    requires TreeOk(t) && f !in t.families
    requires (row.partner1.Some? || row.partner2.Some?) && forall p :: Partner(row, p) ==> p in t.persons
    ensures TreeOk(t.(families := t.families[f := row]))
    ensures row.partner1 != row.partner2 && DistinctPartners(t) ==> DistinctPartners(t.(families := t.families[f := row]))
  {
    var u := t.(families := t.families[f := row]);
    assert forall c :: (f, c) !in t.children;
    SmallerKeepsAcyclic(t, u);
  }

  lemma LinkedDistinct(t: Tree, f: Uuid, c: Uuid)
    ensures DistinctPartners(t) ==> DistinctPartners(Linked(t, f, c))
  {
  }

  lemma LinkedChildren(t: Tree, f: Uuid, c: Uuid)
    ensures forall p :: IsChild(Linked(t, f, c), p) <==> IsChild(t, p) || p == c
  {
    forall p ensures IsChild(Linked(t, f, c), p) <==> IsChild(t, p) || p == c {
      if IsChild(t, p) {
        var g :| (g, p) in t.children;
        assert (g, p) in Linked(t, f, c).children;
      }
      assert (f, c) in Linked(t, f, c).children;
    }
  }

  lemma UnlinkKeeps(t: Tree, f: Uuid, c: Uuid)
    requires TreeOk(t) && (f, c) in t.children
    ensures TreeOk(t.(children := t.children - {(f, c)}))
    ensures DistinctPartners(t) ==> DistinctPartners(t.(children := t.children - {(f, c)}))
    ensures forall p :: IsChild(t.(children := t.children - {(f, c)}), p) <==> IsChild(t, p) && p != c
  {
    var u := t.(children := t.children - {(f, c)});
    SmallerKeepsAcyclic(t, u);
    forall p ensures IsChild(u, p) <==> IsChild(t, p) && p != c {
      if IsChild(t, p) {
        var g :| (g, p) in t.children;
        assert p == c ==> (g, p).1 == (f, c).1;
        assert p != c ==> (g, p) in u.children;
      }
      if IsChild(u, p) {
        var g :| (g, p) in u.children;
        assert (g, p) in t.children;
        assert p == c ==> (g, p).1 == (f, c).1;
      }
    }
  }

  /** The check on the two child families is the guard's own condition. */
  lemma SameFamilyIff(t: Tree, s: Uuid, m: Uuid, sf: Option<Uuid>, mf: Option<Uuid>)
    requires OneFamilyEach(t)
    requires if sf.Some? then (sf.value, s) in t.children else !IsChild(t, s)
    requires if mf.Some? then (mf.value, m) in t.children else !IsChild(t, m)
    ensures (forall k, l :: k in t.children && l in t.children && k.1 == s && l.1 == m ==> k.0 == l.0)
      <==> !(sf.Some? && mf.Some? && sf.value != mf.value)
  {
    if sf.Some? && mf.Some? {
      var k, l := (sf.value, s), (mf.value, m);
      assert k in t.children && l in t.children && k.1 == s && l.1 == m;
    } else {
      forall k | k in t.children ensures IsChild(t, k.1) {
        assert (k.0, k.1) == k;
      }
    }
  }

  lemma ContractedByLinks(t: Tree, u: Tree, s: Uuid, m: Uuid)
    requires t.children == u.children
    ensures ContractedChildren(t, s, m) == ContractedChildren(u, s, m)
  {
  }

  lemma ContractedChild(t: Tree, s: Uuid, m: Uuid)
    requires s != m
    ensures forall p :: IsChild(Contracted(t, s, m), p) <==> p != m && (IsChild(t, p) || (p == s && IsChild(t, m)))
  {
    var u := Contracted(t, s, m);
    forall p ensures IsChild(u, p) <==> p != m && (IsChild(t, p) || (p == s && IsChild(t, m))) {
      if IsChild(u, p) {
        var f :| (f, p) in u.children;
        if (f, p) !in t.children {
          assert (f, m) in t.children;
        }
      }
      if p != m && IsChild(t, p) {
        var f :| (f, p) in t.children;
        assert (f, p) in u.children;
      } else if p == s && IsChild(t, m) {
        var f :| (f, m) in t.children;
        assert (f, s) in u.children;
      }
    }
  }
}
