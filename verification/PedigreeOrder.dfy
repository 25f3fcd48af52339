/**
 * Where the pedigree shows whom, from the recorded parents alone: the tree is walked father's side first,
 * and a person met again is passed over with everything above them, even where the limit cut them short
 * the first time.
 */
module PedigreeOrder {
  import opened Base
  import opened Ahnentafel

  /** The place of a path when the full tree of this depth is walked, a person first, then father's side. */
  function Rank(path: seq<Turn>, limit: nat): (r: nat)
    requires |path| <= limit
    decreases |path|
  {
    if path == [] then 0
    else 1 + (if path[0] == Father then 0 else Power(limit) - 1) + Rank(path[1..], limit - 1)
  }

  lemma {:induction false} RankBound(path: seq<Turn>, limit: nat)
    requires |path| <= limit
    ensures Rank(path, limit) < Power(limit + 1) - 1
    decreases |path|
  {
    if path != [] {
      RankBound(path[1..], limit - 1);
    }
  }

  /** A person is walked before their parents. */
  lemma {:induction false} RankOfPrefix(path: seq<Turn>, turn: Turn, limit: nat)
    requires |path| < limit
    ensures Rank(path, limit) < Rank(path + [turn], limit)
    decreases |path|
  {
    if path != [] {
      assert (path + [turn])[1..] == path[1..] + [turn];
      RankOfPrefix(path[1..], turn, limit - 1);
    }
  }

  /**
   * The walk arrives at the end of a line and finds a person it has not met: the line is one of recorded
   * parents on file, the person before its last turn was reached on it, and nobody walked earlier reached
   * the same person.
   */
  ghost predicate Reached(persons: set<Uuid>, edges: map<Uuid, Parents>, id: Uuid, limit: nat, path: seq<Turn>)
    requires |path| <= limit
    decreases Rank(path, limit)
  {
    && Line(persons, edges, id, limit, path)
    && (path != [] ==> (PathSplits(path, limit); Reached(persons, edges, id, limit, path[..|path| - 1])))
    && forall o: seq<Turn> :: |o| <= limit && Rank(o, limit) < Rank(path, limit) && Climb(edges, id, o) == Climb(edges, id, path) ==>
         !Reached(persons, edges, id, limit, o)
  }

  lemma {:induction false} PathSplits(path: seq<Turn>, limit: nat)
    requires path != [] && |path| <= limit
    ensures path[..|path| - 1] + [path[|path| - 1]] == path
    ensures Rank(path[..|path| - 1], limit) < Rank(path, limit)
  {
    RankOfPrefix(path[..|path| - 1], path[|path| - 1], limit);
    assert path[..|path| - 1] + [path[|path| - 1]] == path;
  }

  // --- The tree is that walk ---

  /** Whom the walk of a tree has met when it arrives at a path. */
  function MetBefore(t: Pedigree, before: set<Uuid>, path: seq<Turn>): set<Uuid>
    decreases |path|
  {
    if path == [] || t.Nobody? then before
    else if path[0] == Father then MetBefore(t.father, before + {t.id}, path[1..])
    else MetBefore(t.mother, before + {t.id} + Ids(t.father), path[1..])
  }

  /** The tree shows `x` at `o`, a place walked before the path. */
  ghost predicate MetAt(t: Pedigree, limit: nat, path: seq<Turn>, x: Uuid, o: seq<Turn>)
    requires |path| <= limit
  {
    |o| <= limit && Rank(o, limit) < Rank(path, limit) && At(t, o).Person? && At(t, o).id == x
  }

  /** That is: whom it had met before it began, or shows at an earlier place. */
  lemma {:induction false} MetBeforeIff(t: Pedigree, depth: nat, limit: nat, before: set<Uuid>, path: seq<Turn>, x: Uuid)
    requires depth <= limit && Generations(t, limit - depth, limit) && |path| <= depth
    ensures x in MetBefore(t, before, path) <==> x in before || exists o :: MetAt(t, depth, path, x, o)
    decreases |path|
  {
    hide MetAt;
    if t.Nobody? || path == [] {
      NothingEarlier(t, depth, path, x);
    } else {
      var self := before + {t.id};
      var met := if path[0] == Father then self else self + Ids(t.father);
      var side, below, rest := Side(t, path[0]), depth - 1, path[1..];
      MetBeforeIff(side, below, limit, met, rest, x);
      if o :| MetAt(side, below, rest, x, o) {
        EarlierOnSide(t, depth, path, x, o);
      }
      if o :| MetAt(t, depth, path, x, o) {
        EarlierIsMet(t, depth, path, x, o);
      }
      if x == t.id || (path[0] == Mother && x in Ids(t.father)) {
        MetIsEarlier(t, depth, limit, path, x);
      }
    }
  }

  lemma NothingEarlier(t: Pedigree, depth: nat, path: seq<Turn>, x: Uuid)
    requires |path| <= depth && (t.Nobody? || path == [])
    ensures forall o :: !MetAt(t, depth, path, x, o)
  {
  }

  lemma EarlierOnSide(t: Pedigree, depth: nat, path: seq<Turn>, x: Uuid, o: seq<Turn>)
    requires t.Person? && path != [] && |path| <= depth && MetAt(Side(t, path[0]), depth - 1, path[1..], x, o)
    ensures MetAt(t, depth, path, x, [path[0]] + o)
  {
    assert ([path[0]] + o)[1..] == o;
  }

  /** Earlier than a path: the person at the root, the father's side of a path on the mother's, or earlier on its own side. */
  lemma EarlierIsMet(t: Pedigree, depth: nat, path: seq<Turn>, x: Uuid, o: seq<Turn>)
    requires t.Person? && path != [] && |path| <= depth && MetAt(t, depth, path, x, o)
    ensures x == t.id || (path[0] == Mother && x in Ids(t.father))
      || (o != [] && MetAt(Side(t, path[0]), depth - 1, path[1..], x, o[1..]))
  {
    if o != [] && o[0] != path[0] {
      RankBound(path[1..], depth - 1);
      AtPathInIds(Side(t, o[0]), o[1..]);
    }
  }

  lemma MetIsEarlier(t: Pedigree, depth: nat, limit: nat, path: seq<Turn>, x: Uuid)
    requires t.Person? && depth <= limit && Generations(t, limit - depth, limit) && path != [] && |path| <= depth
    requires x == t.id || (path[0] == Mother && x in Ids(t.father))
    ensures exists o :: MetAt(t, depth, path, x, o)
  {
    if x == t.id {
      assert MetAt(t, depth, path, x, []);
    } else {
      var o := IdAtPath(t.father, x);
      AtGeneration(t.father, limit - depth + 1, limit, o);
      RankBound(o, depth - 1);
      assert ([Father] + o)[1..] == o;
      assert MetAt(t, depth, path, x, [Father] + o);
    }
  }

  /** The walk at the end of a path that is shown: a parent is shown next unless met before. */
  lemma {:induction false} WalkedAt(t: Pedigree, persons: set<Uuid>, edges: map<Uuid, Parents>, limit: nat, before: set<Uuid>,
                                    path: seq<Turn>, turn: Turn)
    requires Walked(t, persons, edges, limit, before) && At(t, path).Person?
    ensures ShownUnlessBefore(At(t, path), turn, persons, edges, limit, MetBefore(t, before, path + [turn]))
    ensures At(t, path + [turn]) == Side(At(t, path), turn)
    decreases |path|
  {
    if path == [] {
      assert (path + [turn])[1..] == [];
    } else {
      assert (path + [turn])[1..] == path[1..] + [turn];
      var self := before + {t.id};
      WalkedAt(Side(t, path[0]), persons, edges, limit, if path[0] == Father then self else self + Ids(t.father), path[1..], turn);
    }
  }

  /**
   * A line is shown to its end exactly when the walk reaches it: what the report shows, and where, is a
   * function of the recorded parents alone.
   */
  lemma {:induction false} ShownIffReached(t: Pedigree, persons: set<Uuid>, edges: map<Uuid, Parents>, limit: nat, path: seq<Turn>)
    requires Built(t, persons, edges, limit) && |path| <= limit
    ensures At(t, path).Person? <==> Reached(persons, edges, t.id, limit, path)
    decreases Rank(path, limit)
  {
    hide EachOnce, Generations, FollowsEdges, ParentsSeen, Walked;
    if path != [] {
      PathSplits(path, limit);
      ShownIffReached(t, persons, edges, limit, path[..|path| - 1]);
    }
    forall o: seq<Turn> | |o| <= limit && Rank(o, limit) < Rank(path, limit)
      ensures At(t, o).Person? <==> Reached(persons, edges, t.id, limit, o)
    {
      ShownIffReached(t, persons, edges, limit, o);
    }
    if At(t, path).Person? {
      ShownIsReached(t, persons, edges, limit, path);
    } else if Reached(persons, edges, t.id, limit, path) {
      NotShownIsMet(t, persons, edges, limit, path);
    }
  }

  lemma {:induction false} ShownIsReached(t: Pedigree, persons: set<Uuid>, edges: map<Uuid, Parents>, limit: nat, path: seq<Turn>)
    requires Built(t, persons, edges, limit) && |path| <= limit && At(t, path).Person?
    requires path != [] && At(t, path[..|path| - 1]).Person? ==> Reached(persons, edges, t.id, limit, path[..|path| - 1])
    requires forall o: seq<Turn> :: |o| <= limit && Rank(o, limit) < Rank(path, limit) ==>
      (At(t, o).Person? <==> Reached(persons, edges, t.id, limit, o))
    ensures Reached(persons, edges, t.id, limit, path)
  {
    ShownIsLine(t, persons, edges, limit, path);
    if path != [] {
      PrefixShown(t, path, |path| - 1);
    }
    forall o: seq<Turn> | |o| <= limit && Rank(o, limit) < Rank(path, limit) && Climb(edges, t.id, o) == Climb(edges, t.id, path)
      ensures !Reached(persons, edges, t.id, limit, o)
    {
      if At(t, o).Person? {
        AtClimbs(t, edges, o);
        OnePlace(t, o, path);
      }
    }
  }

  /** A line whose last person is missing there: the walk had met them before. */
  lemma NotShownIsMet(t: Pedigree, persons: set<Uuid>, edges: map<Uuid, Parents>, limit: nat, path: seq<Turn>)
    requires Built(t, persons, edges, limit) && Line(persons, edges, t.id, limit, path) && !At(t, path).Person?
    requires path != [] && At(t, path[..|path| - 1]).Person?
    ensures exists o :: MetAt(t, limit, path, Climb(edges, t.id, path).value, o) && Climb(edges, t.id, o) == Climb(edges, t.id, path)
  {
    var n := |path| - 1;
    PathSplits(path, limit);
    AtClimbs(t, edges, path[..n]);
    AtGeneration(t, 0, limit, path[..n]);
    ClimbLast(edges, t.id, path[..n], path[n]);
    WalkedAt(t, persons, edges, limit, {}, path[..n], path[n]);
    assert path[..n + 1] == path;
    MetBeforeIff(t, limit, limit, {}, path, Climb(edges, t.id, path).value);
    var o :| MetAt(t, limit, path, Climb(edges, t.id, path).value, o);
    AtClimbs(t, edges, o);
  }
  /** Two trees built from the same records for the same person are the same tree. */
  lemma OneTree(t: Pedigree, u: Pedigree, persons: set<Uuid>, edges: map<Uuid, Parents>, limit: nat)
    requires Built(t, persons, edges, limit) && Built(u, persons, edges, limit) && t.id == u.id
    ensures t == u
  {
    SameWalk(t, u, persons, edges, limit, {}, 0);
  }

  lemma {:induction false} SameWalk(t: Pedigree, u: Pedigree, persons: set<Uuid>, edges: map<Uuid, Parents>, limit: nat,
                                    before: set<Uuid>, g: nat)
    requires Walked(t, persons, edges, limit, before) && Walked(u, persons, edges, limit, before)
    requires FollowsEdges(t, edges) && FollowsEdges(u, edges) && Generations(t, g, limit) && Generations(u, g, limit)
    requires t.Person? == u.Person? && (t.Person? ==> t.id == u.id)
    ensures t == u
    decreases t
  {
    if t.Person? {
      var self := before + {t.id};
      SameWalk(t.father, u.father, persons, edges, limit, self, g + 1);
      SameWalk(t.mother, u.mother, persons, edges, limit, self + Ids(t.father), g + 1);
    }
  }

  // --- Who is missing ---

  /** The walk reaches the person somewhere. */
  ghost predicate Found(persons: set<Uuid>, edges: map<Uuid, Parents>, id: Uuid, limit: nat, x: Uuid)
  {
    exists o: seq<Turn> :: |o| <= limit && Climb(edges, id, o) == Some(x) && Reached(persons, edges, id, limit, o)
  }

  lemma FoundIffShown(t: Pedigree, persons: set<Uuid>, edges: map<Uuid, Parents>, limit: nat, x: Uuid)
    requires Built(t, persons, edges, limit)
    ensures x in Ids(t) <==> Found(persons, edges, t.id, limit, x)
  {
    hide Reached, Ids;
    if x in Ids(t) {
      var o := IdAtPath(t, x);
      AtGeneration(t, 0, limit, o);
      AtClimbs(t, edges, o);
      ShownIffReached(t, persons, edges, limit, o);
    }
    if o: seq<Turn> :| |o| <= limit && Climb(edges, t.id, o) == Some(x) && Reached(persons, edges, t.id, limit, o) {
      ShownIffReached(t, persons, edges, limit, o);
      AtClimbs(t, edges, o);
      AtPathInIds(t, o);
    }
  }

  /** A line of recorded parents within the limit ends at a person the walk reaches nowhere. */
  ghost predicate SomebodyMissing(persons: set<Uuid>, edges: map<Uuid, Parents>, id: Uuid, limit: nat)
  {
    exists path :: Line(persons, edges, id, limit, path) && !Found(persons, edges, id, limit, Climb(edges, id, path).value)
  }

  /** A person reached at the limit stands on a shorter line too, and a parent on that line is reached nowhere. */
  ghost predicate CutShort(persons: set<Uuid>, edges: map<Uuid, Parents>, id: Uuid, limit: nat, deep: seq<Turn>, line: seq<Turn>)
  {
    && |deep| == limit && Reached(persons, edges, id, limit, deep)
    && line != [] && Line(persons, edges, id, limit, line)
    && Climb(edges, id, line[..|line| - 1]) == Climb(edges, id, deep)
    && !Found(persons, edges, id, limit, Climb(edges, id, line).value)
  }

  /**
   * Exactly when an ancestor within the limit is missing from the report altogether: when a person the
   * walk first meets at the limit, where it goes no further, stands on a shorter line too, and a parent
   * next on that line is met nowhere else.
   */
  lemma SomebodyMissingIff(t: Pedigree, persons: set<Uuid>, edges: map<Uuid, Parents>, limit: nat)
    requires Built(t, persons, edges, limit)
    ensures SomebodyMissing(persons, edges, t.id, limit)
      <==> exists deep, line :: CutShort(persons, edges, t.id, limit, deep, line)
  {
    hide Found, Reached, EachOnce, Generations, FollowsEdges, ParentsSeen, Walked;
    if path :| Line(persons, edges, t.id, limit, path) && !Found(persons, edges, t.id, limit, Climb(edges, t.id, path).value) {
      var deep, line := WhereCutShort(t, persons, edges, limit, path);
    }
  }

  lemma {:induction false} WhereCutShort(t: Pedigree, persons: set<Uuid>, edges: map<Uuid, Parents>, limit: nat, path: seq<Turn>)
    returns (deep: seq<Turn>, line: seq<Turn>)
    requires Built(t, persons, edges, limit) && Line(persons, edges, t.id, limit, path)
    requires !Found(persons, edges, t.id, limit, Climb(edges, t.id, path).value)
    ensures CutShort(persons, edges, t.id, limit, deep, line)
    decreases |path|
  {
    hide Found, Reached, EachOnce, Walked;
    FoundIffShown(t, persons, edges, limit, Climb(edges, t.id, path).value);
    var n := |path| - 1;
    assert path != [];
    LineUpTo(persons, edges, t.id, limit, path, n);
    var m := Climb(edges, t.id, path[..n]).value;
    FoundIffShown(t, persons, edges, limit, m);
    if m !in Ids(t) {
      deep, line := WhereCutShort(t, persons, edges, limit, path[..n]);
    } else {
      line := path;
      deep := IdAtPath(t, m);
      AtGeneration(t, 0, limit, deep);
      AtClimbs(t, edges, deep);
      ShownIffReached(t, persons, edges, limit, deep);
      if |deep| < limit {
        ParentShown(t, persons, edges, limit, path, deep);
      }
    }
  }

  /** The parent next on a line is shown if the person before is shown below the limit. */
  lemma ParentShown(t: Pedigree, persons: set<Uuid>, edges: map<Uuid, Parents>, limit: nat, path: seq<Turn>, deep: seq<Turn>)
    requires Built(t, persons, edges, limit) && Line(persons, edges, t.id, limit, path) && path != []
    requires At(t, deep).Person? && |deep| < limit && Climb(edges, t.id, path[..|path| - 1]) == Some(At(t, deep).id)
    ensures Climb(edges, t.id, path).value in Ids(t)
  {
    var n := |path| - 1;
    assert path[..n] + [path[n]] == path && path[..n + 1] == path;
    AtGeneration(t, 0, limit, deep);
    ParentInTree(t, persons, edges, limit, Ids(t), deep, path[n]);
    ClimbLast(edges, t.id, path[..n], path[n]);
  }

  /** No person is met both on a line as long as the limit and on a shorter one. */
  ghost predicate NobodyAtTwoDepths(persons: set<Uuid>, edges: map<Uuid, Parents>, id: Uuid, limit: nat)
  {
    forall p, q :: Line(persons, edges, id, limit, p) && Line(persons, edges, id, limit, q) && |q| < |p| == limit ==>
      Climb(edges, id, p) != Climb(edges, id, q)
  }

  lemma NothingCutShort(persons: set<Uuid>, edges: map<Uuid, Parents>, id: Uuid, limit: nat, deep: seq<Turn>, line: seq<Turn>)
    requires NobodyAtTwoDepths(persons, edges, id, limit)
    ensures !CutShort(persons, edges, id, limit, deep, line)
  {
    if line != [] && Line(persons, edges, id, limit, line) {
      LineUpTo(persons, edges, id, limit, line, |line| - 1);
    }
  }

  /** So under a condition on the records alone nobody within the limit is missing. */
  lemma NobodyMissing(t: Pedigree, persons: set<Uuid>, edges: map<Uuid, Parents>, limit: nat, path: seq<Turn>)
    requires Built(t, persons, edges, limit) && NobodyAtTwoDepths(persons, edges, t.id, limit)
    requires Line(persons, edges, t.id, limit, path)
    ensures Climb(edges, t.id, path).value in Ids(t)
  {
    hide NobodyAtTwoDepths, CutShort, Found, EachOnce, Generations, FollowsEdges, ParentsSeen, Walked;
    FoundIffShown(t, persons, edges, limit, Climb(edges, t.id, path).value);
    SomebodyMissingIff(t, persons, edges, limit);
    forall deep, line ensures !CutShort(persons, edges, t.id, limit, deep, line) {
      NothingCutShort(persons, edges, t.id, limit, deep, line);
    }
  }

  const SMALL_TREE := Person(1, 0, Person(2, 1, Nobody, Person(3, 2, Nobody, Nobody)), Nobody)

  lemma SmallTreeBuilt(edges: map<Uuid, Parents>)
    requires edges == map[1 := Parents(Some(2), Some(3)), 2 := Parents(None, Some(3)), 3 := Parents(Some(4), None)]
    ensures Built(SMALL_TREE, {1, 2, 3, 4}, edges, 2) && Ids(SMALL_TREE) == {1, 2, 3}
  {
    var deepest, persons := Person(3, 2, Nobody, Nobody), {1, 2, 3, 4};
    var father := Person(2, 1, Nobody, deepest);
    assert Ids(deepest) == {3} && Ids(father) == {2, 3} && Ids(SMALL_TREE) == {1, 2, 3};
    assert edges[2] == Parents(None, Some(3)) && edges[1] == Parents(Some(2), Some(3));
    assert EachOnce(father) && Generations(father, 1, 2) && FollowsEdges(father, edges);
    assert ParentsSeen(deepest, persons, edges, 2, {1, 2, 3}) && ParentsSeen(father, persons, edges, 2, {1, 2, 3});
    assert Walked(deepest, persons, edges, 2, {1, 2}) && {1} + {2} == {1, 2} && {1, 2} + Ids(Nobody) == {1, 2};
    assert Walked(father, persons, edges, 2, {1}) && {} + {1} == {1};
  }

  /**
   * A report that loses an ancestor: 3 is the subject's mother and, on the father's side, a grandmother
   * shown first, at the limit of two generations; so 3's father 4, a grandfather, is nowhere shown.
   */
  lemma LimitLosesAnAncestor() returns (t: Pedigree, edges: map<Uuid, Parents>)
    ensures Built(t, {1, 2, 3, 4}, edges, 2) && t.id == 1
    ensures Line({1, 2, 3, 4}, edges, 1, 2, [Mother, Father]) && Climb(edges, 1, [Mother, Father]) == Some(4)
    ensures 4 !in Ids(t) && SomebodyMissing({1, 2, 3, 4}, edges, 1, 2)
  {
    edges := map[1 := Parents(Some(2), Some(3)), 2 := Parents(None, Some(3)), 3 := Parents(Some(4), None)];
    t := SMALL_TREE;
    SmallTreeBuilt(edges);
    var path := [Mother, Father];
    assert path[..0] == [] && path[..1] == [Mother] && path[..2] == path && path[1..] == [Father] && path[1..][1..] == [];
    assert [Mother][1..] == [];
    FoundIffShown(t, {1, 2, 3, 4}, edges, 2, 4);
  }
}
