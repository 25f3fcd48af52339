/**
 * The Ahnentafel report: the pedigree tree it is built from, the numbers it gives out, and the decoder
 * that turns a number back into a line of descent.
 */
module Ahnentafel {
  import opened Base

  datatype Pedigree = Nobody | Person(id: Uuid, generation: nat, father: Pedigree, mother: Pedigree)

  datatype Parents = Parents(father: Option<Uuid>, mother: Option<Uuid>)

  datatype Turn = Father | Mother

  datatype Entry = Entry(number: nat, generation: nat, id: Uuid)

  // --- Numbers and paths ---

  /** The path a number stands for, decoded by halving. */
  function PathOf(n: nat): (path: seq<Turn>)
    requires n >= 1
  {
    if n == 1 then [] else PathOf(n / 2) + [if n % 2 == 0 then Father else Mother]
  }

  /** The number a path gets, doubling along the way. */
  function NumberOf(path: seq<Turn>): (n: nat)
    ensures n >= 1
  {
    if path == [] then 1
    else 2 * NumberOf(path[..|path| - 1]) + if path[|path| - 1] == Father then 0 else 1
  }

  lemma {:induction false} NumberOfPath(n: nat)
    requires n >= 1
    ensures NumberOf(PathOf(n)) == n
  {
    if n > 1 {
      NumberOfPath(n / 2);
      assert PathOf(n)[..|PathOf(n)| - 1] == PathOf(n / 2);
    }
  }

  lemma {:induction false} PathOfNumber(path: seq<Turn>)
    ensures PathOf(NumberOf(path)) == path
  {
    if path != [] {
      PathOfNumber(path[..|path| - 1]);
      assert NumberOf(path) / 2 == NumberOf(path[..|path| - 1]);
    }
  }

  /** A father's number is twice his child's, a mother's one more. */
  lemma ParentsNumbers(path: seq<Turn>)
    ensures NumberOf([]) == 1
    ensures NumberOf(path + [Father]) == 2 * NumberOf(path) && NumberOf(path + [Mother]) == 2 * NumberOf(path) + 1
  {
    assert (path + [Father])[..|path|] == path && (path + [Mother])[..|path|] == path;
  }

  function Power(d: nat): (p: nat)
    ensures p >= 1
  {
    if d == 0 then 1 else 2 * Power(d - 1)
  }

  /** The numbers of a generation fill its own power of two. */
  lemma {:induction false} NumberRange(n: nat)
    requires n >= 1
    ensures Power(|PathOf(n)|) <= n < Power(|PathOf(n)| + 1)
  {
    if n > 1 {
      NumberRange(n / 2);
    }
  }

  // --- The relationship label ---

  function Word(t: Turn): string
  {
    if t == Father then "Father" else "Mother"
  }

  function Label(path: seq<Turn>): string
  {
    if path == [] then ""
    else if |path| == 1 then Word(path[0])
    else Label(path[..|path| - 1]) + "'s " + Word(path[|path| - 1])
  }

  /** Decodes a number by halving, prepending a turn each time. */
  method GetRelationLabel(num: nat) returns (text: string)
    requires num >= 1
    ensures text == Label(PathOf(num))
  {
    assert PathOf(1) == [];
    if num == 1 {
      return "";
    }
    if num == 2 {
      assert PathOf(2) == [Father];
      return "Father";
    }
    if num == 3 {
      assert PathOf(3) == [Mother];
      return "Mother";
    }
    var path := DecodePath(num);
    if |path| == 0 {
      return "";
    }
    text := Word(path[0]);
    assert path[..1] == [path[0]];
    for i := 1 to |path|
      invariant text == Label(path[..i])
    {
      LabelStep(path, i);
      text := text + "'s " + Word(path[i]);
    }
    assert path[..|path|] == path;
  }

  lemma LabelStep(path: seq<Turn>, i: nat)
    requires 1 <= i < |path|
    ensures Label(path[..i + 1]) == Label(path[..i]) + "'s " + Word(path[i])
  {
    assert path[..i + 1][..i] == path[..i];
  }

  lemma FirstLabels()
    ensures Label(PathOf(1)) == "" && Label(PathOf(2)) == "Father" && Label(PathOf(3)) == "Mother"
  {
    assert PathOf(1) == [] && PathOf(2) == [Father] && PathOf(3) == [Mother];
  }

  lemma LabelMore(path: seq<Turn>, t: Turn)
    requires path != []
    ensures Label(path + [t]) == Label(path) + "'s " + Word(t)
  {
    assert (path + [t])[..|path|] == path;
  }

  /** The label of a number, by the label of its half. */
  lemma LabelOfParents(n: nat)
    requires n >= 1
    ensures Label(PathOf(1)) == "" && Label(PathOf(2)) == "Father" && Label(PathOf(3)) == "Mother"
    ensures n >= 2 ==> Label(PathOf(2 * n)) == Label(PathOf(n)) + "'s Father"
    ensures n >= 2 ==> Label(PathOf(2 * n + 1)) == Label(PathOf(n)) + "'s Mother"
  {
    hide Label;
    FirstLabels();
    if n >= 2 {
      assert PathOf(2 * n) == PathOf(n) + [Father] && PathOf(2 * n + 1) == PathOf(n) + [Mother];
      LabelMore(PathOf(n), Father);
      LabelMore(PathOf(n), Mother);
      Associates(Label(PathOf(n)), "'s ", "Father");
      Associates(Label(PathOf(n)), "'s ", "Mother");
      assert "'s " + "Father" == "'s Father" && "'s " + "Mother" == "'s Mother";
    }
  }

  lemma LabelEnds(path: seq<Turn>)
    requires path != []
    ensures var text, last := Label(path), Word(path[|path| - 1]);
      && |text| >= 6 && text[|text| - 6..] == last
      && (|path| == 1 <==> |text| == 6)
      && (|path| > 1 ==> |text| >= 9 && text[..|text| - 9] == Label(path[..|path| - 1]))
  {
  }

  lemma WordsDiffer(s: Turn, t: Turn)
    ensures Word(s) == Word(t) ==> s == t
  {
    assert "Father"[0] != "Mother"[0];
  }

  /** No two lines of descent have the same label. */
  lemma {:induction false} LabelsDiffer(a: seq<Turn>, b: seq<Turn>)
    requires Label(a) == Label(b)
    ensures a == b
  {
    NoLabel();
    hide Label, Word;
    if a != [] {
      LabelEnds(a);
    }
    if b != [] {
      LabelEnds(b);
    }
    if a != [] && b != [] {
      var s, t := a[|a| - 1], b[|b| - 1];
      WordsDiffer(s, t);
      assert a == a[..|a| - 1] + [s] && b == b[..|b| - 1] + [t];
      if |a| > 1 {
        LabelsDiffer(a[..|a| - 1], b[..|b| - 1]);
      }
    }
  }

  lemma NoLabel()
    ensures Label([]) == ""
  {
  }

  /** The decoding loop: halve, and prepend the turn the remainder tells. */
  method DecodePath(num: nat) returns (path: seq<Turn>)
    requires num >= 1
    ensures path == PathOf(num)
  {
    path := [];
    var n := num;
    while n > 1
      invariant n >= 1 && PathOf(n) + path == PathOf(num)
    {
      var turn := if n % 2 == 0 then Father else Mother;
      Associates(PathOf(n / 2), [turn], path);
      path := [turn] + path;
      n := n / 2;
    }
    assert PathOf(1) + path == path;
  }

  // --- The pedigree tree ---

  /** The subtree a path leads to. */
  function At(t: Pedigree, path: seq<Turn>): Pedigree
  {
    if path == [] || t.Nobody? then t
    else At(if path[0] == Father then t.father else t.mother, path[1..])
  }

  function Side(t: Pedigree, turn: Turn): Pedigree
    requires t.Person?
  {
    if turn == Father then t.father else t.mother
  }

  function Ids(t: Pedigree): set<Uuid>
  {
    if t.Nobody? then {} else {t.id} + Ids(t.father) + Ids(t.mother)
  }

  /** No person stands twice in the tree. */
  predicate EachOnce(t: Pedigree)
  {
    t.Person? ==>
      EachOnce(t.father) && EachOnce(t.mother)
      && t.id !in Ids(t.father) && t.id !in Ids(t.mother) && Ids(t.father) !! Ids(t.mother)
  }

  /** Generations count up from the root and stay within the limit. */
  predicate Generations(t: Pedigree, g: nat, limit: nat)
  {
    t.Person? ==> t.generation == g <= limit && Generations(t.father, g + 1, limit) && Generations(t.mother, g + 1, limit)
  }

  function ParentOf(edges: map<Uuid, Parents>, id: Uuid, turn: Turn): Option<Uuid>
  {
    if id !in edges then None else if turn == Father then edges[id].father else edges[id].mother
  }

  /** Every line of the tree follows the recorded parents. */
  predicate FollowsEdges(t: Pedigree, edges: map<Uuid, Parents>)
  {
    t.Person? ==>
      FollowsEdges(t.father, edges) && FollowsEdges(t.mother, edges)
      && (t.father.Person? ==> ParentOf(edges, t.id, Father) == Some(t.father.id))
      && (t.mother.Person? ==> ParentOf(edges, t.id, Mother) == Some(t.mother.id))
  }

  /** The person found by climbing recorded parents along a path. */
  function Climb(edges: map<Uuid, Parents>, id: Uuid, path: seq<Turn>): Option<Uuid>
    decreases |path|
  {
    if path == [] then Some(id)
    else
      var p := ParentOf(edges, id, path[0]);
      if p.None? then None else Climb(edges, p.value, path[1..])
  }

  /** Of a person shown below the generation limit, every recorded parent who is on file is among `seen`. */
  predicate ParentsSeen(t: Pedigree, persons: set<Uuid>, edges: map<Uuid, Parents>, limit: nat, seen: set<Uuid>)
  {
    t.Person? ==>
      ParentsSeen(t.father, persons, edges, limit, seen) && ParentsSeen(t.mother, persons, edges, limit, seen)
      && (t.generation < limit ==> ParentSeen(t.id, Father, persons, edges, seen) && ParentSeen(t.id, Mother, persons, edges, seen))
  }

  predicate ParentSeen(id: Uuid, turn: Turn, persons: set<Uuid>, edges: map<Uuid, Parents>, seen: set<Uuid>)
  {
    var p := ParentOf(edges, id, turn);
    p.Some? && p.value in persons ==> p.value in seen
  }

  lemma {:induction false} ParentsSeenMore(t: Pedigree, persons: set<Uuid>, edges: map<Uuid, Parents>, limit: nat,
                                           seen: set<Uuid>, more: set<Uuid>)
    requires ParentsSeen(t, persons, edges, limit, seen) && seen * persons <= more
    ensures ParentsSeen(t, persons, edges, limit, more)
    decreases t
  {
    if t.Person? {
      ParentsSeenMore(t.father, persons, edges, limit, seen, more);
      ParentsSeenMore(t.mother, persons, edges, limit, seen, more);
    }
  }

  /** Below the limit a recorded parent on file has a place in the tree exactly when nobody before took it. */
  predicate ShownUnlessBefore(t: Pedigree, turn: Turn, persons: set<Uuid>, edges: map<Uuid, Parents>, limit: nat, before: set<Uuid>)
    requires t.Person?
  {
    var p := ParentOf(edges, t.id, turn);
    Side(t, turn).Person? <==> t.generation < limit && p.Some? && p.value in persons - before
  }

  /**
   * The tree as a walk visits it, father's side first, when the persons in `before` were visited before it:
   * who is shown where follows from the records alone.
   */
  predicate Walked(t: Pedigree, persons: set<Uuid>, edges: map<Uuid, Parents>, limit: nat, before: set<Uuid>)
  {
    t.Person? ==>
      var self := before + {t.id};
      && ShownUnlessBefore(t, Father, persons, edges, limit, self)
      && Walked(t.father, persons, edges, limit, self)
      && ShownUnlessBefore(t, Mother, persons, edges, limit, self + Ids(t.father))
      && Walked(t.mother, persons, edges, limit, self + Ids(t.father))
  }

  /** Ids that are on nobody's file do not matter. */
  lemma {:induction false} WalkedOnFile(t: Pedigree, persons: set<Uuid>, edges: map<Uuid, Parents>, limit: nat,
                                        before: set<Uuid>, other: set<Uuid>)
    requires Walked(t, persons, edges, limit, before)
    requires forall x :: x in persons ==> (x in before <==> x in other)
    ensures Walked(t, persons, edges, limit, other)
    decreases t
  {
    if t.Person? {
      var self, also := before + {t.id}, other + {t.id};
      WalkedOnFile(t.father, persons, edges, limit, self, also);
      WalkedOnFile(t.mother, persons, edges, limit, self + Ids(t.father), also + Ids(t.father));
    }
  }

  /** What building the subtree of `id` delivers, `visited` having grown to `seen`. */
  ghost predicate Subtree(node: Pedigree, id: Uuid, g: nat, persons: set<Uuid>, edges: map<Uuid, Parents>, limit: nat,
                          visited: set<Uuid>, seen: set<Uuid>)
  {
    && visited <= seen && Ids(node) == (seen - visited) * persons
    && (node.Nobody? <==> id in visited || id !in persons)
    && (node.Person? ==> node.id == id)
    && EachOnce(node) && Generations(node, g, limit) && FollowsEdges(node, edges)
    && ParentsSeen(node, persons, edges, limit, seen)
    && Walked(node, persons, edges, limit, visited)
  }

  /** The subtree of a parent, recorded or not. */
  ghost predicate ParentSubtree(node: Pedigree, parent: Option<Uuid>, g: nat, persons: set<Uuid>, edges: map<Uuid, Parents>,
                                limit: nat, visited: set<Uuid>, seen: set<Uuid>)
  {
    if parent.None? then node.Nobody? && seen == visited
    else Subtree(node, parent.value, g, persons, edges, limit, visited, seen)
  }

  lemma Leaf(id: Uuid, g: nat, persons: set<Uuid>, edges: map<Uuid, Parents>, limit: nat, visited: set<Uuid>)
    requires id in persons && id !in visited && g <= limit && (g == limit || id !in edges)
    ensures Subtree(Person(id, g, Nobody, Nobody), id, g, persons, edges, limit, visited, visited + {id})
  {
  }

  /** A person with the subtrees of both parents, the father's built first. */
  lemma Joined(id: Uuid, g: nat, persons: set<Uuid>, edges: map<Uuid, Parents>, limit: nat, visited: set<Uuid>,
               father: Pedigree, between: set<Uuid>, mother: Pedigree, seen: set<Uuid>)
    requires id in persons && id !in visited && g < limit && id in edges
    requires ParentSubtree(father, edges[id].father, g + 1, persons, edges, limit, visited + {id}, between)
    requires ParentSubtree(mother, edges[id].mother, g + 1, persons, edges, limit, between, seen)
    ensures Subtree(Person(id, g, father, mother), id, g, persons, edges, limit, visited, seen)
  {
    var node := Person(id, g, father, mother);
    assert ParentsSeen(node, persons, edges, limit, seen) && Walked(node, persons, edges, limit, visited) by {
      JoinedWalk(id, g, persons, edges, limit, visited, father, between, mother, seen);
    }
    assert Ids(father) == (between - visited - {id}) * persons && Ids(mother) == (seen - between) * persons;
    assert Ids(node) == (seen - visited) * persons;
    assert EachOnce(node) && Generations(node, g, limit) && FollowsEdges(node, edges);
  }

  lemma {:induction false} JoinedWalk(id: Uuid, g: nat, persons: set<Uuid>, edges: map<Uuid, Parents>, limit: nat, visited: set<Uuid>,
                   father: Pedigree, between: set<Uuid>, mother: Pedigree, seen: set<Uuid>)
    requires id in persons && id !in visited && g < limit && id in edges
    requires ParentSubtree(father, edges[id].father, g + 1, persons, edges, limit, visited + {id}, between)
    requires ParentSubtree(mother, edges[id].mother, g + 1, persons, edges, limit, between, seen)
    ensures ParentsSeen(Person(id, g, father, mother), persons, edges, limit, seen)
    ensures Walked(Person(id, g, father, mother), persons, edges, limit, visited)
  {
    hide EachOnce, Generations, FollowsEdges;
    ParentsSeenMore(father, persons, edges, limit, between, seen);
    WalkedOnFile(mother, persons, edges, limit, between, visited + {id} + Ids(father));
  }

  /**
   * Builds the tree. A person seen before, on this line or on another, is left out: the guard against
   * cycles also cuts an ancestor two lines share down to its first appearance.
   */
  method BuildNode(persons: set<Uuid>, edges: map<Uuid, Parents>, id: Uuid, generation: nat, maxGen: nat, visited: set<Uuid>)
    returns (node: Pedigree, seen: set<Uuid>)
    requires generation <= maxGen
    ensures Subtree(node, id, generation, persons, edges, maxGen, visited, seen)
    decreases maxGen - generation
  {
    seen := visited;
    if id in visited {
      return Nobody, seen;
    }
    seen := seen + {id};
    if id !in persons {
      return Nobody, seen;
    }
    node := Person(id, generation, Nobody, Nobody);
    if generation >= maxGen || id !in edges {
      Leaf(id, generation, persons, edges, maxGen, visited);
      return;
    }
    hide Subtree;
    var edge := edges[id];
    if edge.father.Some? {
      var father;
      father, seen := BuildNode(persons, edges, edge.father.value, generation + 1, maxGen, seen);
      node := node.(father := father);
    }
    ghost var between := seen;
    if edge.mother.Some? {
      var mother;
      mother, seen := BuildNode(persons, edges, edge.mother.value, generation + 1, maxGen, seen);
      node := node.(mother := mother);
    }
    Joined(id, generation, persons, edges, maxGen, visited, node.father, between, node.mother, seen);
  }

  lemma {:induction false} AtClimbs(t: Pedigree, edges: map<Uuid, Parents>, path: seq<Turn>)
    requires FollowsEdges(t, edges) && t.Person? && At(t, path).Person?
    ensures Climb(edges, t.id, path) == Some(At(t, path).id)
    decreases |path|
  {
    if path != [] {
      AtClimbs(if path[0] == Father then t.father else t.mother, edges, path[1..]);
    }
  }

  lemma {:induction false} AtGeneration(t: Pedigree, g: nat, limit: nat, path: seq<Turn>)
    requires Generations(t, g, limit) && At(t, path).Person?
    ensures At(t, path).generation == g + |path| <= limit
    decreases |path|
  {
    if path != [] && t.Person? {
      AtGeneration(if path[0] == Father then t.father else t.mother, g + 1, limit, path[1..]);
    }
  }

  // --- Who is in the tree ---

  /** Everybody in the tree stands at the end of some path. */
  lemma {:induction false} IdAtPath(t: Pedigree, id: Uuid) returns (path: seq<Turn>)
    requires id in Ids(t)
    ensures At(t, path).Person? && At(t, path).id == id
    decreases t
  {
    if t.id == id {
      path := [];
    } else {
      var turn := if id in Ids(t.father) then Father else Mother;
      var rest := IdAtPath(Side(t, turn), id);
      path := [turn] + rest;
      assert path[1..] == rest;
    }
  }

  lemma {:induction false} AtPathInIds(t: Pedigree, path: seq<Turn>)
    requires At(t, path).Person?
    ensures At(t, path).id in Ids(t)
    decreases |path|
  {
    if path != [] {
      AtPathInIds(Side(t, path[0]), path[1..]);
    }
  }

  /** And nobody stands in two places. */
  lemma {:induction false} OnePlace(t: Pedigree, p: seq<Turn>, q: seq<Turn>)
    requires EachOnce(t) && At(t, p).Person? && At(t, q).Person? && At(t, p).id == At(t, q).id
    ensures p == q
    decreases |p|
  {
    if p != [] {
      AtPathInIds(Side(t, p[0]), p[1..]);
    }
    if q != [] {
      AtPathInIds(Side(t, q[0]), q[1..]);
    }
    if p != [] && q != [] && p[0] == q[0] {
      OnePlace(Side(t, p[0]), p[1..], q[1..]);
    }
  }

  /** What the report knows of the tree it reads. */
  ghost predicate Built(t: Pedigree, persons: set<Uuid>, edges: map<Uuid, Parents>, limit: nat)
  {
    && t.Person? && Ids(t) <= persons && EachOnce(t) && Generations(t, 0, limit) && FollowsEdges(t, edges)
    && ParentsSeen(t, persons, edges, limit, Ids(t)) && Walked(t, persons, edges, limit, {})
  }

  /** A line of recorded parents within the limit, everybody on it on file. */
  ghost predicate Line(persons: set<Uuid>, edges: map<Uuid, Parents>, id: Uuid, limit: nat, path: seq<Turn>)
  {
    && |path| <= limit && Climb(edges, id, path).Some?
    && forall k :: 0 <= k <= |path| ==> Climb(edges, id, path[..k]).Some? && Climb(edges, id, path[..k]).value in persons
  }

  /** Somebody on the line stands elsewhere in the tree. */
  ghost predicate Cut(t: Pedigree, edges: map<Uuid, Parents>, path: seq<Turn>)
  {
    exists k, other :: 0 <= k <= |path| && StandsElsewhere(t, edges, path[..k], other)
  }

  ghost predicate StandsElsewhere(t: Pedigree, edges: map<Uuid, Parents>, path: seq<Turn>, other: seq<Turn>)
  {
    t.Person? && other != path && At(t, other).Person? && Climb(edges, t.id, path) == Some(At(t, other).id)
  }

  /** Climbing on: the last turn of a path goes to a parent of the person before it. */
  lemma {:induction false} ClimbLast(edges: map<Uuid, Parents>, id: Uuid, path: seq<Turn>, turn: Turn)
    requires Climb(edges, id, path).Some?
    ensures Climb(edges, id, path + [turn]) == ParentOf(edges, Climb(edges, id, path).value, turn)
    decreases |path|
  {
    if path == [] {
      assert (path + [turn])[1..] == [];
    } else {
      assert (path + [turn])[1..] == path[1..] + [turn];
      ClimbLast(edges, ParentOf(edges, id, path[0]).value, path[1..], turn);
    }
  }

  /** A parent on file of a person at the end of a path is in the tree. */
  lemma {:induction false} ParentInTree(t: Pedigree, persons: set<Uuid>, edges: map<Uuid, Parents>, limit: nat,
                                        seen: set<Uuid>, path: seq<Turn>, turn: Turn)
    requires ParentsSeen(t, persons, edges, limit, seen) && At(t, path).Person? && At(t, path).generation < limit
    ensures ParentSeen(At(t, path).id, turn, persons, edges, seen)
    decreases |path|
  {
    if path != [] {
      ParentInTree(Side(t, path[0]), persons, edges, limit, seen, path[1..], turn);
    }
  }

  lemma LineUpTo(persons: set<Uuid>, edges: map<Uuid, Parents>, id: Uuid, limit: nat, path: seq<Turn>, k: nat)
    requires Line(persons, edges, id, limit, path) && k <= |path|
    ensures Line(persons, edges, id, limit, path[..k])
  {
    forall i | 0 <= i <= k
      ensures Climb(edges, id, path[..k][..i]).Some? && Climb(edges, id, path[..k][..i]).value in persons
    {
      assert path[..k][..i] == path[..i];
    }
    assert path[..k][..k] == path[..k];
  }

  /**
   * A line of recorded parents is shown to its end exactly when nobody on it stands elsewhere in the
   * tree: only the guard against showing a person twice ever cuts a line.
   */
  lemma {:induction false} LineShownIff(t: Pedigree, persons: set<Uuid>, edges: map<Uuid, Parents>, limit: nat, path: seq<Turn>)
    requires Built(t, persons, edges, limit) && Line(persons, edges, t.id, limit, path)
    ensures At(t, path).Person? <==> !Cut(t, edges, path)
    decreases |path|
  {
    if At(t, path).Person? {
      ShownIsUncut(t, persons, edges, limit, path);
    } else if path != [] {
      var n := |path| - 1;
      LineUpTo(persons, edges, t.id, limit, path, n);
      LineShownIff(t, persons, edges, limit, path[..n]);
      if Cut(t, edges, path[..n]) {
        var k, other :| 0 <= k <= n && StandsElsewhere(t, edges, path[..n][..k], other);
        assert path[..n][..k] == path[..k];
      } else {
        var other := NextShown(t, persons, edges, limit, path);
        assert path[..n + 1] == path;
        assert StandsElsewhere(t, edges, path[..n + 1], other);
      }
    }
  }

  /** A line that is shown shows everybody on it in their place. */
  lemma ShownIsUncut(t: Pedigree, persons: set<Uuid>, edges: map<Uuid, Parents>, limit: nat, path: seq<Turn>)
    requires Built(t, persons, edges, limit) && At(t, path).Person?
    ensures !Cut(t, edges, path)
  {
    forall k, other | 0 <= k <= |path| ensures !StandsElsewhere(t, edges, path[..k], other) {
      PrefixShown(t, path, k);
      AtClimbs(t, edges, path[..k]);
      if At(t, other).Person? && At(t, other).id == At(t, path[..k]).id {
        OnePlace(t, other, path[..k]);
      }
    }
  }

  lemma {:induction false} PrefixShown(t: Pedigree, path: seq<Turn>, k: nat)
    requires At(t, path).Person? && k <= |path|
    ensures At(t, path[..k]).Person?
    decreases |path|
  {
    if k > 0 {
      assert path[..k][1..] == path[1..][..k - 1];
      PrefixShown(Side(t, path[0]), path[1..], k - 1);
    }
  }

  /** The last person of a line shown up to there is in the tree somewhere, if not at the line's end. */
  lemma NextShown(t: Pedigree, persons: set<Uuid>, edges: map<Uuid, Parents>, limit: nat, path: seq<Turn>) returns (other: seq<Turn>)
    requires Built(t, persons, edges, limit) && Line(persons, edges, t.id, limit, path) && path != []
    requires At(t, path[..|path| - 1]).Person? && !At(t, path).Person?
    ensures StandsElsewhere(t, edges, path, other)
  {
    var n := |path| - 1;
    AtGeneration(t, 0, limit, path[..n]);
    AtClimbs(t, edges, path[..n]);
    ClimbLast(edges, t.id, path[..n], path[n]);
    assert path == path[..n] + [path[n]];
    ParentInTree(t, persons, edges, limit, Ids(t), path[..n], path[n]);
    assert path[..n + 1] == path;
    other := IdAtPath(t, Climb(edges, t.id, path).value);
  }

  /** No person is met on two lines within the limit. */
  ghost predicate NobodyShared(persons: set<Uuid>, edges: map<Uuid, Parents>, id: Uuid, limit: nat)
  {
    forall p, q ::
      Line(persons, edges, id, limit, p) && Line(persons, edges, id, limit, q) && Climb(edges, id, p) == Climb(edges, id, q) ==>
        p == q
  }

  /** Everybody shown stands at the end of a line. */
  lemma ShownIsLine(t: Pedigree, persons: set<Uuid>, edges: map<Uuid, Parents>, limit: nat, path: seq<Turn>)
    requires Built(t, persons, edges, limit) && At(t, path).Person?
    ensures Line(persons, edges, t.id, limit, path) && Climb(edges, t.id, path) == Some(At(t, path).id)
  {
    AtGeneration(t, 0, limit, path);
    forall k | 0 <= k <= |path|
      ensures Climb(edges, t.id, path[..k]).Some? && Climb(edges, t.id, path[..k]).value in persons
    {
      PrefixShown(t, path, k);
      AtClimbs(t, edges, path[..k]);
      AtPathInIds(t, path[..k]);
    }
    AtClimbs(t, edges, path);
  }

  /** Every line within the limit is shown exactly when no person is met on two of them. */
  lemma AllLinesShownIff(t: Pedigree, persons: set<Uuid>, edges: map<Uuid, Parents>, limit: nat)
    requires Built(t, persons, edges, limit)
    ensures (forall path :: Line(persons, edges, t.id, limit, path) ==> At(t, path).Person?)
      <==> NobodyShared(persons, edges, t.id, limit)
  {
    hide Line, EachOnce, Generations, FollowsEdges, ParentsSeen;
    if NobodyShared(persons, edges, t.id, limit) {
      forall path | Line(persons, edges, t.id, limit, path) ensures At(t, path).Person? {
        UnsharedIsUncut(t, persons, edges, limit, path);
        LineShownIff(t, persons, edges, limit, path);
      }
    }
    if forall path :: Line(persons, edges, t.id, limit, path) ==> At(t, path).Person? {
      forall p, q | Line(persons, edges, t.id, limit, p) && Line(persons, edges, t.id, limit, q)
        && Climb(edges, t.id, p) == Climb(edges, t.id, q)
        ensures p == q
      {
        ShownIsLine(t, persons, edges, limit, p);
        ShownIsLine(t, persons, edges, limit, q);
        OnePlace(t, p, q);
      }
    }
  }

  lemma UnsharedIsUncut(t: Pedigree, persons: set<Uuid>, edges: map<Uuid, Parents>, limit: nat, path: seq<Turn>)
    requires Built(t, persons, edges, limit) && NobodyShared(persons, edges, t.id, limit)
    requires Line(persons, edges, t.id, limit, path)
    ensures !Cut(t, edges, path)
  {
    hide Built;
    forall k, other | 0 <= k <= |path| ensures !StandsElsewhere(t, edges, path[..k], other) {
      if At(t, other).Person? && Climb(edges, t.id, path[..k]) == Some(At(t, other).id) {
        ShownIsLine(t, persons, edges, limit, other);
        LineUpTo(persons, edges, t.id, limit, path, k);
      }
    }
  }

  // --- The report ---

  function Entries(t: Pedigree, n: nat): seq<Entry>
  {
    if t.Nobody? then []
    else [Entry(n, t.generation, t.id)] + Entries(t.father, 2 * n) + Entries(t.mother, 2 * n + 1)
  }

  /** Collects the entries of a subtree behind those already collected. */
  method TraverseTree(node: Pedigree, number: nat, entries: seq<Entry>) returns (all: seq<Entry>)
    ensures all == entries + Entries(node, number)
    decreases node
  {
    all := entries;
    if node.Nobody? {
      return;
    }
    all := all + [Entry(number, node.generation, node.id)];
    all := TraverseTree(node.father, 2 * number, all);
    all := TraverseTree(node.mother, 2 * number + 1, all);
  }

  /** Numbering a subtree from `n` on: doubling along a path. */
  function NumberFrom(n: nat, path: seq<Turn>): nat
    decreases |path|
  {
    if path == [] then n
    else NumberFrom(2 * n + (if path[0] == Father then 0 else 1), path[1..])
  }

  lemma {:induction false} NumberFromLast(n: nat, path: seq<Turn>, turn: Turn)
    ensures NumberFrom(n, path + [turn]) == 2 * NumberFrom(n, path) + if turn == Father then 0 else 1
    decreases |path|
  {
    if path == [] {
      assert path + [turn] == [turn] && [turn][1..] == [];
    } else {
      assert (path + [turn])[1..] == path[1..] + [turn];
      NumberFromLast(2 * n + (if path[0] == Father then 0 else 1), path[1..], turn);
    }
  }

  lemma {:induction false} NumberFromOne(path: seq<Turn>)
    ensures NumberFrom(1, path) == NumberOf(path)
  {
    if path != [] {
      NumberFromOne(path[..|path| - 1]);
      NumberFromLast(1, path[..|path| - 1], path[|path| - 1]);
      assert path == path[..|path| - 1] + [path[|path| - 1]];
    }
  }

  ghost predicate Leads(t: Pedigree, n: nat, path: seq<Turn>, e: Entry)
  {
    e.number == NumberFrom(n, path) && At(t, path).Person? && e.id == At(t, path).id && e.generation == At(t, path).generation
  }

  /** The entries are exactly the tree's nodes, each under the number of the path to it. */
  lemma {:induction false} EntriesArePaths(t: Pedigree, n: nat, e: Entry)
    ensures e in Entries(t, n) <==> exists path :: Leads(t, n, path, e)
    decreases t
  {
    if t.Person? {
      EntriesArePaths(t.father, 2 * n, e);
      EntriesArePaths(t.mother, 2 * n + 1, e);
      if e in Entries(t, n) {
        if e == Entry(n, t.generation, t.id) {
          assert Leads(t, n, [], e);
        } else if e in Entries(t.father, 2 * n) {
          var path :| Leads(t.father, 2 * n, path, e);
          assert ([Father] + path)[1..] == path;
          assert Leads(t, n, [Father] + path, e);
        } else {
          var path :| Leads(t.mother, 2 * n + 1, path, e);
          assert ([Mother] + path)[1..] == path;
          assert Leads(t, n, [Mother] + path, e);
        }
      }
      if path :| Leads(t, n, path, e) {
        if path != [] {
          if path[0] == Father {
            assert Leads(t.father, 2 * n, path[1..], e);
          } else {
            assert Leads(t.mother, 2 * n + 1, path[1..], e);
          }
        }
      }
    }
  }

  /**
   * A number is in the report exactly when the path the decoder reads from it leads to somebody, and
   * the entry is that person's.
   */
  lemma ReportedIffPathLeads(t: Pedigree, e: Entry)
    ensures e in Entries(t, 1)
      <==> e.number >= 1 && At(t, PathOf(e.number)).Person?
           && e.id == At(t, PathOf(e.number)).id && e.generation == At(t, PathOf(e.number)).generation
  {
    EntriesArePaths(t, 1, e);
    if path :| Leads(t, 1, path, e) {
      NumberFromOne(path);
      PathOfNumber(path);
    }
    if e.number >= 1 {
      NumberFromOne(PathOf(e.number));
      NumberOfPath(e.number);
      if At(t, PathOf(e.number)).Person? && e.id == At(t, PathOf(e.number)).id
         && e.generation == At(t, PathOf(e.number)).generation {
        assert Leads(t, 1, PathOf(e.number), e);
      }
    }
  }

  /** No number is given out twice. */
  lemma NumbersDistinct(t: Pedigree, a: Entry, b: Entry)
    requires a in Entries(t, 1) && b in Entries(t, 1) && a.number == b.number
    ensures a == b
  {
    ReportedIffPathLeads(t, a);
    ReportedIffPathLeads(t, b);
  }

  /** Whoever is reported has their child in the line reported under half the number. */
  lemma ClosedUnderHalving(t: Pedigree, e: Entry)
    requires e in Entries(t, 1) && e.number > 1
    ensures exists c :: c in Entries(t, 1) && c.number == e.number / 2
  {
    ReportedIffPathLeads(t, e);
    var path := PathOf(e.number);
    var half := path[..|path| - 1];
    assert half == PathOf(e.number / 2);
    AtPrefix(t, half, path[|path| - 1]);
    assert half + [path[|path| - 1]] == path;
    var c := Entry(e.number / 2, At(t, half).generation, At(t, half).id);
    ReportedIffPathLeads(t, c);
  }

  lemma {:induction false} AtPrefix(t: Pedigree, path: seq<Turn>, turn: Turn)
    requires At(t, path + [turn]).Person?
    ensures At(t, path).Person?
    decreases |path|
  {
    if path != [] && t.Person? {
      assert (path + [turn])[1..] == path[1..] + [turn];
      AtPrefix(if path[0] == Father then t.father else t.mother, path[1..], turn);
    }
  }

  /** In a built tree a number tells the generation and the recorded ancestor. */
  lemma NumberTellsAncestor(t: Pedigree, edges: map<Uuid, Parents>, limit: nat, e: Entry)
    requires e in Entries(t, 1) && t.Person? && FollowsEdges(t, edges) && Generations(t, 0, limit)
    ensures e.number >= 1 && e.generation == |PathOf(e.number)| <= limit
    ensures Power(e.generation) <= e.number < Power(e.generation + 1)
    ensures Climb(edges, t.id, PathOf(e.number)) == Some(e.id)
  {
    ReportedIffPathLeads(t, e);
    AtGeneration(t, 0, limit, PathOf(e.number));
    AtClimbs(t, edges, PathOf(e.number));
    NumberRange(e.number);
  }

  /** A line of recorded parents is reported, under its own number, exactly when nobody on it stands elsewhere. */
  lemma ReportedLineIff(t: Pedigree, persons: set<Uuid>, edges: map<Uuid, Parents>, limit: nat, path: seq<Turn>)
    requires Built(t, persons, edges, limit) && Line(persons, edges, t.id, limit, path)
    ensures Entry(NumberOf(path), |path|, Climb(edges, t.id, path).value) in Entries(t, 1) <==> !Cut(t, edges, path)
  {
    hide Cut;
    LineShownIff(t, persons, edges, limit, path);
    PathOfNumber(path);
    ReportedIffPathLeads(t, Entry(NumberOf(path), |path|, Climb(edges, t.id, path).value));
    if At(t, path).Person? {
      AtGeneration(t, 0, limit, path);
      AtClimbs(t, edges, path);
    }
  }

  function Size(t: Pedigree): nat
  {
    if t.Nobody? then 0 else 1 + Size(t.father) + Size(t.mother)
  }

  lemma {:induction false} OneEntryPerNode(t: Pedigree, n: nat)
    ensures |Entries(t, n)| == Size(t)
    decreases t
  {
    if t.Person? {
      OneEntryPerNode(t.father, 2 * n);
      OneEntryPerNode(t.mother, 2 * n + 1);
    }
  }

  ghost predicate Increasing(entries: seq<Entry>)
  {
    forall i, j :: 0 <= i < j < |entries| ==> entries[i].number <= entries[j].number
  }

  function Insert(sorted: seq<Entry>, k: nat, e: Entry): seq<Entry>
    requires k <= |sorted|
  {
    sorted[..k] + [e] + sorted[k..]
  }

  lemma InsertAdds(sorted: seq<Entry>, k: nat, e: Entry)
    requires k <= |sorted|
    ensures multiset(Insert(sorted, k, e)) == multiset(sorted) + multiset{e}
  {
    assert sorted == sorted[..k] + sorted[k..];
  }

  lemma InsertIncreases(sorted: seq<Entry>, k: nat, e: Entry)
    requires k <= |sorted| && Increasing(sorted)
    requires forall j :: k <= j < |sorted| ==> sorted[j].number > e.number
    requires k > 0 ==> sorted[k - 1].number <= e.number
    ensures Increasing(Insert(sorted, k, e))
  {
    var all := Insert(sorted, k, e);
    forall i, j | 0 <= i < j < |all| ensures all[i].number <= all[j].number {
      assert i < k ==> all[i] == sorted[i];
      assert j > k ==> all[j] == sorted[j - 1];
      assert i > k ==> all[i] == sorted[i - 1];
      assert j < k ==> all[j] == sorted[j];
    }
  }

  /** The library sort, by number. */
  method SortByNumber(entries: seq<Entry>) returns (sorted: seq<Entry>)
    ensures multiset(sorted) == multiset(entries) && Increasing(sorted)
  {
    sorted := [];
    for i := 0 to |entries|
      invariant multiset(sorted) == multiset(entries[..i]) && Increasing(sorted)
    {
      hide Increasing, Insert;
      var e, k := entries[i], |sorted|;
      while k > 0 && sorted[k - 1].number > e.number
        invariant 0 <= k <= |sorted|
        invariant forall j :: k <= j < |sorted| ==> sorted[j].number > e.number
      {
        k := k - 1;
      }
      InsertIncreases(sorted, k, e);
      InsertAdds(sorted, k, e);
      assert entries[..i + 1] == entries[..i] + [e];
      sorted := Insert(sorted, k, e);
    }
    assert entries[..|entries|] == entries;
  }

  /** A list without repetition: every entry occurs once. */
  lemma {:induction false} EntriesOnce(t: Pedigree, n: nat, e: Entry)
    requires n >= 1
    ensures multiset(Entries(t, n))[e] <= 1
    decreases t
  {
    hide Entries;
    EntriesUnfold(t, n);
    if t.Person? {
      var head, f, m := Entry(n, t.generation, t.id), Entries(t.father, 2 * n), Entries(t.mother, 2 * n + 1);
      EntriesOnce(t.father, 2 * n, e);
      EntriesOnce(t.mother, 2 * n + 1, e);
      CountThree(head, f, m, e);
      SidesApart(t, n, e);
    }
  }

  lemma EntriesUnfold(t: Pedigree, n: nat)
    ensures t.Nobody? ==> Entries(t, n) == []
    ensures t.Person? ==> Entries(t, n) == [Entry(n, t.generation, t.id)] + Entries(t.father, 2 * n) + Entries(t.mother, 2 * n + 1)
  {
  }

  lemma CountThree(head: Entry, f: seq<Entry>, m: seq<Entry>, e: Entry)
    ensures multiset([head] + f + m)[e] == (if e == head then 1 else 0) + multiset(f)[e] + multiset(m)[e]
    ensures e in f <==> multiset(f)[e] > 0
    ensures e in m <==> multiset(m)[e] > 0
  {
  }

  /** Father's side, mother's side and the person themselves use different numbers. */
  lemma SidesApart(t: Pedigree, n: nat, e: Entry)
    requires t.Person? && n >= 1
    ensures !(e in Entries(t.father, 2 * n) && e in Entries(t.mother, 2 * n + 1))
    ensures e.number == n ==> e !in Entries(t.father, 2 * n) && e !in Entries(t.mother, 2 * n + 1)
  {
    EntriesArePaths(t.father, 2 * n, e);
    EntriesArePaths(t.mother, 2 * n + 1, e);
    var even, odd := 2 * n, 2 * n + 1;
    if p :| Leads(t.father, even, p, e) {
      NumberFromGrows(even, p);
      if q :| Leads(t.mother, odd, q, e) {
        NumberFromApart(even, p, q);
      }
    }
    if q :| Leads(t.mother, odd, q, e) {
      NumberFromGrows(odd, q);
    }
  }

  lemma {:induction false} NumberFromGrows(n: nat, path: seq<Turn>)
    ensures NumberFrom(n, path) >= n
    decreases |path|
  {
    if path != [] {
      NumberFromGrows(2 * n + (if path[0] == Father then 0 else 1), path[1..]);
    }
  }

  /** Numbers below neighbours never meet: halving them back would. */
  lemma {:induction false} NumberFromApart(n: nat, p: seq<Turn>, q: seq<Turn>)
    requires n >= 1 && n % 2 == 0
    ensures NumberFrom(n, p) != NumberFrom(n + 1, q)
    decreases |p| + |q|
  {
    if p != [] && q != [] {
      var i, j := p[..|p| - 1], q[..|q| - 1];
      assert p == i + [p[|p| - 1]] && q == j + [q[|q| - 1]];
      NumberFromLast(n, i, p[|p| - 1]);
      NumberFromLast(n + 1, j, q[|q| - 1]);
      NumberFromApart(n, i, j);
    } else if p == [] && q != [] {
      NumberFromGrows(n + 1, q);
    } else if p != [] {
      NumberFromFar(n, p);
    }
  }

  lemma NumberFromFar(n: nat, path: seq<Turn>)
    requires n >= 1 && path != []
    ensures n % 2 == 0 ==> NumberFrom(n, path) != n + 1
  {
    NumberFromGrows(2 * n + (if path[0] == Father then 0 else 1), path[1..]);
  }

  /** The generation limit a request is held to. */
  function Limit(maxGenerations: int): nat
  {
    if maxGenerations <= 0 then 5 else if maxGenerations > 10 then 10 else maxGenerations
  }

  /** Five where none is asked for, at most ten, and otherwise what is asked. */
  lemma LimitMeans(maxGenerations: int)
    ensures 1 <= Limit(maxGenerations) <= 10
    ensures maxGenerations <= 0 ==> Limit(maxGenerations) == 5
    ensures 1 <= maxGenerations <= 10 ==> Limit(maxGenerations) == maxGenerations
    ensures maxGenerations > 10 ==> Limit(maxGenerations) == 10
  {
  }

  /**
   * The report: one entry per node of the tree, strictly increasing by number, with the generation
   * limit clamped to ten (five when none is given).
   */
  method GetAhnentafel(persons: set<Uuid>, edges: map<Uuid, Parents>, subject: Uuid, maxGenerations: int)
    returns (report: Option<seq<Entry>>, maxGen: nat, ghost tree: Pedigree)
    ensures report.Some? <==> subject in persons
    ensures report.Some? ==> tree.Person? && tree.id == subject && Built(tree, persons, edges, Limit(maxGenerations))
    ensures report.Some? ==> |report.value| == Size(tree) && forall e :: e in report.value <==> e in Entries(tree, 1)
    ensures report.Some? ==> forall i, j :: 0 <= i < j < |report.value| ==> report.value[i].number < report.value[j].number
    ensures report.Some? ==> forall e :: e in report.value ==> e.generation <= maxGen
    ensures report.Some? ==> exists e :: e in report.value && e.generation == maxGen
  {
    hide EachOnce, FollowsEdges, Increasing, Entries, ParentsSeen, Walked;
    var limit := Limit(maxGenerations);
    maxGen, tree := 0, Nobody;
    if subject !in persons {
      return None, 0, Nobody;
    }
    var root, seen := BuildNode(persons, edges, subject, 0, limit, {});
    tree := root;
    ParentsSeenMore(root, persons, edges, limit, seen, Ids(root));
    var entries := TraverseTree(root, 1, []);
    assert [] + Entries(root, 1) == Entries(root, 1);
    var sorted := SortByNumber(entries);
    SamePermuted(sorted, entries);
    OneEntryPerNode(root, 1);
    StrictlyIncreasing(root, sorted);
    RootEntry(root);
    maxGen := MaxGeneration(sorted);
    report := Some(sorted);
  }

  lemma RootEntry(t: Pedigree)
    requires t.Person?
    ensures Entry(1, t.generation, t.id) in Entries(t, 1)
  {
  }

  lemma SamePermuted(a: seq<Entry>, b: seq<Entry>)
    requires multiset(a) == multiset(b)
    ensures |a| == |b| && forall e :: e in a <==> e in b
  {
    assert |multiset(a)| == |a| && |multiset(b)| == |b|;
    forall e ensures e in a <==> e in b {
      assert e in a <==> e in multiset(a);
      assert e in b <==> e in multiset(b);
    }
  }

  /** The highest generation reported. */
  method MaxGeneration(entries: seq<Entry>) returns (maxGen: nat)
    requires exists e :: e in entries && e.generation == 0
    ensures (forall e :: e in entries ==> e.generation <= maxGen) && exists e :: e in entries && e.generation == maxGen
  {
    maxGen := 0;
    for i := 0 to |entries|
      invariant forall j :: 0 <= j < i ==> entries[j].generation <= maxGen
      invariant exists e :: e in entries && e.generation == maxGen
    {
      if entries[i].generation > maxGen {
        maxGen := entries[i].generation;
        assert entries[i] in entries;
      }
    }
  }

  lemma StrictlyIncreasing(t: Pedigree, sorted: seq<Entry>)
    requires multiset(sorted) == multiset(Entries(t, 1)) && Increasing(sorted)
    ensures forall i, j :: 0 <= i < j < |sorted| ==> sorted[i].number < sorted[j].number
  {
    forall i, j | 0 <= i < j < |sorted| ensures sorted[i].number < sorted[j].number {
      assert sorted[i] in multiset(sorted) && sorted[j] in multiset(sorted);
      if sorted[i].number == sorted[j].number {
        NumbersDistinct(t, sorted[i], sorted[j]);
        EntriesOnce(t, 1, sorted[i]);
        TwiceIn(sorted, i, j);
      }
    }
  }

  lemma TwiceIn(s: seq<Entry>, i: nat, j: nat)
    requires i < j < |s| && s[i] == s[j]
    ensures multiset(s)[s[i]] >= 2
  {
    assert s == s[..i] + [s[i]] + s[i + 1..j] + [s[j]] + s[j + 1..];
  }
}
