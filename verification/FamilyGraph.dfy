/**
 * The family tree as a graph: who is whose parent, what keeps ancestry free of cycles, and what
 * linking a child or merging two persons does to it.
 */
module FamilyGraph {
  import opened Base

  datatype Family = Family(partner1: Option<Uuid>, partner2: Option<Uuid>, relation: string, place: string, version: int)

  /** The rows of one scope: persons, families, and (family, child) links. */
  datatype Tree = Tree(persons: set<Uuid>, families: map<Uuid, Family>, children: set<(Uuid, Uuid)>)

  predicate Partner(f: Family, p: Uuid)
  {
    f.partner1 == Some(p) || f.partner2 == Some(p)
  }

  predicate ParentVia(t: Tree, f: Uuid, p: Uuid, c: Uuid)
  {
    f in t.families && (f, c) in t.children && Partner(t.families[f], p)
  }

  ghost predicate Parent(t: Tree, p: Uuid, c: Uuid)
  {
    exists f :: ParentVia(t, f, p, c)
  }

  /** `a` is found by climbing `n` parent links from `d`. */
  ghost predicate Climbs(t: Tree, n: nat, a: Uuid, d: Uuid)
  {
    if n == 0 then a == d
    else exists m :: Parent(t, m, d) && Climbs(t, n - 1, a, m)
  }

  /** The reflexive-transitive parent relation. */
  ghost predicate AncestorOrSelf(t: Tree, a: Uuid, d: Uuid)
  {
    exists n :: Climbs(t, n, a, d)
  }

  ghost predicate Acyclic(t: Tree)
  {
    forall p, n {:trigger Climbs(t, n, p, p)} :: n > 0 ==> !Climbs(t, n, p, p)
  }

  /** Every partner and every link names rows that exist. */
  ghost predicate RefsOk(t: Tree)
  {
    && (forall f, p :: f in t.families && Partner(t.families[f], p) ==> p in t.persons)
    && (forall l :: l in t.children ==> l.0 in t.families && l.1 in t.persons)
  }

  ghost predicate OneFamilyEach(t: Tree)
  {
    forall k, l :: k in t.children && l in t.children && k.1 == l.1 ==> k.0 == l.0
  }

  ghost predicate SomePartner(t: Tree)
  {
    forall f :: f in t.families ==> t.families[f].partner1.Some? || t.families[f].partner2.Some?
  }

  /** What every sequential run keeps. */
  ghost predicate TreeOk(t: Tree)
  {
    Acyclic(t) && RefsOk(t) && OneFamilyEach(t) && SomePartner(t)
  }

  ghost predicate DistinctPartners(t: Tree)
  {
    forall f :: f in t.families && t.families[f].partner1.Some? ==> t.families[f].partner1 != t.families[f].partner2
  }

  ghost predicate IsChild(t: Tree, p: Uuid)
  {
    exists f :: (f, p) in t.children
  }

  // --- Climbing ---

  lemma ClimbOn(t: Tree, n: nat, a: Uuid, m: Uuid, d: Uuid)
    requires Climbs(t, n, a, m) && Parent(t, m, d)
    ensures Climbs(t, n + 1, a, d)
  {
  }

  lemma {:induction false} ClimbTwice(t: Tree, i: nat, j: nat, a: Uuid, b: Uuid, c: Uuid)
    requires Climbs(t, i, a, b) && Climbs(t, j, b, c)
    ensures Climbs(t, i + j, a, c)
    decreases j
  {
    if j > 0 {
      var m :| Parent(t, m, c) && Climbs(t, j - 1, b, m);
      ClimbTwice(t, i, j - 1, a, b, m);
      ClimbOn(t, i + j - 1, a, m, c);
    }
  }

  lemma AncestorOfAncestor(t: Tree, a: Uuid, b: Uuid, c: Uuid)
    requires AncestorOrSelf(t, a, b) && AncestorOrSelf(t, b, c)
    ensures AncestorOrSelf(t, a, c)
  {
    var i: nat :| Climbs(t, i, a, b);
    var j: nat :| Climbs(t, j, b, c);
    ClimbTwice(t, i, j, a, b, c);
  }

  lemma SelfIsAncestor(t: Tree, a: Uuid)
    ensures AncestorOrSelf(t, a, a)
  {
    assert Climbs(t, 0, a, a);
  }

  lemma ParentIsAncestor(t: Tree, a: Uuid, m: Uuid, d: Uuid)
    requires AncestorOrSelf(t, a, m) && Parent(t, m, d)
    ensures AncestorOrSelf(t, a, d)
  {
    var n: nat :| Climbs(t, n, a, m);
    ClimbOn(t, n, a, m, d);
  }

  /** The recursion of the ancestor search: a proper ancestor is one of a parent. */
  lemma AncestorByParent(t: Tree, a: Uuid, d: Uuid)
    requires a != d
    ensures AncestorOrSelf(t, a, d) <==> exists m :: Parent(t, m, d) && AncestorOrSelf(t, a, m)
  {
    if AncestorOrSelf(t, a, d) {
      var n: nat :| Climbs(t, n, a, d);
      var m :| Parent(t, m, d) && Climbs(t, n - 1, a, m);
      assert AncestorOrSelf(t, a, m);
    }
    if m :| Parent(t, m, d) && AncestorOrSelf(t, a, m) {
      ParentIsAncestor(t, a, m, d);
    }
  }

  /** On an acyclic tree a child is never an ancestor of its parent. */
  lemma NoReturn(t: Tree, p: Uuid, c: Uuid)
    requires Acyclic(t) && Parent(t, p, c)
    ensures !AncestorOrSelf(t, c, p)
  {
    if AncestorOrSelf(t, c, p) {
      var n: nat :| Climbs(t, n, c, p);
      ClimbOn(t, n, c, p, c);
    }
  }

  /** The persons found by climbing at least one link; the measure of the ancestor search. */
  ghost function Ancestors(t: Tree, d: Uuid): set<Uuid>
  {
    set a | a in t.persons && exists m :: Parent(t, m, d) && AncestorOrSelf(t, a, m)
  }

  lemma AncestorsShrink(t: Tree, m: Uuid, d: Uuid)
    requires Acyclic(t) && RefsOk(t) && Parent(t, m, d)
    ensures Ancestors(t, m) < Ancestors(t, d)
  {
    forall a | a in Ancestors(t, m) ensures a in Ancestors(t, d) {
      var k :| Parent(t, k, m) && AncestorOrSelf(t, a, k);
      ParentIsAncestor(t, a, k, m);
    }
    SelfIsAncestor(t, m);
    assert m in Ancestors(t, d);
    if m in Ancestors(t, m) {
      var k :| Parent(t, k, m) && AncestorOrSelf(t, m, k);
      NoReturn(t, k, m);
    }
  }

  // --- Linking a child ---

  function Linked(t: Tree, f: Uuid, c: Uuid): Tree
  {
    t.(children := t.children + {(f, c)})
  }

  /** What the guard of a link checks: the child is an ancestor of no partner. */
  ghost predicate LinkGuard(t: Tree, f: Uuid, c: Uuid)
    requires f in t.families
  {
    forall x :: Partner(t.families[f], x) ==> !AncestorOrSelf(t, c, x)
  }

  lemma LinkedParent(t: Tree, f: Uuid, c: Uuid, m: Uuid, d: Uuid)
    requires f in t.families
    ensures Parent(Linked(t, f, c), m, d) <==> Parent(t, m, d) || (d == c && Partner(t.families[f], m))
  {
    if Parent(Linked(t, f, c), m, d) {
      var g :| ParentVia(Linked(t, f, c), g, m, d);
      assert ParentVia(t, g, m, d) || (g == f && d == c);
    }
    if Parent(t, m, d) {
      var g :| ParentVia(t, g, m, d);
      assert ParentVia(Linked(t, f, c), g, m, d);
    }
    if d == c && Partner(t.families[f], m) {
      assert ParentVia(Linked(t, f, c), f, m, d);
    }
  }

  /** `a` climbs to `d` through the new link: above one of the partners, with the child at or above `d`. */
  ghost predicate ThroughLink(t: Tree, f: Uuid, c: Uuid, a: Uuid, d: Uuid)
    requires f in t.families
  {
    exists x :: Partner(t.families[f], x) && AncestorOrSelf(t, a, x) && AncestorOrSelf(t, c, d)
  }

  /** Every climb after a link is an old climb, or passes the new link exactly once. */
  lemma {:induction false} ClimbAfterLink(t: Tree, f: Uuid, c: Uuid, n: nat, a: Uuid, d: Uuid)
    requires f in t.families && LinkGuard(t, f, c) && Climbs(Linked(t, f, c), n, a, d)
    ensures AncestorOrSelf(t, a, d) || ThroughLink(t, f, c, a, d)
    decreases n
  {
    SelfIsAncestor(t, d);
    if n > 0 {
      var m :| Parent(Linked(t, f, c), m, d) && Climbs(Linked(t, f, c), n - 1, a, m);
      ClimbAfterLink(t, f, c, n - 1, a, m);
      LinkedParent(t, f, c, m, d);
      if Parent(t, m, d) {
        if AncestorOrSelf(t, a, m) {
          ParentIsAncestor(t, a, m, d);
        } else {
          ParentIsAncestor(t, c, m, d);
        }
      }
    }
  }

  /** A link that passes the guard closes no cycle. */
  lemma LinkKeepsAcyclic(t: Tree, f: Uuid, c: Uuid)
    requires Acyclic(t) && f in t.families && LinkGuard(t, f, c)
    ensures Acyclic(Linked(t, f, c))
  {
    forall p, n: nat | n > 0 ensures !Climbs(Linked(t, f, c), n, p, p) {
      if Climbs(Linked(t, f, c), n, p, p) {
        NoCycleAfterLink(t, f, c, n, p);
      }
    }
  }

  lemma NoCycleAfterLink(t: Tree, f: Uuid, c: Uuid, n: nat, p: Uuid)
    requires Acyclic(t) && f in t.families && LinkGuard(t, f, c) && n > 0
    ensures !Climbs(Linked(t, f, c), n, p, p)
  {
    if Climbs(Linked(t, f, c), n, p, p) {
      var m :| Parent(Linked(t, f, c), m, p) && Climbs(Linked(t, f, c), n - 1, p, m);
      ClimbAfterLink(t, f, c, n - 1, p, m);
      LinkedParent(t, f, c, m, p);
      if Parent(t, m, p) {
        NoReturn(t, m, p);
        var x :| Partner(t.families[f], x) && AncestorOrSelf(t, p, x) && AncestorOrSelf(t, c, m);
        ParentIsAncestor(t, c, m, p);
        AncestorOfAncestor(t, c, p, x);
      }
    }
  }

  /** And the guard is exact: without it the link would close a cycle. */
  lemma GuardIsNeeded(t: Tree, f: Uuid, c: Uuid)
    requires f in t.families && !LinkGuard(t, f, c)
    ensures !Acyclic(Linked(t, f, c))
  {
    var x :| Partner(t.families[f], x) && AncestorOrSelf(t, c, x);
    var n: nat :| Climbs(t, n, c, x);
    MoreLinksMoreClimbs(t, f, c, n, c, x);
    LinkedParent(t, f, c, x, c);
    ClimbOn(Linked(t, f, c), n, c, x, c);
  }

  lemma {:induction false} MoreLinksMoreClimbs(t: Tree, f: Uuid, c: Uuid, n: nat, a: Uuid, d: Uuid)
    requires f in t.families && Climbs(t, n, a, d)
    ensures Climbs(Linked(t, f, c), n, a, d)
    decreases n
  {
    if n > 0 {
      var m :| Parent(t, m, d) && Climbs(t, n - 1, a, m);
      MoreLinksMoreClimbs(t, f, c, n - 1, a, m);
      LinkedParent(t, f, c, m, d);
      ClimbOn(Linked(t, f, c), n - 1, a, m, d);
    }
  }

  lemma LinkKeepsTree(t: Tree, f: Uuid, c: Uuid)
    requires TreeOk(t) && f in t.families && c in t.persons && !IsChild(t, c) && LinkGuard(t, f, c)
    ensures TreeOk(Linked(t, f, c))
  {
    LinkKeepsAcyclic(t, f, c);
    forall k, l | k in Linked(t, f, c).children && l in Linked(t, f, c).children && k.1 == l.1 ensures k.0 == l.0 {
      assert k in t.children ==> IsChild(t, k.1) by {
        assert k == (k.0, k.1);
      }
      assert l in t.children ==> IsChild(t, l.1) by {
        assert l == (l.0, l.1);
      }
    }
  }

  // --- Taking rows away, changing rows ---

  /** Fewer parent links: every climb was a climb before. */
  lemma {:induction false} FewerParents(t: Tree, u: Tree, n: nat, a: Uuid, d: Uuid)
    requires forall m, c :: Parent(u, m, c) ==> Parent(t, m, c)
    requires Climbs(u, n, a, d)
    ensures Climbs(t, n, a, d)
    decreases n
  {
    if n > 0 {
      var m :| Parent(u, m, d) && Climbs(u, n - 1, a, m);
      FewerParents(t, u, n - 1, a, m);
    }
  }

  lemma FewerParentsAcyclic(t: Tree, u: Tree)
    requires Acyclic(t) && forall m, c :: Parent(u, m, c) ==> Parent(t, m, c)
    ensures Acyclic(u)
  {
    forall p, n: nat | n > 0 ensures !Climbs(u, n, p, p) {
      if Climbs(u, n, p, p) {
        FewerParents(t, u, n, p, p);
      }
    }
  }

  /** Removing links, or families no link names, or renaming nobody's partners, keeps the tree. */
  lemma SmallerKeepsAcyclic(t: Tree, u: Tree)
    requires Acyclic(t) && u.children <= t.children
    requires forall f, p :: f in u.families && Partner(u.families[f], p) ==>
      (f in t.families && Partner(t.families[f], p)) || forall c :: (f, c) !in u.children
    ensures Acyclic(u)
  {
    forall m, c | Parent(u, m, c) ensures Parent(t, m, c) {
      var f :| ParentVia(u, f, m, c);
      assert ParentVia(t, f, m, c);
    }
    FewerParentsAcyclic(t, u);
  }

  // --- Merging two persons ---

  function Rename(p: Uuid, survivor: Uuid, merged: Uuid): Uuid
  {
    if p == merged then survivor else p
  }

  function RenamePartner(p: Option<Uuid>, survivor: Uuid, merged: Uuid): Option<Uuid>
  {
    if p == Some(merged) then Some(survivor) else p
  }

  function RenameFamily(f: Family, survivor: Uuid, merged: Uuid): Family
  {
    f.(partner1 := RenamePartner(f.partner1, survivor, merged), partner2 := RenamePartner(f.partner2, survivor, merged))
  }

  /** The child links after a merge: the merged person's go, and pass on to a survivor that has none. */
  ghost function ContractedChildren(t: Tree, survivor: Uuid, merged: Uuid): set<(Uuid, Uuid)>
  {
    (set l | l in t.children && l.1 != merged)
    + (if IsChild(t, survivor) then {} else set l | l in t.children && l.1 == merged :: (l.0, survivor))
  }

  /** The tree after a merge: the merged person's node is contracted into the survivor's. */
  ghost function Contracted(t: Tree, survivor: Uuid, merged: Uuid): Tree
  {
    Tree(t.persons - {merged},
         map f | f in t.families :: RenameFamily(t.families[f], survivor, merged),
         ContractedChildren(t, survivor, merged))
  }

  /** What `validateMergeRelationships` accepts. */
  ghost predicate MergeGuard(t: Tree, s: Uuid, m: Uuid)
  {
    && s != m && !AncestorOrSelf(t, m, s) && !AncestorOrSelf(t, s, m)
    && (forall k, l :: k in t.children && l in t.children && k.1 == s && l.1 == m ==> k.0 == l.0)
  }

  ghost predicate OneOfTwo(x: Uuid, s: Uuid, m: Uuid)
  {
    x == s || x == m
  }

  /** Between the two merged persons there is no climb at all. */
  lemma NoInnerClimb(t: Tree, s: Uuid, m: Uuid, n: nat, x: Uuid, y: Uuid)
    requires Acyclic(t) && MergeGuard(t, s, m) && OneOfTwo(x, s, m) && OneOfTwo(y, s, m) && n > 0
    ensures !Climbs(t, n, x, y)
  {
  }

  /** A parent link after the merge was one before, up to the renaming. */
  lemma ContractedParent(t: Tree, s: Uuid, m: Uuid, p: Uuid, c: Uuid)
    requires Parent(Contracted(t, s, m), p, c)
    ensures exists q, d :: Parent(t, q, d) && Rename(q, s, m) == p && Rename(d, s, m) == c
  {
    var u := Contracted(t, s, m);
    var f :| ParentVia(u, f, p, c);
    var q := if Partner(t.families[f], p) && p != m then p else m;
    var d := if (f, c) in t.children && c != m then c else m;
    assert ParentVia(t, f, q, d);
    assert Parent(t, q, d);
  }

  /**
   * A climb after the merge, read in the tree before it: one climb of the same length, or two that
   * meet in the contracted node, the upper ending at one of the two persons and the lower starting at one.
   */
  ghost predicate Unfolds(t: Tree, s: Uuid, m: Uuid, n: nat, a: Uuid, d: Uuid)
  {
    exists a0, d0 :: Rename(a0, s, m) == a && Rename(d0, s, m) == d && UnfoldsTo(t, s, m, n, a0, d0)
  }

  ghost predicate UnfoldsTo(t: Tree, s: Uuid, m: Uuid, n: nat, a0: Uuid, d0: Uuid)
  {
    Climbs(t, n, a0, d0) || exists i, x, y :: MeetsAt(t, s, m, n, a0, d0, i, x, y)
  }

  ghost predicate MeetsAt(t: Tree, s: Uuid, m: Uuid, n: nat, a0: Uuid, d0: Uuid, i: nat, x: Uuid, y: Uuid)
  {
    i <= n && OneOfTwo(x, s, m) && OneOfTwo(y, s, m) && Climbs(t, i, a0, x) && Climbs(t, n - i, y, d0)
  }

  lemma {:induction false} ContractedClimb(t: Tree, s: Uuid, m: Uuid, n: nat, a: Uuid, d: Uuid)
    requires Acyclic(t) && MergeGuard(t, s, m) && a != m && d != m
    requires Climbs(Contracted(t, s, m), n, a, d)
    ensures Unfolds(t, s, m, n, a, d)
    decreases n
  {
    var u := Contracted(t, s, m);
    if n == 0 {
      assert Climbs(t, 0, a, a);
      assert UnfoldsTo(t, s, m, 0, a, a);
    } else {
      var k :| Parent(u, k, d) && Climbs(u, n - 1, a, k);
      ContractedParent(t, s, m, k, d);
      var q, d0 :| Parent(t, q, d0) && Rename(q, s, m) == k && Rename(d0, s, m) == d;
      ContractedClimb(t, s, m, n - 1, a, k);
      var a0, e0 :| Rename(a0, s, m) == a && Rename(e0, s, m) == k && UnfoldsTo(t, s, m, n - 1, a0, e0);
      UnfoldOn(t, s, m, n, a0, e0, q, d0);
    }
  }

  /** One more link below a climb that has been unfolded. */
  lemma UnfoldOn(t: Tree, s: Uuid, m: Uuid, n: nat, a0: Uuid, e0: Uuid, q: Uuid, d0: Uuid)
    requires Acyclic(t) && MergeGuard(t, s, m) && n > 0
    requires UnfoldsTo(t, s, m, n - 1, a0, e0) && Parent(t, q, d0) && Rename(q, s, m) == Rename(e0, s, m)
    ensures UnfoldsTo(t, s, m, n, a0, d0)
  {
    assert Climbs(t, 0, q, q);
    ClimbOn(t, 0, q, q, d0);
    if Climbs(t, n - 1, a0, e0) {
      if e0 == q {
        ClimbOn(t, n - 1, a0, q, d0);
      } else {
        assert MeetsAt(t, s, m, n, a0, d0, n - 1, e0, q);
      }
    } else {
      var i, x, y :| MeetsAt(t, s, m, n - 1, a0, e0, i, x, y);
      if e0 == q {
        ClimbOn(t, n - 1 - i, y, q, d0);
        assert MeetsAt(t, s, m, n, a0, d0, i, x, y);
      } else {
        if n - 1 - i > 0 {
          NoInnerClimb(t, s, m, n - 1 - i, y, e0);
        }
        assert MeetsAt(t, s, m, n, a0, d0, n - 1, x, q);
      }
    }
  }

  lemma NoCycleAfterMerge(t: Tree, s: Uuid, m: Uuid, n: nat, p: Uuid)
    requires Acyclic(t) && MergeGuard(t, s, m) && n > 0 && p != m
    ensures !Climbs(Contracted(t, s, m), n, p, p)
  {
    if Climbs(Contracted(t, s, m), n, p, p) {
      ContractedClimb(t, s, m, n, p, p);
      var a0, d0 :| Rename(a0, s, m) == p && Rename(d0, s, m) == p && UnfoldsTo(t, s, m, n, a0, d0);
      if Climbs(t, n, a0, d0) {
        if p == s {
          NoInnerClimb(t, s, m, n, a0, d0);
        }
      } else {
        var i, x, y :| MeetsAt(t, s, m, n, a0, d0, i, x, y);
        if p != s {
          ClimbTwice(t, n - i, i, y, p, x);
          NoInnerClimb(t, s, m, n, y, x);
        } else if i > 0 {
          NoInnerClimb(t, s, m, i, a0, x);
        } else {
          NoInnerClimb(t, s, m, n, y, d0);
        }
      }
    }
  }

  /** Contraction keeps ancestry acyclic whenever the merge's own guard accepts. */
  lemma MergeKeepsAcyclic(t: Tree, s: Uuid, m: Uuid)
    requires Acyclic(t) && MergeGuard(t, s, m)
    ensures Acyclic(Contracted(t, s, m))
  {
    forall p, n: nat | n > 0 ensures !Climbs(Contracted(t, s, m), n, p, p) {
      if p != m {
        NoCycleAfterMerge(t, s, m, n, p);
      } else {
        MergedIsGone(t, s, m, n);
      }
    }
  }

  lemma MergedIsGone(t: Tree, s: Uuid, m: Uuid, n: nat)
    requires s != m && n > 0
    ensures !Climbs(Contracted(t, s, m), n, m, m)
  {
    var u := Contracted(t, s, m);
    forall k ensures !Parent(u, k, m) {
      assert forall f :: (f, m) !in u.children;
    }
  }

  /** No two families the two persons are children of differ. */
  ghost predicate ChildFamiliesAgree(t: Tree, s: Uuid, m: Uuid)
  {
    forall f, g :: (f, s) in t.children && (g, m) in t.children ==> f == g
  }

  /** Where the two child families agree, every parent link survives the contraction. */
  lemma ParentStays(t: Tree, s: Uuid, m: Uuid, p: Uuid, c: Uuid)
    requires s != m && ChildFamiliesAgree(t, s, m) && Parent(t, p, c)
    ensures Parent(Contracted(t, s, m), Rename(p, s, m), Rename(c, s, m))
  {
    var u := Contracted(t, s, m);
    var f :| ParentVia(t, f, p, c);
    assert (f, c).0 == f && (f, c).1 == c;
    if c == m {
      if g :| (g, s) in t.children {
        assert (f, s) in u.children by {
          assert (f, s).1 != m;
        }
      } else {
        assert !IsChild(t, s);
        assert (f, s) in u.children;
      }
    }
    assert Partner(u.families[f], Rename(p, s, m));
    assert ParentVia(u, f, Rename(p, s, m), Rename(c, s, m));
  }

  lemma {:induction false} ClimbStays(t: Tree, s: Uuid, m: Uuid, n: nat, a: Uuid, d: Uuid)
    requires s != m && ChildFamiliesAgree(t, s, m) && Climbs(t, n, a, d)
    ensures Climbs(Contracted(t, s, m), n, Rename(a, s, m), Rename(d, s, m))
    decreases n
  {
    if n > 0 {
      var k :| Parent(t, k, d) && Climbs(t, n - 1, a, k);
      ClimbStays(t, s, m, n - 1, a, k);
      ParentStays(t, s, m, k, d);
      ClimbOn(Contracted(t, s, m), n - 1, Rename(a, s, m), Rename(k, s, m), Rename(d, s, m));
    }
  }

  /** The merge's guard is exact: it accepts just the contractions that lose no parent and close no cycle. */
  lemma MergeGuardIff(t: Tree, s: Uuid, m: Uuid)
    requires Acyclic(t)
    ensures MergeGuard(t, s, m) <==> s != m && ChildFamiliesAgree(t, s, m) && Acyclic(Contracted(t, s, m))
  {
    AgreeIsGuard(t, s, m);
    if MergeGuard(t, s, m) {
      MergeKeepsAcyclic(t, s, m);
    } else if s != m && ChildFamiliesAgree(t, s, m) {
      if AncestorOrSelf(t, m, s) {
        var n: nat :| Climbs(t, n, m, s);
        ClimbStays(t, s, m, n, m, s);
      } else {
        var n: nat :| Climbs(t, n, s, m);
        ClimbStays(t, s, m, n, s, m);
      }
    }
  }

  lemma AgreeIsGuard(t: Tree, s: Uuid, m: Uuid)
    ensures ChildFamiliesAgree(t, s, m)
      <==> forall k, l :: k in t.children && l in t.children && k.1 == s && l.1 == m ==> k.0 == l.0
  {
    if ChildFamiliesAgree(t, s, m) {
      forall k, l | k in t.children && l in t.children && k.1 == s && l.1 == m ensures k.0 == l.0 {
        assert k == (k.0, s) && l == (l.0, m);
      }
    } else {
      var f, g :| (f, s) in t.children && (g, m) in t.children && f != g;
      assert (f, s).1 == s && (g, m).1 == m && (f, s).0 != (g, m).0;
    }
  }

  lemma MergeKeepsTree(t: Tree, s: Uuid, m: Uuid)
    requires TreeOk(t) && MergeGuard(t, s, m) && s in t.persons
    ensures TreeOk(Contracted(t, s, m))
  {
    MergeKeepsAcyclic(t, s, m);
    var u := Contracted(t, s, m);
    forall f, p | f in u.families && Partner(u.families[f], p) ensures p in u.persons {
      assert Partner(t.families[f], p) || Partner(t.families[f], m);
    }
    forall k, l | k in u.children && l in u.children && k.1 == l.1 ensures k.0 == l.0 {
      assert k in t.children && k.1 == s ==> IsChild(t, s) by {
        assert k == (k.0, k.1);
      }
      assert l in t.children && l.1 == s ==> IsChild(t, s) by {
        assert l == (l.0, l.1);
      }
    }
  }

  /**
   * Merging does not always keep the two partners of a family distinct: it does exactly when no family
   * has both merged persons as its partners.
   */
  lemma MergeKeepsPartnersDistinctIff(t: Tree, s: Uuid, m: Uuid)
    requires DistinctPartners(t) && s != m
    ensures DistinctPartners(Contracted(t, s, m))
      <==> forall f :: f in t.families ==> !(Partner(t.families[f], s) && Partner(t.families[f], m))
  {
    var u := Contracted(t, s, m);
    if f :| f in t.families && Partner(t.families[f], s) && Partner(t.families[f], m) {
      assert f in u.families && u.families[f].partner1 == Some(s) == u.families[f].partner2;
    }
  }

  /** Two spouses pass every check of a merge, and their family ends up married to itself. */
  lemma MergingSpouses() returns (t: Tree)
    ensures TreeOk(t) && DistinctPartners(t) && 1 in t.persons && 2 in t.persons && MergeGuard(t, 1, 2)
    ensures !DistinctPartners(Contracted(t, 1, 2))
  {
    t := Tree({1, 2}, map[9 := Family(Some(1), Some(2), "marriage", "", 1)], {});
    forall p, c ensures !Parent(t, p, c) {
    }
    forall n: nat, a, d | n > 0 ensures !Climbs(t, n, a, d) {
    }
    assert Partner(t.families[9], 1) && Partner(t.families[9], 2);
    MergeKeepsPartnersDistinctIff(t, 1, 2);
  }

  // --- Why runs are sequential ---

  /** The two new links would meet: above the first family stands the second child, above the second the first. */
  ghost predicate LinksCross(t: Tree, f: Uuid, c: Uuid, g: Uuid, d: Uuid)
    requires f in t.families && g in t.families
  {
    && (exists x :: Partner(t.families[f], x) && AncestorOrSelf(t, d, x))
    && (exists y :: Partner(t.families[g], y) && AncestorOrSelf(t, c, y))
  }

  /** A person is above another after a link by an old climb, or through the link. */
  lemma AncestorAfterLink(t: Tree, f: Uuid, c: Uuid, a: Uuid, d: Uuid)
    requires f in t.families && LinkGuard(t, f, c)
    ensures AncestorOrSelf(Linked(t, f, c), a, d) <==> AncestorOrSelf(t, a, d) || ThroughLink(t, f, c, a, d)
  {
    var u := Linked(t, f, c);
    if AncestorOrSelf(u, a, d) {
      var n: nat :| Climbs(u, n, a, d);
      ClimbAfterLink(t, f, c, n, a, d);
    }
    if AncestorOrSelf(t, a, d) {
      StillAncestor(t, f, c, a, d);
    }
    if x :| Partner(t.families[f], x) && AncestorOrSelf(t, a, x) && AncestorOrSelf(t, c, d) {
      StillAncestor(t, f, c, a, x);
      StillAncestor(t, f, c, c, d);
      LinkedParent(t, f, c, x, c);
      ParentIsAncestor(u, a, x, c);
      AncestorOfAncestor(u, a, c, d);
    }
  }

  lemma StillAncestor(t: Tree, f: Uuid, c: Uuid, a: Uuid, d: Uuid)
    requires f in t.families && AncestorOrSelf(t, a, d)
    ensures AncestorOrSelf(Linked(t, f, c), a, d)
  {
    var n: nat :| Climbs(t, n, a, d);
    MoreLinksMoreClimbs(t, f, c, n, a, d);
  }

  /**
   * Two links that each passed the guard on the same tree keep ancestry acyclic together exactly when
   * they do not cross.
   */
  lemma TwoLinksKeepAcyclicIff(t: Tree, f: Uuid, c: Uuid, g: Uuid, d: Uuid)
    requires Acyclic(t) && f in t.families && g in t.families && LinkGuard(t, f, c) && LinkGuard(t, g, d)
    ensures Acyclic(Linked(Linked(t, f, c), g, d)) <==> !LinksCross(t, f, c, g, d)
  {
    var u := Linked(t, f, c);
    LinkKeepsAcyclic(t, f, c);
    forall y | Partner(t.families[g], y)
      ensures AncestorOrSelf(u, d, y) <==> ThroughLink(t, f, c, d, y)
    {
      AncestorAfterLink(t, f, c, d, y);
    }
    if LinkGuard(u, g, d) {
      LinkKeepsAcyclic(u, g, d);
    } else {
      GuardIsNeeded(u, g, d);
    }
  }

  /**
   * Two links checked against the same tree can close a cycle together: the version an append compares
   * is the family's, and the two links go to different families.
   */
  lemma TwoGuardedLinksCanCycle() returns (t: Tree)
    ensures TreeOk(t) && {8, 9} <= t.families.Keys && !IsChild(t, 1) && !IsChild(t, 2)
    ensures LinkGuard(t, 8, 2) && LinkGuard(t, 9, 1)
    ensures !Acyclic(Linked(Linked(t, 8, 2), 9, 1))
  {
    t := Tree({1, 2}, map[8 := Family(Some(1), None, "", "", 1), 9 := Family(Some(2), None, "", "", 1)], {});
    forall p, c ensures !Parent(t, p, c) {
    }
    forall n: nat, a, d | n > 0 ensures !Climbs(t, n, a, d) {
    }
    var u := Linked(t, 8, 2);
    LinkedParent(t, 8, 2, 1, 2);
    SelfIsAncestor(u, 1);
    ParentIsAncestor(u, 1, 1, 2);
    assert Partner(u.families[9], 2);
    GuardIsNeeded(u, 9, 1);
  }
}
