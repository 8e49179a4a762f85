/*
 * `bypassBrokenInclusions` of translate.go: before the walk, every title
 * and index term found directly inside an include element is taken out of
 * the include and appended to the include's parent, so that it survives
 * when the include is replaced by a reference to another file.
 *
 * The pass changes the tree in place: a moved node leaves its parent's
 * children and joins its grandparent's, and its parent pointer follows. The
 * ghost shape describes the tree before and after; ranks never change, since
 * a node only ever moves closer to the root.
 */
module Bypass {
  import opened Wrappers
  import opened XmlChunk

  /** The kinds the pass lifts out of an include. */
  const Lifted: seq<string> := ["title", "indexterm"]

  /** A tree whose parent and child links agree both ways and in which no
      node holds the same child twice. */
  ghost predicate Linked(sh: Shape)
    reads sh.kids.Keys, sh.rank.Keys
  {
    sh.Ok() && Mirrors(sh) && DownLinked(sh) && ParentsRanked(sh) && UpLinked(sh) && KidsDistinct(sh)
  }

  /** `cs` without any occurrence of `c`, in order. */
  function Without(cs: seq<Chunk>, c: Chunk): seq<Chunk>
  {
    if cs == [] then []
    else if cs[0] == c then Without(cs[1..], c)
    else [cs[0]] + Without(cs[1..], c)
  }

  /** Leaving out `c` removes every occurrence of `c` and nothing else. */
  lemma {:induction false} WithoutCounts(cs: seq<Chunk>, c: Chunk)
    ensures multiset(Without(cs, c)) == multiset(cs)[c := 0]
  {
    if cs != [] {
      assert cs == [cs[0]] + cs[1..];
      WithoutCounts(cs[1..], c);
    }
  }

  /** Leaving out `c` keeps exactly the other entries; one occurrence of `c`
      costs one entry. */
  lemma WithoutMembers(cs: seq<Chunk>, c: Chunk)
    ensures forall y :: y in Without(cs, c) <==> y in cs && y != c
    ensures multiset(cs)[c] == 1 ==> |Without(cs, c)| == |cs| - 1
  {
    WithoutCounts(cs, c);
    var r := Without(cs, c);
    assert forall x :: x in r <==> x in multiset(r);
    assert forall x :: x in cs <==> x in multiset(cs);
    assert |multiset(r)| == |r| && |multiset(cs)| == |cs|;
    if multiset(cs)[c] == 1 {
      assert multiset(cs) == multiset(r) + multiset{c};
    }
  }

  /** Leaving a node out of a list without repeats leaves no repeats. */
  lemma {:induction false} WithoutDistinct(cs: seq<Chunk>, c: Chunk)
    requires Distinct(cs)
    ensures Distinct(Without(cs, c))
  {
    if cs != [] {
      assert Distinct(cs[1..]);
      WithoutDistinct(cs[1..], c);
      if cs[0] != c {
        var w := Without(cs[1..], c);
        WithoutMembers(cs[1..], c);
        assert cs[0] !in w;
        assert forall j :: 0 < j <= |w| ==> ([cs[0]] + w)[j] == w[j - 1];
      }
    }
  }

  /** Moving the one occurrence of `c` from a parent's children `pc` to the
      end of a grandparent's children `gc` loses and duplicates nothing. */
  lemma MoveKeepsNodes(pc: seq<Chunk>, gc: seq<Chunk>, c: Chunk)
    requires multiset(pc)[c] == 1
    ensures multiset(Without(pc, c)) + multiset(gc + [c]) == multiset(pc) + multiset(gc)
  {
    WithoutCounts(pc, c);
  }

  /** The loop that builds `newSibs`: every sibling other than `c`. */
  method Siblings(children: seq<Chunk>, c: Chunk) returns (newSibs: seq<Chunk>)
    ensures newSibs == Without(children, c)
  {
    newSibs := [];
    for i := 0 to |children|
      invariant newSibs + Without(children[i..], c) == Without(children, c)
    {
      assert children[i..] == [children[i]] + children[i + 1..];
      if children[i] != c {
        newSibs := newSibs + [children[i]];
      }
    }
    assert children[|children|..] == [];
  }

  /** The shape after `c` moves from the children of `p` to the end of the
      children of `g`. */
  ghost function Moved(sh: Shape, c: Chunk, p: Chunk, g: Chunk): Shape
    requires p in sh.kids && g in sh.kids
  {
    Shape(sh.kids[p := Without(sh.kids[p], c)][g := sh.kids[g] + [c]], sh.rank, sh.bound)
  }

  /** Moving a node to a node ranked below its parent keeps the ranks
      rising from parent to child. */
  lemma MovedOk(sh: Shape, c: Chunk, p: Chunk, g: Chunk)
    requires sh.Ok() && p in sh.kids && g in sh.kids && c in sh.kids[p]
    requires sh.rank[g] < sh.rank[p]
    ensures Moved(sh, c, p, g).Ok()
  {
    var m := Moved(sh, c, p, g);
    WithoutMembers(sh.kids[p], c);
    WithoutCounts(sh.kids[p], c);
    var k :| 0 <= k < |sh.kids[p]| && sh.kids[p][k] == c;
    assert sh.rank[p] < sh.rank[c];
    forall x, i | x in m.kids && 0 <= i < |m.kids[x]|
      ensures m.kids[x][i] in m.rank && m.rank[x] < m.rank[m.kids[x][i]]
    {
      if x == g {
        if i < |sh.kids[g]| {
          assert m.kids[x][i] == sh.kids[g][i];
        }
      } else if x == p {
        assert m.kids[x] == Without(sh.kids[p], c);
        var y := m.kids[x][i];
        assert y in multiset(Without(sh.kids[p], c));
        var j :| 0 <= j < |sh.kids[p]| && sh.kids[p][j] == y;
      }
    }
  }

  /** The move adds `c` to the grandparent's children only where it was not
      already, so no node holds a child twice. */
  lemma MovedKidsDistinct(sh: Shape, c: Chunk, p: Chunk, g: Chunk)
    requires KidsDistinct(sh) && p in sh.kids && g in sh.kids && p != g && c !in sh.kids[g]
    ensures KidsDistinct(Moved(sh, c, p, g))
  {
    assert Distinct(sh.kids[p]);
    WithoutDistinct(sh.kids[p], c);
  }

  /** The parent of each of `ks`, as a value. */
  ghost function ParentsOf(ks: set<Chunk>): (r: map<Chunk, Chunk?>)
    reads ks`parent
    ensures r.Keys == ks && forall x :: x in ks ==> r[x] == x.parent
  {
    map x | x in ks :: x.parent
  }

  /** `Linked` with the parent pointers taken from `par` rather than from
      the heap. */
  ghost predicate LinkedBy(sh: Shape, par: map<Chunk, Chunk?>)
  {
    && sh.Ok() && par.Keys == sh.rank.Keys
    && (forall x, ch :: x in sh.kids && ch in sh.kids[x] ==> ch in par && par[ch] == x)
    && (forall x :: x in par && par[x] != null ==>
          par[x] in sh.rank && sh.rank[par[x]] < sh.rank[x] && x in sh.kids[par[x]])
  }

  /** In a linked tree, a map that agrees with the shape on every parent
      holds the parent pointer of `x`. */
  lemma ParentIs(sh: Shape, par: map<Chunk, Chunk?>, x: Chunk)
    requires Linked(sh) && LinkedBy(sh, par) && x in sh.rank
    ensures par[x] == x.parent
  {
    if x.parent != null {
      assert x in sh.kids[x.parent];
    } else if par[x] != null {
      assert false;
    }
  }

  /** The same for every node: such a map is a snapshot of the parent
      pointers. */
  lemma SnapOf(sh: Shape, par: map<Chunk, Chunk?>)
    requires Linked(sh) && LinkedBy(sh, par)
    ensures Snap(par, sh.rank.Keys)
  {
    forall x | x in sh.rank
      ensures par[x] == x.parent
    {
      ParentIs(sh, par, x);
    }
  }

  /** Moving `c` from its parent `p` to its grandparent `g` in the shape
      moves it in the map of parents too. */
  lemma MovedLinkedBy(sh: Shape, par: map<Chunk, Chunk?>, c: Chunk, p: Chunk, g: Chunk)
    requires LinkedBy(sh, par) && p in sh.kids && g in sh.kids && c in sh.kids[p]
    requires par[p] == g && Moved(sh, c, p, g).Ok()
    ensures LinkedBy(Moved(sh, c, p, g), par[c := g])
  {
    MovedHolders(sh, par, c, p, g);
    MovedHeld(sh, par, c, p, g);
  }

  /** After the move, each node's children have it as their parent in the
      updated map. */
  lemma MovedHolders(sh: Shape, par: map<Chunk, Chunk?>, c: Chunk, p: Chunk, g: Chunk)
    requires LinkedBy(sh, par) && p in sh.kids && g in sh.kids && c in sh.kids[p] && par[p] == g
    requires Moved(sh, c, p, g).Ok()
    ensures var m, q := Moved(sh, c, p, g), par[c := g];
      forall x, ch :: x in m.kids && ch in m.kids[x] ==> ch in q && q[ch] == x
  {
    var m, q := Moved(sh, c, p, g), par[c := g];
    WithoutMembers(sh.kids[p], c);
    assert par[c] == p && p != g;
    forall x, ch | x in m.kids && ch in m.kids[x]
      ensures ch in q && q[ch] == x
    {
      if ch != c {
        if x == g {
          assert m.kids[x] == sh.kids[g] + [c];
          assert ch in sh.kids[g];
        } else if x == p {
          assert m.kids[x] == Without(sh.kids[p], c);
          assert ch in sh.kids[p];
        } else {
          assert m.kids[x] == sh.kids[x];
        }
      } else if x != g {
        assert false;
      }
    }
  }

  /** After the move, each node's parent in the updated map ranks below it
      and holds it. */
  lemma MovedHeld(sh: Shape, par: map<Chunk, Chunk?>, c: Chunk, p: Chunk, g: Chunk)
    requires LinkedBy(sh, par) && p in sh.kids && g in sh.kids && c in sh.kids[p] && par[p] == g
    ensures var m, q := Moved(sh, c, p, g), par[c := g];
      forall x :: x in q && q[x] != null ==> q[x] in m.rank && m.rank[q[x]] < m.rank[x] && x in m.kids[q[x]]
  {
    var m, q := Moved(sh, c, p, g), par[c := g];
    WithoutMembers(sh.kids[p], c);
    assert par[c] == p && p != g;
    forall x | x in q && q[x] != null
      ensures q[x] in m.rank && m.rank[q[x]] < m.rank[x] && x in m.kids[q[x]]
    {
      if x != c {
        assert x in sh.kids[par[x]];
      } else {
        assert sh.rank[p] < sh.rank[c];
      }
    }
  }

  /** Moving `c` from its parent `p` to its grandparent `g`, where the heap
      follows the moved shape and `par` held the parents before, keeps every
      child pointing back at its holder. */
  lemma MovedDownLinked(sh: Shape, par: map<Chunk, Chunk?>, c: Chunk, p: Chunk, g: Chunk)
    requires LinkedBy(sh, par) && p in sh.kids && g in sh.kids && c in sh.kids[p] && p != g
    requires Moved(sh, c, p, g).Ok()
    requires c.parent == g && forall x :: x in sh.rank && x != c ==> x.parent == par[x]
    ensures DownLinked(Moved(sh, c, p, g))
  {
    var m := Moved(sh, c, p, g);
    WithoutMembers(sh.kids[p], c);
    WithoutCounts(sh.kids[p], c);
    assert par[c] == p;
    assert c !in multiset(m.kids[p]);
    forall x, ch | x in m.kids && ch in m.kids[x]
      ensures ch.parent == x
    {
      if ch != c {
        if x == p {
          assert ch in multiset(Without(sh.kids[p], c));
        }
        assert ch in sh.kids[x];
        assert ch in sh.rank && par[ch] == x;
      }
    }
  }

  /** The same move, with the children lists in the heap following it,
      leaves the heap mirroring the moved shape. */
  lemma MovedMirrors(sh: Shape, c: Chunk, p: Chunk, g: Chunk)
    requires p in sh.kids && g in sh.kids && p != g
    requires p.children == Without(sh.kids[p], c) && g.children == sh.kids[g] + [c]
    requires forall x :: x in sh.kids && x != p && x != g ==> x.children == sh.kids[x]
    ensures Mirrors(Moved(sh, c, p, g))
  {
  }

  /** The same move keeps every parent ranked below its child. */
  lemma MovedRanked(sh: Shape, par: map<Chunk, Chunk?>, c: Chunk, p: Chunk, g: Chunk)
    requires LinkedBy(sh, par)
    requires c in sh.kids && p in sh.kids && g in sh.kids && c in sh.kids[p]
    requires sh.rank[g] < sh.rank[p]
    requires c.parent == g && forall x :: x in sh.rank && x != c ==> x.parent == par[x]
    ensures ParentsRanked(Moved(sh, c, p, g))
  {
    assert sh.rank[p] < sh.rank[c];
  }

  /** The same move keeps every node with a parent among its parent's
      children. */
  lemma MovedUpLinked(sh: Shape, par: map<Chunk, Chunk?>, c: Chunk, p: Chunk, g: Chunk)
    requires LinkedBy(sh, par)
    requires c in sh.kids && p in sh.kids && g in sh.kids && c in sh.kids[p]
    requires c.parent == g && forall x :: x in sh.rank && x != c ==> x.parent == par[x]
    ensures UpLinked(Moved(sh, c, p, g))
  {
    var m := Moved(sh, c, p, g);
    WithoutMembers(sh.kids[p], c);
    forall x | x in m.rank && x.parent != null
      ensures x.parent in m.kids && x in m.kids[x.parent]
    {
      if x != c {
        assert x in sh.kids[par[x]];
      }
    }
  }

  /** The body of the pass for one lifted node `c` whose parent is an
      include: `c` leaves its parent's children, keeping the others in order,
      and is appended to its grandparent with `AddChild`. With no grandparent
      the call on nil panics, after the parent has already lost `c`. `par`
      holds the parents the shape gives, and then needs only `c`'s entry
      updated. */
  method Lift(c: Chunk, ghost sh: Shape, ghost par: map<Chunk, Chunk?>) returns (r: Result<()>, ghost sh': Shape)
    requires Linked(sh) && c in sh.kids && c.parent != null && LinkedBy(sh, par)
    modifies c`parent, c.parent`children, ({c.parent.parent} - {null})`children
    ensures old(c.parent).children == Without(old(c.parent.children), c)
    ensures r.Failure? <==> old(c.parent.parent) == null
    ensures r.Success? ==> c.parent == old(c.parent.parent)
    ensures r.Success? ==> c.parent.children == old(c.parent.parent.children) + [c]
    ensures r.Success? ==> sh' == Moved(sh, c, old(c.parent), old(c.parent.parent))
    ensures r.Success? ==> Linked(sh')
    ensures r.Success? ==> LinkedBy(sh', par[c := c.parent])
  {
    var p := c.parent;
    SnapOf(sh, par);
    assert c in sh.kids[p];
    var newSibs := Siblings(p.children, c);
    p.children := newSibs;
    var g := p.parent;
    if g == null {
      return Failure("nil pointer dereference"), sh;
    }
    assert g in sh.kids && sh.rank[g] < sh.rank[p] < sh.rank[c];
    sh' := Moved(sh, c, p, g);
    assert c !in sh.kids[g];
    g.AddChild(c);
    MovedMirrors(sh, c, p, g);
    MovedOk(sh, c, p, g);
    MovedDownLinked(sh, par, c, p, g);
    MovedRanked(sh, par, c, p, g);
    MovedUpLinked(sh, par, c, p, g);
    MovedKidsDistinct(sh, c, p, g);
    MovedLinkedBy(sh, par, c, p, g);
    r := Success(());
  }

  // ---------------------------------------------------------------------------
  // What the walk has visited, over snapshots of the parent pointers

  /** `par` holds the parent of each of `ks` as the heap has it now. */
  ghost predicate Snap(par: map<Chunk, Chunk?>, ks: set<Chunk>)
    reads ks`parent
  {
    par.Keys == ks && forall x {:trigger par[x]} :: x in ks ==> par[x] == x.parent
  }

  /** Every node of `seen` that has a parent in `par` has it in `seen` too. */
  ghost predicate Closed(seen: set<Chunk>, par: map<Chunk, Chunk?>)
  {
    forall y :: y in seen && y in par && par[y] != null ==> par[y] in seen
  }

  /** The nodes added to `seen` to give `seen'` are nodes of `cs` and nodes
      whose parent in `par` was added with them. */
  ghost predicate Reached(seen: set<Chunk>, seen': set<Chunk>, cs: seq<Chunk>, par: map<Chunk, Chunk?>)
  {
    seen <= seen' &&
    forall x :: x in seen' - seen ==> x in cs || (x in par && par[x] != null && par[x] in seen' - seen)
  }

  /** From the parents `par` to the parents `par'`, only nodes visited in
      between (in `seen'` and not in `seen`) change parent, and each of them
      is a title or index term that goes from an include to the
      include's own parent. */
  ghost predicate Rises(par: map<Chunk, Chunk?>, par': map<Chunk, Chunk?>, seen: set<Chunk>, seen': set<Chunk>)
  {
    && par'.Keys == par.Keys
    && forall x :: x in par && par'[x] != par[x] ==>
         && x in seen' && x !in seen && x.kind in Lifted
         && par[x] != null && par[x] in par && par[x].kind == "include" && par'[x] == par[par[x]]
  }

  /** A move of `c` alone, from its include `p` to the include's parent
      `g`, is a round of rising over `{c}`. */
  lemma RisesByOne(par: map<Chunk, Chunk?>, c: Chunk, p: Chunk, g: Chunk?)
    requires c in par && par[c] == p && p in par && par[p] == g
    requires c.kind in Lifted && p.kind == "include"
    ensures Rises(par, par[c := g], {}, {c})
  {
  }

  /** Two rounds of rising over disjoint sets of nodes are one round over
      both: an include never moves, so the grandparent a node rises to in the
      second round is the one it had before the first. */
  lemma RisesCompose(p0: map<Chunk, Chunk?>, p1: map<Chunk, Chunk?>, p2: map<Chunk, Chunk?>,
                     s0: set<Chunk>, s1: set<Chunk>, s2: set<Chunk>)
    requires Rises(p0, p1, s0, s1) && Rises(p1, p2, s1, s2) && s0 <= s1 <= s2
    ensures Rises(p0, p2, s0, s2)
  {
    assert "include" !in Lifted;
    forall x | x in p0 && p2[x] != p0[x]
      ensures x in s2 && x !in s0 && x.kind in Lifted
      ensures p0[x] != null && p0[x] in p0 && p0[x].kind == "include" && p2[x] == p0[p0[x]]
    {
      if p1[x] != p0[x] {
        assert p2[x] == p1[x];
      } else {
        var q := p0[x];
        assert p1[x] == q && q != null && q in p1 && q.kind == "include";
        assert p1[q] == p0[q];
      }
    }
  }

  /** A visit of `c` alone, when `c` has not been seen, adds just `c`. */
  lemma RisesWiden(p0: map<Chunk, Chunk?>, p1: map<Chunk, Chunk?>, c: Chunk, seen: set<Chunk>)
    requires Rises(p0, p1, {}, {c}) && c !in seen
    ensures Rises(p0, p1, seen, seen + {c})
  {
  }

  /** Lifting `c`, whose parent has been seen, keeps `seen` closed with and
      without `c`. */
  lemma ClosedAfterLift(seen: set<Chunk>, p0: map<Chunk, Chunk?>, p1: map<Chunk, Chunk?>, c: Chunk)
    requires Closed(seen, p0) && c !in seen && c in p0 && (p0[c] == null || p0[c] in seen)
    requires Rises(p0, p1, {}, {c})
    ensures Closed(seen, p1) && Closed(seen + {c}, p1)
  {
    forall y | y in seen + {c} && y in p1 && p1[y] != null
      ensures p1[y] in seen + {c}
    {
      if y == c && p1[c] != p0[c] {
        assert p0[c] in seen && p0[c] in p0;
      }
    }
  }

  /** A visit of `c` reaches `c` and, below it, what the walk of its
      children reaches. */
  lemma VisitReached(seen: set<Chunk>, seen': set<Chunk>, c: Chunk, kids: seq<Chunk>,
                     p0: map<Chunk, Chunk?>, p1: map<Chunk, Chunk?>)
    requires c !in seen && Reached(seen + {c}, seen', kids, p1) && Rises(p0, p1, {}, {c})
    requires forall k :: k in kids ==> k in p1 && p1[k] == c
    ensures Reached(seen, seen', [c], p0)
  {
    forall x | x in seen' - seen
      ensures x in [c] || (x in p0 && p0[x] != null && p0[x] in seen' - seen)
    {
      if x != c {
        assert x in p1 && p1[x] == p0[x];
      }
    }
  }

  /** Round `i` of the loop keeps what the earlier rounds reached. */
  lemma ReachedStep(seen: set<Chunk>, seenC: set<Chunk>, seenN: set<Chunk>, cs: seq<Chunk>, i: nat,
                    p0: map<Chunk, Chunk?>, pC: map<Chunk, Chunk?>)
    requires i < |cs| && Reached(seen, seenC, cs, p0) && Reached(seenC, seenN, [cs[i]], pC)
    requires Rises(p0, pC, seen, seenC)
    ensures Reached(seen, seenN, cs, p0)
  {
    forall x | x in seenN - seen
      ensures x in cs || (x in p0 && p0[x] != null && p0[x] in seenN - seen)
    {
      if x !in seenC && x != cs[i] {
        assert x in pC && pC[x] == p0[x];
      }
    }
  }

  /** A later node of `cs`, whose parent was seen before the loop, is not
      reached by the visit of an earlier one. */
  lemma UnvisitedStay(seen: set<Chunk>, seenC: set<Chunk>, seenN: set<Chunk>, cs: seq<Chunk>, i: nat,
                      p0: map<Chunk, Chunk?>, pC: map<Chunk, Chunk?>)
    requires Distinct(cs) && i < |cs| && seen <= seenC
    requires forall j :: i <= j < |cs| ==> cs[j] !in seenC
    requires forall c :: c in cs ==> c in p0 && (p0[c] == null || p0[c] in seen)
    requires Reached(seenC, seenN, [cs[i]], pC) && Rises(p0, pC, seen, seenC)
    ensures forall j :: i < j < |cs| ==> cs[j] !in seenN
  {
    forall j | i < j < |cs|
      ensures cs[j] !in seenN
    {
      assert cs[j] != cs[i] && cs[j] in cs;
      assert pC[cs[j]] == p0[cs[j]];
    }
  }

  /** A turn of the loop over `cs` that visits `cs[i]` keeps the loop's
      account of what has risen and been reached, and leaves the later
      nodes of `cs` unvisited. */
  lemma WalkStep(seen: set<Chunk>, seenC: set<Chunk>, seenN: set<Chunk>, cs: seq<Chunk>, i: nat,
                 p0: map<Chunk, Chunk?>, pC: map<Chunk, Chunk?>, pN: map<Chunk, Chunk?>)
    requires Distinct(cs) && i < |cs| && seen <= seenC
    requires forall j :: i <= j < |cs| ==> cs[j] !in seenC
    requires forall c :: c in cs ==> c in p0 && (p0[c] == null || p0[c] in seen)
    requires Reached(seen, seenC, cs, p0) && Rises(p0, pC, seen, seenC)
    requires Reached(seenC, seenN, [cs[i]], pC) && Rises(pC, pN, seenC, seenN)
    ensures Rises(p0, pN, seen, seenN) && Reached(seen, seenN, cs, p0)
    ensures forall j :: i < j < |cs| ==> cs[j] !in seenN
  {
    RisesCompose(p0, pC, pN, seen, seenC, seenN);
    ReachedStep(seen, seenC, seenN, cs, i, p0, pC);
    UnvisitedStay(seen, seenC, seenN, cs, i, p0, pC);
  }

  // ---------------------------------------------------------------------------
  // The pass

  /** `bypassBrokenInclusions`: each node of `cs` in turn is lifted out of
      its parent when it is a title or index term inside an include, and then
      its own children are visited. The loop runs over `cs` as it was when
      called, as Go's range does, so a node lifted into a list being walked
      is not visited twice. A title or index term with no parent, or whose
      include has no parent, makes the Go code dereference nil.

      `seen` holds the nodes visited before the call and `par` the parents
      at the call; the nodes of `cs` are not in `seen` and their parents
      are. The call visits `cs` and what lies below, each node once: the
      nodes it adds to `seen` are nodes of `cs` and nodes whose parent it
      added, and `par'` holds the parents at the end. The tree stays linked
      both ways with the same nodes and ranks, includes stay where they are,
      and the only nodes that change parent are visited titles and index
      terms, each of which moves from its include to that include's
      parent. */
  method BypassBrokenInclusions(cs: seq<Chunk>, ghost sh: Shape, ghost floor: nat,
                                ghost seen: set<Chunk>, ghost par: map<Chunk, Chunk?>)
    returns (r: Result<()>, ghost sh': Shape, ghost seen': set<Chunk>, ghost par': map<Chunk, Chunk?>)
    requires Linked(sh) && floor <= sh.bound && LinkedBy(sh, par)
    requires forall c :: c in cs ==> c in sh.kids && floor <= sh.rank[c]
    requires Distinct(cs) && Closed(seen, par)
    requires forall c :: c in cs ==> c !in seen && (par[c] == null || par[c] in seen)
    modifies sh.kids.Keys`children, sh.kids.Keys`parent
    ensures r.Success? ==> Linked(sh') && sh'.kids.Keys == sh.kids.Keys && sh'.rank == sh.rank && sh'.bound == sh.bound
    ensures r.Success? ==> LinkedBy(sh', par') && Closed(seen', par') && Reached(seen, seen', cs, par)
    ensures r.Success? ==> Rises(par, par', seen, seen')
    ensures r.Success? ==> forall x :: x in sh.kids && x.parent != old(x.parent) ==>
      && x in seen' && x !in seen && x.kind in Lifted
      && old(x.parent) != null && old(x.parent.kind) == "include" && x.parent == old(x.parent.parent)
    decreases sh.bound - floor, 2
  {
    r, sh', seen', par' := VisitEach(cs, sh, floor, seen, par);
    if r.Failure? {
      return;
    }
    SnapOf(sh', par');
    forall x | x in sh.kids && x.parent != old(x.parent)
      ensures x in seen' && x !in seen && x.kind in Lifted
      ensures old(x.parent) != null && old(x.parent.kind) == "include" && x.parent == old(x.parent.parent)
    {
      assert par'[x] == x.parent;
      assert par[x] == old(x.parent) by {
        if old(x.parent) != null {
          assert old(x in sh.kids[x.parent]);
        }
      }
      ghost var y := par[x];
      assert y != null && y in sh.rank;
      assert par[y] == old(y.parent) by {
        if old(y.parent) != null {
          assert old(y in sh.kids[y.parent]);
        }
      }
    }
  }

  /** The loop of `bypassBrokenInclusions`: each node of `cs` visited in
      turn, the walk's invariants kept throughout. */
  method VisitEach(cs: seq<Chunk>, ghost sh: Shape, ghost floor: nat,
                   ghost seen: set<Chunk>, ghost par: map<Chunk, Chunk?>)
    returns (r: Result<()>, ghost sh': Shape, ghost seen': set<Chunk>, ghost par': map<Chunk, Chunk?>)
    requires Linked(sh) && floor <= sh.bound && LinkedBy(sh, par)
    requires forall c :: c in cs ==> c in sh.kids && floor <= sh.rank[c]
    requires Distinct(cs) && Closed(seen, par)
    requires forall c :: c in cs ==> c !in seen && (par[c] == null || par[c] in seen)
    modifies sh.kids.Keys`children, sh.kids.Keys`parent
    ensures r.Success? ==> Linked(sh') && sh'.kids.Keys == sh.kids.Keys && sh'.rank == sh.rank && sh'.bound == sh.bound
    ensures r.Success? ==> LinkedBy(sh', par') && Closed(seen', par') && Reached(seen, seen', cs, par)
    ensures r.Success? ==> Rises(par, par', seen, seen')
    decreases sh.bound - floor, 1
  {
    sh', seen', par' := sh, seen, par;
    for i := 0 to |cs|
      invariant Linked(sh') && sh'.kids.Keys == sh.kids.Keys && sh'.rank == sh.rank && sh'.bound == sh.bound
      invariant LinkedBy(sh', par') && Closed(seen', par') && Reached(seen, seen', cs, par)
      invariant Rises(par, par', seen, seen')
      invariant forall j :: i <= j < |cs| ==> cs[j] !in seen'
    {
      ghost var pC, seenC := par', seen';
      assert cs[i] in par && pC[cs[i]] == par[cs[i]];
      r, sh', seen', par' := Visit(cs[i], sh', seen', par');
      if r.Failure? {
        return;
      }
      WalkStep(seen, seenC, seen', cs, i, par, pC, par');
    }
    r := Success(());
  }

  /** One turn of the loop of `bypassBrokenInclusions`: `c` is lifted if it
      is a title or index term inside an include, then its children, as they
      are after the lift, are visited. `c` must be unvisited and its parent
      visited; the visit adds `c` and nodes below it to `seen`, and only
      those of them that are titles or index terms inside includes rise. */
  method Visit(c: Chunk, ghost sh: Shape, ghost seen: set<Chunk>, ghost par: map<Chunk, Chunk?>)
    returns (r: Result<()>, ghost sh': Shape, ghost seen': set<Chunk>, ghost par': map<Chunk, Chunk?>)
    requires Linked(sh) && c in sh.kids && LinkedBy(sh, par)
    requires Closed(seen, par) && c !in seen && (par[c] == null || par[c] in seen)
    modifies sh.kids.Keys`children, sh.kids.Keys`parent
    ensures r.Success? ==> Linked(sh') && sh'.kids.Keys == sh.kids.Keys && sh'.rank == sh.rank && sh'.bound == sh.bound
    ensures r.Success? ==> LinkedBy(sh', par') && Closed(seen', par') && Reached(seen, seen', [c], par)
    ensures r.Success? ==> Rises(par, par', seen, seen')
    ensures r.Success? ==> forall x :: x in sh.kids && x.parent != old(x.parent) ==>
      && x in seen' && x !in seen && x.kind in Lifted
      && old(x.parent) != null && old(x.parent.kind) == "include" && x.parent == old(x.parent.parent)
    decreases sh.bound - sh.rank[c], 0
  {
    SnapOf(sh, par);
    ghost var p1;
    r, sh', p1 := LiftOne(c, sh, par);
    seen', par' := seen, p1;
    if r.Failure? {
      return;
    }
    ClosedAfterLift(seen, par, p1, c);
    ghost var kids := c.children;
    KidsBelow(c, kids, sh', seen, p1);
    r, sh', seen', par' := BypassBrokenInclusions(c.children, sh', sh.rank[c] + 1, seen + {c}, p1);
    if r.Failure? {
      return;
    }
    RisesWiden(par, p1, c, seen);
    RisesCompose(par, p1, par', seen, seen + {c}, seen');
    VisitReached(seen, seen', c, kids, par, p1);
    SnapOf(sh', par');
    forall x | x in sh.kids && x.parent != old(x.parent)
      ensures x in seen' && x !in seen && x.kind in Lifted
      ensures old(x.parent) != null && old(x.parent.kind) == "include" && x.parent == old(x.parent.parent)
    {
      assert par[x] == old(x.parent) && par'[x] == x.parent;
      assert par[par[x]] == old(par[x].parent);
    }
  }

  /** The children of `c`, whose parents `par` holds, are new to the walk,
      have `c` as their parent and hold no repeats. */
  lemma KidsBelow(c: Chunk, kids: seq<Chunk>, sh: Shape, seen: set<Chunk>, par: map<Chunk, Chunk?>)
    requires Linked(sh) && c in sh.kids && kids == c.children && c !in seen
    requires LinkedBy(sh, par) && Closed(seen, par)
    ensures Distinct(kids)
    ensures forall k :: k in kids ==> k in sh.kids && sh.rank[c] + 1 <= sh.rank[k]
    ensures forall k :: k in kids ==> k in par && par[k] == c
    ensures forall k :: k in kids ==> k !in seen + {c} && (par[k] == null || par[k] in seen + {c})
  {
    forall k | k in kids
      ensures k in sh.kids && sh.rank[c] + 1 <= sh.rank[k] && k in par && par[k] == c
    {
      var i :| 0 <= i < |kids| && kids[i] == k;
      assert kids[i] == sh.kids[c][i];
    }
  }

  /** The Go test on `c` dereferences nil: `c` is a title or index term
      with no parent, or inside an include that has no parent. */
  ghost predicate Stuck(c: Chunk)
    reads c, ({c.parent} - {null})
  {
    c.kind in Lifted && (c.parent == null || (c.parent.kind == "include" && c.parent.parent == null))
  }

  /** The test and the move for one node `c` of the walk: a title or index
      term whose parent is an include goes up to the include's parent; no
      other node changes parent. */
  method LiftOne(c: Chunk, ghost sh: Shape, ghost par: map<Chunk, Chunk?>)
    returns (r: Result<()>, ghost sh': Shape, ghost par': map<Chunk, Chunk?>)
    requires Linked(sh) && c in sh.kids && LinkedBy(sh, par)
    modifies sh.kids.Keys`children, sh.kids.Keys`parent
    ensures r.Failure? <==> old(Stuck(c))
    ensures r.Success? ==> Linked(sh') && sh'.kids.Keys == sh.kids.Keys && sh'.rank == sh.rank && sh'.bound == sh.bound
    ensures r.Success? ==> forall x :: x in sh.kids && x.parent != old(x.parent) ==> x == c && x.kind in Lifted
    ensures r.Success? ==> c.parent == if old(c.kind in Lifted && c.parent.kind == "include")
                                      then old(c.parent.parent) else old(c.parent)
    ensures r.Success? ==> LinkedBy(sh', par') && Rises(par, par', {}, {c})
  {
    SnapOf(sh, par);
    sh', par' := sh, par;
    var lifted := c.IsKind(Lifted);
    if lifted {
      if c.parent == null {
        return Failure("nil pointer dereference"), sh', par';
      }
      var inside := c.parent.IsKind(["include"]);
      if inside {
        ghost var p, g := c.parent, c.parent.parent;
        ParentIs(sh, par, c);
        ParentIs(sh, par, p);
        r, sh' := Lift(c, sh, par);
        par' := par[c := g];
        if r.Success? {
          RisesByOne(par, c, p, g);
          SnapOf(sh', par');
        }
        return;
      }
    }
    r := Success(());
  }

  /** Corrected: the test skips a node whose lift would dereference nil, so
      the pass never panics; every other node is treated as before. */
  method LiftOneGuarded(c: Chunk, ghost sh: Shape, ghost par: map<Chunk, Chunk?>)
    returns (ghost sh': Shape)
    requires Linked(sh) && c in sh.kids && LinkedBy(sh, par)
    modifies sh.kids.Keys`children, sh.kids.Keys`parent
    ensures Linked(sh') && sh'.kids.Keys == sh.kids.Keys && sh'.rank == sh.rank && sh'.bound == sh.bound
    ensures forall x :: x in sh.kids && x.parent != old(x.parent) ==> x == c && x.kind in Lifted
    ensures c.parent == if old(!Stuck(c) && c.kind in Lifted && c.parent.kind == "include")
                        then old(c.parent.parent) else old(c.parent)
  {
    if c.kind in Lifted && (c.parent == null || (c.parent.kind == "include" && c.parent.parent == null)) {
      sh' := sh;
      return;
    }
    var r;
    ghost var par';
    r, sh', par' := LiftOne(c, sh, par);
    assert r.Success?;
  }
}
