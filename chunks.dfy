/**
  Lists of nodes and the queries over them (xmlTree/chunks.go).

  The selections `Filter`, `FilterOut`, `First`, `Last`, `Contains` and
  `Children` read only the listed nodes; `Flatten` walks whole subtrees and
  so reads the children lists through a `Shape`.
*/
module XmlChunks {
  import opened Strings
  import opened XmlChunk

  // ---------------------------------------------------------------------------
  // Selections

  /** The nodes of `cs` whose kind is in `kinds` (when `wanted`) or not in
      `kinds` (when not `wanted`), in their order. */
  function Select(cs: seq<Chunk>, kinds: seq<string>, wanted: bool): (r: seq<Chunk>)
    ensures |r| <= |cs|
  {
    if cs == [] then []
    else (if (cs[0].kind in kinds) == wanted then [cs[0]] else []) + Select(cs[1..], kinds, wanted)
  }

  /** A selection holds exactly the nodes of `cs` on the chosen side. */
  lemma {:induction false} SelectMembers(cs: seq<Chunk>, kinds: seq<string>, wanted: bool)
    ensures forall c :: c in Select(cs, kinds, wanted) ==> c in cs && (c.kind in kinds <==> wanted)
    ensures forall i :: 0 <= i < |cs| && (cs[i].kind in kinds <==> wanted) ==> cs[i] in Select(cs, kinds, wanted)
  {
    if cs != [] {
      SelectMembers(cs[1..], kinds, wanted);
      assert forall i :: 1 <= i < |cs| ==> cs[i] == cs[1..][i - 1];
    }
  }

  /** Leaving out every kind that occurs in `cs` leaves nothing. */
  lemma {:induction false} SelectNothingLeft(cs: seq<Chunk>, kinds: seq<string>)
    requires forall c :: c in cs ==> c.kind in kinds
    ensures Select(cs, kinds, false) == []
  {
    if cs != [] {
      assert cs[0] in cs;
      assert forall c :: c in cs[1..] ==> c in cs;
      SelectNothingLeft(cs[1..], kinds);
    }
  }

  /** Go's `Chunks.Filter`: the nodes whose kind is one of `kinds`. */
  function Filter(cs: seq<Chunk>, kinds: seq<string>): seq<Chunk>
  {
    Select(cs, kinds, true)
  }

  /** Go's `Chunks.FilterOut`: the nodes whose kind is none of `kinds`. */
  function FilterOut(cs: seq<Chunk>, kinds: seq<string>): seq<Chunk>
  {
    Select(cs, kinds, false)
  }

  /** Selecting from a concatenation selects from each part in turn, so a
      selection keeps the order of `cs`. */
  lemma {:induction false} SelectAppend(a: seq<Chunk>, b: seq<Chunk>, kinds: seq<string>, wanted: bool)
    ensures Select(a + b, kinds, wanted) == Select(a, kinds, wanted) + Select(b, kinds, wanted)
  {
    if a == [] {
      assert a + b == b;
    } else {
      var ab := a + b;
      assert ab[0] == a[0] && ab[1..] == a[1..] + b;
      SelectAppend(a[1..], b, kinds, wanted);
      var h := if (a[0].kind in kinds) == wanted then [a[0]] else [];
      assert Select(ab, kinds, wanted) == h + Select(a[1..] + b, kinds, wanted);
      assert Select(a, kinds, wanted) == h + Select(a[1..], kinds, wanted);
    }
  }

  /** `Filter` and `FilterOut` split `cs` between them: every node lands in
      exactly one of the two, as often as it occurs in `cs`. */
  lemma {:induction false} FilterPartition(cs: seq<Chunk>, kinds: seq<string>)
    ensures |Filter(cs, kinds)| + |FilterOut(cs, kinds)| == |cs|
    ensures multiset(Filter(cs, kinds)) + multiset(FilterOut(cs, kinds)) == multiset(cs)
    ensures forall c :: c in cs ==> (c in Filter(cs, kinds) <==> c !in FilterOut(cs, kinds))
  {
    SelectMembers(cs, kinds, true);
    SelectMembers(cs, kinds, false);
    if cs != [] {
      FilterPartition(cs[1..], kinds);
      assert cs == [cs[0]] + cs[1..];
    }
  }

  /** The first node of `cs` whose kind is one of `kinds`, or null. */
  function First(cs: seq<Chunk>, kinds: seq<string>): (r: Chunk?)
    ensures r == null <==> forall c :: c in cs ==> c.kind !in kinds
    ensures r != null ==> exists i ::
      && 0 <= i < |cs| && cs[i] == r && r.kind in kinds
      && (forall j :: 0 <= j < i ==> cs[j].kind !in kinds)
  {
    if cs == [] then null
    else if cs[0].kind in kinds then cs[0]
    else
      var r := First(cs[1..], kinds);
      assert r != null ==> exists i :: 1 <= i < |cs| && cs[i] == r && forall j :: 1 <= j < i ==> cs[j].kind !in kinds;
      r
  }

  /** The last node of `cs` whose kind is one of `kinds`, or null. */
  function Last(cs: seq<Chunk>, kinds: seq<string>): (r: Chunk?)
    ensures r == null <==> forall c :: c in cs ==> c.kind !in kinds
    ensures r != null ==> exists i ::
      && 0 <= i < |cs| && cs[i] == r && r.kind in kinds
      && (forall j :: i < j < |cs| ==> cs[j].kind !in kinds)
  {
    if cs == [] then null
    else if cs[|cs| - 1].kind in kinds then cs[|cs| - 1]
    else
      var init := cs[..|cs| - 1];
      var r := Last(init, kinds);
      assert forall i :: 0 <= i < |init| ==> cs[i] == init[i];
      assert cs == init + [cs[|cs| - 1]];
      r
  }

  /** `First` is the head of `Filter`. */
  lemma {:induction false} FirstOfFilter(cs: seq<Chunk>, kinds: seq<string>)
    ensures var f := Filter(cs, kinds);
      First(cs, kinds) == if f == [] then null else f[0]
  {
    if cs != [] {
      FirstOfFilter(cs[1..], kinds);
    }
  }

  /** `Last` is the final element of `Filter`. */
  lemma {:induction false} LastOfFilter(cs: seq<Chunk>, kinds: seq<string>)
    ensures var f := Filter(cs, kinds);
      Last(cs, kinds) == if f == [] then null else f[|f| - 1]
  {
    if cs != [] {
      var init, last := cs[..|cs| - 1], cs[|cs| - 1];
      LastOfFilter(init, kinds);
      SelectAppend(init, [last], kinds, true);
      assert init + [last] == cs;
      assert [last][1..] == [];
      var f0 := Filter(init, kinds);
      if last.kind in kinds {
        assert Select([last], kinds, true) == [last];
        assert Filter(cs, kinds) == f0 + [last];
      } else {
        assert Select([last], kinds, true) == [];
        assert Filter(cs, kinds) == f0 + [];
      }
    }
  }

  /** Whether some node of `cs` has kind `k`. */
  predicate KindOccurs(cs: seq<Chunk>, k: string)
  {
    cs != [] && (cs[0].kind == k || KindOccurs(cs[1..], k))
  }

  /** Whether some node of `cs` has one of `kinds`, trying each kind in turn. */
  predicate Contains(cs: seq<Chunk>, kinds: seq<string>)
  {
    kinds != [] && (KindOccurs(cs, kinds[0]) || Contains(cs, kinds[1..]))
  }

  lemma {:induction false} KindOccursIff(cs: seq<Chunk>, k: string)
    ensures KindOccurs(cs, k) <==> exists c :: c in cs && c.kind == k
  {
    if cs != [] {
      KindOccursIff(cs[1..], k);
      assert forall c :: c in cs ==> c == cs[0] || c in cs[1..];
    }
  }

  /** A selection is empty exactly when no node has one of the kinds. */
  lemma {:induction false} FilterEmptyIff(cs: seq<Chunk>, kinds: seq<string>)
    ensures Filter(cs, kinds) == [] <==> forall c :: c in cs ==> c.kind !in kinds
  {
    if cs != [] {
      FilterEmptyIff(cs[1..], kinds);
      assert forall c :: c in cs ==> c == cs[0] || c in cs[1..];
    }
  }

  /** `Contains` holds exactly when `Filter` selects something. */
  lemma {:induction false} ContainsIffFilter(cs: seq<Chunk>, kinds: seq<string>)
    ensures Contains(cs, kinds) <==> Filter(cs, kinds) != []
  {
    FilterEmptyIff(cs, kinds);
    if kinds != [] {
      KindOccursIff(cs, kinds[0]);
      ContainsIffFilter(cs, kinds[1..]);
      FilterEmptyIff(cs, kinds[1..]);
      assert forall c :: c in cs ==> (c.kind in kinds <==> c.kind == kinds[0] || c.kind in kinds[1..]);
    }
  }

  /** All children of the nodes of `cs`, node after node. */
  function Children(cs: seq<Chunk>): (r: seq<Chunk>)
    reads cs`children
    ensures forall x :: x in r ==> exists c :: c in cs && x in c.children
    ensures forall i, j :: 0 <= i < |cs| && 0 <= j < |cs[i].children| ==> cs[i].children[j] in r
  {
    if cs == [] then [] else cs[0].children + Children(cs[1..])
  }

  lemma {:induction false} ChildrenAppend(a: seq<Chunk>, b: seq<Chunk>)
    ensures Children(a + b) == Children(a) + Children(b)
  {
    if a == [] {
      assert a + b == b;
    } else {
      assert (a + b)[0] == a[0] && (a + b)[1..] == a[1..] + b;
      ChildrenAppend(a[1..], b);
    }
  }

  // ---------------------------------------------------------------------------
  // Flattening

  ghost predicate InShape(cs: seq<Chunk>, sh: Shape)
  {
    forall c :: c in cs ==> c in sh.kids
  }

  /** Pre-order listing of the subtrees of `cs`; `floor` is a lower bound on
      their ranks and serves only the termination argument. */
  ghost function FlattenFrom(cs: seq<Chunk>, sh: Shape, floor: nat): seq<Chunk>
    requires sh.Ok() && floor <= sh.bound
    requires forall c :: c in cs ==> c in sh.kids && floor <= sh.rank[c]
    decreases sh.bound - floor, |cs|
  {
    if cs == [] then []
    else
      [cs[0]] + FlattenFrom(sh.kids[cs[0]], sh, sh.rank[cs[0]] + 1) + FlattenFrom(cs[1..], sh, floor)
  }

  /** Each node followed by the flattening of its children. */
  ghost function Flatten(cs: seq<Chunk>, sh: Shape): seq<Chunk>
    requires sh.Ok() && InShape(cs, sh)
  {
    FlattenFrom(cs, sh, 0)
  }

  lemma {:induction false} FlattenFloor(cs: seq<Chunk>, sh: Shape, f1: nat, f2: nat)
    requires sh.Ok() && f1 <= sh.bound && f2 <= sh.bound
    requires forall c :: c in cs ==> c in sh.kids && f1 <= sh.rank[c] && f2 <= sh.rank[c]
    ensures FlattenFrom(cs, sh, f1) == FlattenFrom(cs, sh, f2)
    decreases |cs|
  {
    if cs != [] {
      FlattenFloor(cs[1..], sh, f1, f2);
    }
  }

  /** Pre-order: the first node, then its descendants, then the rest. */
  lemma FlattenUnfold(cs: seq<Chunk>, sh: Shape)
    requires sh.Ok() && InShape(cs, sh) && cs != []
    ensures Flatten(cs, sh) == [cs[0]] + Flatten(sh.kids[cs[0]], sh) + Flatten(cs[1..], sh)
  {
    FlattenFloor(sh.kids[cs[0]], sh, sh.rank[cs[0]] + 1, 0);
  }

  /** Flattening a concatenation flattens each part in turn. */
  lemma {:induction false} FlattenAppend(a: seq<Chunk>, b: seq<Chunk>, sh: Shape)
    requires sh.Ok() && InShape(a, sh) && InShape(b, sh)
    ensures Flatten(a + b, sh) == Flatten(a, sh) + Flatten(b, sh)
  {
    if a == [] {
      assert a + b == b;
    } else {
      var ab := a + b;
      assert ab[0] == a[0] && ab[1..] == a[1..] + b;
      assert InShape(a[1..], sh);
      FlattenUnfold(ab, sh);
      FlattenUnfold(a, sh);
      FlattenAppend(a[1..], b, sh);
    }
  }

  /** Every node listed lies in the shape, at or above the floor. */
  lemma {:induction false} FlattenFromMembers(cs: seq<Chunk>, sh: Shape, floor: nat)
    requires sh.Ok() && floor <= sh.bound
    requires forall c :: c in cs ==> c in sh.kids && floor <= sh.rank[c]
    ensures forall x :: x in FlattenFrom(cs, sh, floor) ==> x in sh.kids && floor <= sh.rank[x]
    decreases sh.bound - floor, |cs|
  {
    if cs != [] {
      FlattenFromMembers(sh.kids[cs[0]], sh, sh.rank[cs[0]] + 1);
      FlattenFromMembers(cs[1..], sh, floor);
    }
  }

  /** Every listed node belongs to the shape, and the given nodes are listed. */
  lemma {:induction false} FlattenMembers(cs: seq<Chunk>, sh: Shape)
    requires sh.Ok() && InShape(cs, sh)
    ensures InShape(Flatten(cs, sh), sh)
    ensures forall c :: c in cs ==> c in Flatten(cs, sh)
    ensures |Flatten(cs, sh)| >= |cs|
    decreases |cs|
  {
    FlattenFromMembers(cs, sh, 0);
    if cs != [] {
      FlattenUnfold(cs, sh);
      FlattenMembers(cs[1..], sh);
      assert forall c :: c in cs ==> c == cs[0] || c in cs[1..];
    }
  }

  /** The shape after a new leaf `n` is appended to the children of `p`, or
      at top level when `p` is null. */
  ghost function Grow(sh: Shape, p: Chunk?, n: Chunk): Shape
  {
    var kids := if p != null && p in sh.kids then sh.kids[p := sh.kids[p] + [n]] else sh.kids;
    Shape(kids[n := []], sh.rank[n := sh.bound], sh.bound + 1)
  }

  lemma GrowOk(sh: Shape, p: Chunk?, n: Chunk)
    requires sh.Ok() && n !in sh.kids && (p == null || p in sh.kids)
    ensures Grow(sh, p, n).Ok()
  {
    var g := Grow(sh, p, n);
    assert g.kids.Keys == sh.kids.Keys + {n};
    assert g.rank.Keys == sh.rank.Keys + {n};
    forall x, i | x in g.kids && 0 <= i < |g.kids[x]|
      ensures g.kids[x][i] in g.rank && g.rank[x] < g.rank[g.kids[x][i]]
    {
      if x == p {
        if i < |sh.kids[p]| {
          assert g.kids[x][i] == sh.kids[p][i];
        } else {
          assert g.kids[x][i] == n;
        }
      } else if x != n {
        assert g.kids[x] == sh.kids[x];
      }
    }
  }

  /** Flattening looks only at the children of the nodes it lists, so growing
      the shape under a node that is not listed changes nothing. */
  lemma {:induction false} FlattenFromGrow(cs: seq<Chunk>, sh: Shape, p: Chunk?, n: Chunk, floor: nat)
    requires sh.Ok() && Grow(sh, p, n).Ok() && n !in sh.kids && (p == null || p in sh.kids) && floor <= sh.bound
    requires forall c :: c in cs ==> c in sh.kids && floor <= sh.rank[c]
    requires p !in FlattenFrom(cs, sh, floor)
    ensures FlattenFrom(cs, Grow(sh, p, n), floor) == FlattenFrom(cs, sh, floor)
    decreases sh.bound - floor, |cs|
  {
    if cs != [] {
      var c := cs[0];
      FlattenFromUnfold(cs, sh, floor);
      FlattenFromGrow(sh.kids[c], sh, p, n, sh.rank[c] + 1);
      FlattenFromGrow(cs[1..], sh, p, n, floor);
      var g := Grow(sh, p, n);
      assert c != p && c != n;
      FlattenFromUnfold(cs, g, floor);
    }
  }

  /** One unfolding of `FlattenFrom`. */
  lemma FlattenFromUnfold(cs: seq<Chunk>, sh: Shape, floor: nat)
    requires sh.Ok() && floor <= sh.bound && cs != []
    requires forall c :: c in cs ==> c in sh.kids && floor <= sh.rank[c]
    ensures FlattenFrom(cs, sh, floor)
      == [cs[0]] + FlattenFrom(sh.kids[cs[0]], sh, sh.rank[cs[0]] + 1) + FlattenFrom(cs[1..], sh, floor)
  {
  }

  lemma FlattenGrow(cs: seq<Chunk>, sh: Shape, p: Chunk?, n: Chunk)
    requires sh.Ok() && n !in sh.kids && (p == null || p in sh.kids) && InShape(cs, sh)
    requires p !in Flatten(cs, sh)
    ensures Grow(sh, p, n).Ok() && InShape(cs, Grow(sh, p, n))
    ensures Flatten(cs, Grow(sh, p, n)) == Flatten(cs, sh)
  {
    GrowOk(sh, p, n);
    FlattenFromGrow(cs, sh, p, n, 0);
  }

  /** Flattening trees whose roots lie in a set closed under taking children
      lists only nodes of that set. */
  lemma {:induction false} FlattenFromWithin(cs: seq<Chunk>, sh: Shape, floor: nat, d: set<Chunk>)
    requires sh.Ok() && floor <= sh.bound
    requires forall c :: c in cs ==> c in sh.kids && floor <= sh.rank[c] && c in d
    requires forall x, k :: x in d && x in sh.kids && k in sh.kids[x] ==> k in d
    ensures forall y :: y in FlattenFrom(cs, sh, floor) ==> y in d
    decreases sh.bound - floor, |cs|
  {
    if cs != [] {
      var c := cs[0];
      FlattenFromWithin(sh.kids[c], sh, sh.rank[c] + 1, d);
      FlattenFromWithin(cs[1..], sh, floor, d);
    }
  }

  /** Every node listed from trees whose roots descend from `a` has `a`
      among its ancestors. */
  lemma FlattenFromAncestry(cs: seq<Chunk>, sh: Shape, floor: nat, a: Chunk)
    requires DownLinked(sh) && ParentsRanked(sh) && floor <= sh.bound
    requires forall c :: c in cs ==> c in sh.kids && floor <= sh.rank[c] && a in AncestorChain(c, sh)
    ensures forall y :: y in FlattenFrom(cs, sh, floor) ==> y in sh.rank && a in AncestorChain(y, sh)
  {
    var d := set y | y in sh.rank && a in AncestorChain(y, sh);
    forall x, k | x in d && x in sh.kids && k in sh.kids[x]
      ensures k in d
    {
      assert k.parent == x;
    }
    FlattenFromWithin(cs, sh, floor, d);
  }

  /** The nodes listed by flattening the children of `c` all descend from `c`. */
  lemma FlattenDescendants(c: Chunk, sh: Shape)
    requires DownLinked(sh) && ParentsRanked(sh) && c in sh.kids
    ensures forall y :: y in Flatten(sh.kids[c], sh) ==> y in sh.rank && c in AncestorChain(y, sh)
  {
    forall k | k in sh.kids[c]
      ensures k in sh.kids && c in AncestorChain(k, sh)
    {
      assert k.parent == c;
    }
    FlattenFromAncestry(sh.kids[c], sh, 0, c);
  }

  /** The number of nodes in the trees rooted at `cs`. */
  ghost function NodeCount(cs: seq<Chunk>, sh: Shape, floor: nat): nat
    requires sh.Ok() && floor <= sh.bound
    requires forall c :: c in cs ==> c in sh.kids && floor <= sh.rank[c]
    decreases sh.bound - floor, |cs|
  {
    if cs == [] then 0
    else NodeCount(cs[1..], sh, floor) + 1 + NodeCount(sh.kids[cs[0]], sh, sh.rank[cs[0]] + 1)
  }

  /** Flattening lists as many nodes as the trees hold. */
  lemma {:induction false} FlattenCount(cs: seq<Chunk>, sh: Shape, floor: nat)
    requires sh.Ok() && floor <= sh.bound
    requires forall c :: c in cs ==> c in sh.kids && floor <= sh.rank[c]
    ensures |FlattenFrom(cs, sh, floor)| == NodeCount(cs, sh, floor)
    decreases sh.bound - floor, |cs|
  {
    if cs != [] {
      FlattenCount(sh.kids[cs[0]], sh, sh.rank[cs[0]] + 1);
      FlattenCount(cs[1..], sh, floor);
    }
  }

  /** Every given node is listed. */
  lemma {:induction false} FlattenFromHas(cs: seq<Chunk>, sh: Shape, floor: nat)
    requires sh.Ok() && floor <= sh.bound
    requires forall c :: c in cs ==> c in sh.kids && floor <= sh.rank[c]
    ensures forall c :: c in cs ==> c in FlattenFrom(cs, sh, floor)
    decreases |cs|
  {
    if cs != [] {
      FlattenFromHas(cs[1..], sh, floor);
      assert forall c :: c in cs ==> c == cs[0] || c in cs[1..];
    }
  }

  /** The listing is closed under children: with a node it lists all of
      that node's children. */
  lemma {:induction false} FlattenFromClosed(cs: seq<Chunk>, sh: Shape, floor: nat, p: Chunk)
    requires sh.Ok() && floor <= sh.bound
    requires forall c :: c in cs ==> c in sh.kids && floor <= sh.rank[c]
    requires p in FlattenFrom(cs, sh, floor)
    ensures p in sh.kids && forall k :: k in sh.kids[p] ==> k in FlattenFrom(cs, sh, floor)
    decreases sh.bound - floor, |cs|
  {
    var c := cs[0];
    var f := sh.rank[c] + 1;
    if p == c {
      FlattenFromHas(sh.kids[c], sh, f);
    } else if p in FlattenFrom(sh.kids[c], sh, f) {
      FlattenFromClosed(sh.kids[c], sh, f, p);
    } else {
      FlattenFromClosed(cs[1..], sh, floor, p);
    }
  }

  /** Every proper descendant of `c` is listed by flattening its children. */
  lemma {:induction false} DescendantListed(c: Chunk, y: Chunk, sh: Shape)
    requires DownLinked(sh) && UpLinked(sh) && ParentsRanked(sh) && c in sh.kids
    requires y in sh.rank && c in AncestorChain(y, sh)
    ensures y in Flatten(sh.kids[c], sh)
    decreases sh.rank[y]
  {
    var p := y.parent;
    if p == c {
      FlattenFromHas(sh.kids[c], sh, 0);
    } else {
      DescendantListed(c, p, sh);
      FlattenFromClosed(sh.kids[c], sh, 0, p);
    }
  }

  /** Flattening the children of `c` lists exactly the proper descendants
      of `c`. */
  lemma FlattenDescendantsExactly(c: Chunk, sh: Shape)
    requires DownLinked(sh) && UpLinked(sh) && ParentsRanked(sh) && c in sh.kids
    ensures forall y :: y in Flatten(sh.kids[c], sh) <==> y in sh.rank && c in AncestorChain(y, sh)
  {
    FlattenDescendants(c, sh);
    forall y | y in sh.rank && c in AncestorChain(y, sh)
      ensures y in Flatten(sh.kids[c], sh)
    {
      DescendantListed(c, y, sh);
    }
  }

  /** Go's `Chunks.Flatten`: each node, then the flattening of its children. */
  method FlattenOf(cs: seq<Chunk>, ghost sh: Shape, ghost floor: nat) returns (output: seq<Chunk>)
    requires sh.Ok() && Mirrors(sh) && floor <= sh.bound
    requires forall c :: c in cs ==> c in sh.kids && floor <= sh.rank[c]
    ensures output == FlattenFrom(cs, sh, floor)
    decreases sh.bound - floor, |cs|
  {
    output := [];
    for i := 0 to |cs|
      invariant output + FlattenFrom(cs[i..], sh, floor) == FlattenFrom(cs, sh, floor)
    {
      var here := FlattenOne(cs[i], sh);
      FlattenFromStep(cs, i, sh, floor);
      output := output + here;
    }
    assert cs[|cs|..] == [];
  }

  /** One node of the loop above: the node, then its descendants. */
  method FlattenOne(c: Chunk, ghost sh: Shape) returns (output: seq<Chunk>)
    requires sh.Ok() && Mirrors(sh) && c in sh.kids
    ensures output == [c] + FlattenFrom(sh.kids[c], sh, sh.rank[c] + 1)
    decreases sh.bound - sh.rank[c], 0
  {
    var below := FlattenOf(c.children, sh, sh.rank[c] + 1);
    output := [c] + below;
  }

  /** The listing from position `i` on: the node there, its descendants, and
      the listing from `i + 1` on. */
  lemma FlattenFromStep(cs: seq<Chunk>, i: nat, sh: Shape, floor: nat)
    requires sh.Ok() && floor <= sh.bound && i < |cs|
    requires forall c :: c in cs ==> c in sh.kids && floor <= sh.rank[c]
    ensures FlattenFrom(cs[i..], sh, floor)
         == ([cs[i]] + FlattenFrom(sh.kids[cs[i]], sh, sh.rank[cs[i]] + 1)) + FlattenFrom(cs[i + 1..], sh, floor)
  {
    assert cs[i..][1..] == cs[i + 1..];
  }

  // ---------------------------------------------------------------------------
  // Serialisation

  /** Go's `Chunks.XML`: the XML texts of `cs`, one after another. */
  method XML(cs: seq<Chunk>, ghost sh: Shape) returns (s: string, ghost choices: seq<XmlChoice>)
    requires sh.Ok() && Mirrors(sh) && forall c :: c in cs ==> c in sh.kids
    ensures |choices| == |cs| && (forall i :: 0 <= i < |cs| ==> Fits(choices[i], cs[i], sh))
    ensures s == XmlOfAll(cs, choices, sh)
  {
    s := "";
    choices := [];
    for i := 0 to |cs|
      invariant Serialised(cs, i, s, choices, sh)
    {
      var x, xc := cs[i].XML(sh);
      XmlOfAllSnoc(cs, i, s, choices, x, xc, sh);
      s := s + x;
      choices := choices + [xc];
    }
    assert cs[..|cs|] == cs;
  }

  // ---------------------------------------------------------------------------
  // Deep copy

  /** Copying a Go map entry by entry gives the same map. */
  method CopyAttributes(m: map<string, string>) returns (r: map<string, string>)
    ensures r == m
  {
    r := map[];
    var rest := m.Keys;
    while rest != {}
      invariant rest <= m.Keys
      invariant forall k :: k in r <==> k in m && k !in rest
      invariant forall k :: k in r ==> r[k] == m[k]
      decreases |rest|
    {
      var k :| k in rest;
      r := r[k := m[k]];
      rest := rest - {k};
    }
  }

  /** `orig` maps each copy to the node it copies. Every copy has the kind
      and attributes of its original and as many children; each child is a
      copy of the matching original child and points back at its copied
      parent. */
  ghost predicate Copies(orig: map<Chunk, Chunk>)
    reads orig.Keys, orig.Values
  {
    forall x {:trigger x.children, orig[x]} :: x in orig ==>
      && x.kind == orig[x].kind && x.attributes == orig[x].attributes
      && |x.children| == |orig[x].children|
      && forall i :: 0 <= i < |x.children| ==>
           x.children[i] in orig && orig[x.children[i]] == orig[x].children[i] && x.children[i].parent == x
  }

  /** `x` has a parent among the nodes of `orig`, which holds it. */
  ghost predicate Held(x: Chunk, orig: map<Chunk, Chunk>)
    reads x, x.parent
  {
    x.parent != null && x.parent in orig && x in x.parent.children
  }

  /** Go's `Chunks.Copy`: new nodes with the kinds, attributes and shape of
      `cs`. Each copied child points to its copied parent; each top-level copy
      keeps the parent of its original. `orig` extends `acc` by the new
      copies. */
  method Copy(cs: seq<Chunk>, ghost sh: Shape, ghost floor: nat, ghost acc: map<Chunk, Chunk>, ghost tops: seq<Chunk>)
    returns (output: seq<Chunk>, ghost orig: map<Chunk, Chunk>)
    requires Mirrors(sh) && DownLinked(sh) && floor <= sh.bound
    requires forall c :: c in cs ==> c in sh.kids && floor <= sh.rank[c]
    requires forall c :: c in cs && c.parent != null ==> c.parent in sh.kids
    requires Copies(acc) && forall x :: x in acc ==> x !in sh.kids && acc[x] in sh.kids
    requires forall x {:trigger Held(x, acc)} :: x in acc && x !in tops ==> Held(x, acc)
    ensures Copies(orig) && forall x :: x in orig ==> x !in sh.kids && orig[x] in sh.kids
    ensures forall x :: x in acc ==> x in orig && orig[x] == acc[x]
    ensures forall x :: x in orig ==> x in acc || fresh(x)
    ensures |output| == |cs|
    ensures forall i :: 0 <= i < |cs| ==>
      output[i] in orig && orig[output[i]] == cs[i] && output[i].parent == cs[i].parent && fresh(output[i])
    ensures forall x {:trigger Held(x, orig)} :: x in orig && x !in tops && x !in output ==> Held(x, orig)
    decreases sh.bound - floor, 1
  {
    output := [];
    orig := acc;
    for i := 0 to |cs|
      invariant Copies(orig) && forall x :: x in orig ==> x !in sh.kids && orig[x] in sh.kids
      invariant forall x :: x in acc ==> x in orig && orig[x] == acc[x]
      invariant forall x :: x in orig ==> x in acc || fresh(x)
      invariant |output| == i
      invariant forall j :: 0 <= j < i ==>
        output[j] in orig && orig[output[j]] == cs[j] && output[j].parent == cs[j].parent && fresh(output[j])
      invariant forall x {:trigger Held(x, orig)} :: x in orig && x !in tops && x !in output ==> Held(x, orig)
    {
      var n;
      ghost var prev := orig;
      n, orig := CopyOne(cs[i], sh, orig, tops + output);
      assert forall x :: x in acc ==> x in prev && x in orig && orig[x] == prev[x];
      output := output + [n];
    }
  }

  /** One round of the loop in `Copy`: a new copy of `c` and, below it, of
      all its descendants. */
  method CopyOne(c: Chunk, ghost sh: Shape, ghost acc: map<Chunk, Chunk>, ghost tops: seq<Chunk>)
    returns (n: Chunk, ghost orig: map<Chunk, Chunk>)
    requires Mirrors(sh) && DownLinked(sh) && c in sh.kids
    requires c.parent != null ==> c.parent in sh.kids
    requires Copies(acc) && forall x :: x in acc ==> x !in sh.kids && acc[x] in sh.kids
    requires forall x {:trigger Held(x, acc)} :: x in acc && x !in tops ==> Held(x, acc)
    ensures Copies(orig) && forall x :: x in orig ==> x !in sh.kids && orig[x] in sh.kids
    ensures forall x :: x in acc ==> x in orig && orig[x] == acc[x]
    ensures forall x :: x in orig ==> x in acc || fresh(x)
    ensures n in orig && orig[n] == c && n.parent == c.parent && fresh(n)
    ensures forall x {:trigger Held(x, orig)} :: x in orig && x !in tops && x != n ==> Held(x, orig)
    decreases sh.bound - sh.rank[c], 0
  {
    n := NewCopy(c);
    var kids, acc2 := Copy(c.children, sh, sh.rank[c] + 1, acc, tops);
    Adopt(n, kids, acc2, c, tops);
    orig := acc2[n := c];
  }

  /** A new node with the kind, attributes and parent of `c`. */
  method NewCopy(c: Chunk) returns (n: Chunk)
    ensures fresh(n) && n.kind == c.kind && n.attributes == c.attributes
    ensures n.parent == c.parent && n.children == []
  {
    n := new Chunk(c.kind);
    n.attributes := CopyAttributes(c.attributes);
    n.parent := c.parent;
  }

  /** `n`, a copy of `c` so far without children, takes the copies `kids` of
      `c`'s children, which until now point at `c`. */
  method Adopt(n: Chunk, kids: seq<Chunk>, ghost acc: map<Chunk, Chunk>, ghost c: Chunk, ghost tops: seq<Chunk>)
    requires Copies(acc) && n !in acc && n !in acc.Values && c !in acc
    requires n.kind == c.kind && n.attributes == c.attributes && n.children == []
    requires |kids| == |c.children|
    requires forall i :: 0 <= i < |kids| ==> kids[i] in acc && acc[kids[i]] == c.children[i] && kids[i].parent == c
    requires forall x {:trigger Held(x, acc)} :: x in acc && x !in tops && x !in kids ==> Held(x, acc)
    modifies n`children, kids`parent
    ensures Copies(acc[n := c]) && n.parent == old(n.parent)
    ensures n.children == kids && forall k :: k in kids ==> k.parent == n
    ensures forall x {:trigger Held(x, acc[n := c])} :: x in acc && x !in tops ==> Held(x, acc[n := c])
  {
    n.AddChildren(kids);
    ghost var orig := acc[n := c];
    forall x | x in acc && x !in tops
      ensures Held(x, orig)
    {
      if x !in kids {
        assert old(Held(x, acc)) && x.parent == old(x.parent) && x.parent != n;
      }
    }
    forall x | x in orig
      ensures x.kind == orig[x].kind && x.attributes == orig[x].attributes
      ensures |x.children| == |orig[x].children|
      ensures forall i :: 0 <= i < |x.children| ==>
        x.children[i] in orig && orig[x.children[i]] == orig[x].children[i] && x.children[i].parent == x
    {
      if x == n {
        forall i | 0 <= i < |kids|
          ensures kids[i] in orig && orig[kids[i]] == c.children[i]
        {
          assert kids[i] in acc && kids[i] != n;
        }
      } else {
        assert x in acc && x.children == old(x.children);
        forall i | 0 <= i < |x.children|
          ensures x.children[i] in orig && orig[x.children[i]] == orig[x].children[i] && x.children[i].parent == x
        {
          var y := x.children[i];
          assert y in acc && y != n && old(y.parent) == x;
          assert y !in kids;
        }
      }
    }
  }

  /** The copies recorded in `orig` form a tree of their own: ranking each
      copy like its original gives a shape that the heap mirrors and whose
      children point back at their parents. */
  ghost function CopyShape(orig: map<Chunk, Chunk>, sh: Shape): Shape
    requires forall x :: x in orig ==> orig[x] in sh.rank
    reads orig.Keys
  {
    Shape(map x | x in orig :: x.children, map x | x in orig :: sh.rank[orig[x]], sh.bound)
  }

  lemma CopyShapeOk(orig: map<Chunk, Chunk>, sh: Shape)
    requires sh.Ok() && Mirrors(sh) && Copies(orig)
    requires forall x :: x in orig ==> orig[x] in sh.kids
    ensures var cp := CopyShape(orig, sh); cp.Ok() && Mirrors(cp) && DownLinked(cp)
  {
    var cp := CopyShape(orig, sh);
    forall x, ch | x in cp.kids && ch in cp.kids[x]
      ensures ch in cp.rank && cp.rank[x] < cp.rank[ch]
    {
      var i :| 0 <= i < |x.children| && x.children[i] == ch;
      assert orig[ch] == sh.kids[orig[x]][i];
    }
  }

  /** Copies of a tree in which no node holds the same child twice hold no
      child twice either. */
  lemma CopyShapeDistinct(orig: map<Chunk, Chunk>, sh: Shape)
    requires sh.Ok() && Mirrors(sh) && KidsDistinct(sh) && Copies(orig)
    requires forall x :: x in orig ==> orig[x] in sh.kids
    ensures KidsDistinct(CopyShape(orig, sh))
  {
    var cp := CopyShape(orig, sh);
    forall x, i, j | x in cp.kids && 0 <= i < j < |cp.kids[x]|
      ensures cp.kids[x][i] != cp.kids[x][j]
    {
      assert orig[x.children[i]] == sh.kids[orig[x]][i];
      assert orig[x.children[j]] == sh.kids[orig[x]][j];
    }
  }

  /** When every copy that has a parent is held by it, the copies' parent
      pointers stay inside the copy and lead to lower ranks, and each such
      copy is among its parent's children. */
  lemma CopyShapeLinked(orig: map<Chunk, Chunk>, sh: Shape)
    requires sh.Ok() && Mirrors(sh) && Copies(orig)
    requires forall x :: x in orig ==> orig[x] in sh.kids
    requires forall x :: x in orig && x.parent != null ==> Held(x, orig)
    ensures var cp := CopyShape(orig, sh); ParentsRanked(cp) && UpLinked(cp)
  {
    var cp := CopyShape(orig, sh);
    forall x | x in cp.rank && x.parent != null
      ensures x.parent in cp.rank && cp.rank[x.parent] < cp.rank[x]
    {
      var p := x.parent;
      var i :| 0 <= i < |p.children| && p.children[i] == x;
      assert orig[x] == sh.kids[orig[p]][i];
    }
  }
}
