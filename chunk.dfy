/**
  The node of the document tree (xmlTree/chunk.go).

  A `Chunk` is a mutable object: `AddChild` rewrites its `children` and the
  child's `parent`. Recursion over the tree needs a measure the heap does not
  provide, so every query that walks the tree takes a ghost `Shape`: a value
  copy of the children lists of the nodes involved together with a rank for
  each node (its allocation order), children ranking strictly above their
  parent. `Mirrors(sh)` says the heap agrees with the shape.
*/
module XmlChunk {
  import opened Strings

  class Chunk {
    const kind: string
    var attributes: map<string, string>
    var parent: Chunk?
    var children: seq<Chunk>

    /** `newChunk`: a detached node of the given kind with no attributes. */
    constructor (kind: string)
      ensures this.kind == kind && attributes == map[]
      ensures parent == null && children == []
    {
      this.kind := kind;
      attributes := map[];
      parent := null;
      children := [];
    }

    /** `newTextChunk`: character data, kept under the attribute TEXT. */
    constructor Text(text: string)
      ensures kind == "TEXT" && attributes == map["TEXT" := text]
      ensures parent == null && children == []
    {
      kind := "TEXT";
      attributes := map["TEXT" := text];
      parent := null;
      children := [];
    }

    /** `newDirectiveChunk`: a `<!...>` directive, kept under DIRECTIVE. */
    constructor Directive(text: string)
      ensures kind == "DIRECTIVE" && attributes == map["DIRECTIVE" := text]
      ensures parent == null && children == []
    {
      kind := "DIRECTIVE";
      attributes := map["DIRECTIVE" := text];
      parent := null;
      children := [];
    }

    /** `newProcessingInstructionChunk`: a `<?target instruction?>`. */
    constructor ProcInst(target: string, instruction: string)
      ensures kind == "PROCINST"
      ensures attributes == map["TARGET" := target, "INSTRUCTION" := instruction]
      ensures parent == null && children == []
    {
      kind := "PROCINST";
      attributes := map["TARGET" := target, "INSTRUCTION" := instruction];
      parent := null;
      children := [];
    }

    /** Appends `child` as the last child and points it back at this node. */
    method AddChild(child: Chunk)
      modifies this`children, child`parent
      ensures children == old(children) + [child]
      ensures child.parent == this
    {
      children := children + [child];
      child.parent := this;
    }

    /** Appends each of `kids` in order with `AddChild`. */
    method AddChildren(kids: seq<Chunk>)
      modifies this`children, kids`parent
      ensures children == old(children) + kids
      ensures forall k :: k in kids ==> k.parent == this
    {
      for i := 0 to |kids|
        invariant children == old(children) + kids[..i]
        invariant forall j :: 0 <= j < i ==> kids[j].parent == this
      {
        AddChild(kids[i]);
      }
    }

    /** Whether this node's kind is one of `kinds`; never for an empty list. */
    method IsKind(kinds: seq<string>) returns (b: bool)
      ensures b <==> kind in kinds
    {
      for i := 0 to |kinds|
        invariant kind !in kinds[..i]
      {
        if kind == kinds[i] {
          return true;
        }
      }
      return false;
    }

    /** The chain of parents, nearest first. */
    method Ancestors(ghost sh: Shape) returns (output: seq<Chunk>)
      requires this in sh.rank && ParentsRanked(sh)
      ensures output == AncestorChain(this, sh)
    {
      output := [];
      var ancestor := parent;
      while ancestor != null
        invariant ancestor != null ==> ancestor in sh.rank
        invariant ancestor == null ==> output == AncestorChain(this, sh)
        invariant ancestor != null ==> output + [ancestor] + AncestorChain(ancestor, sh) == AncestorChain(this, sh)
        decreases if ancestor == null then 0 else sh.rank[ancestor] + 1
      {
        output := output + [ancestor];
        ancestor := ancestor.parent;
      }
    }

    /** Whether some ancestor has one of `kinds`. */
    method IsWithin(kinds: seq<string>, ghost sh: Shape) returns (b: bool)
      requires this in sh.rank && ParentsRanked(sh)
      ensures b <==> Within(this, kinds, sh)
    {
      ghost var passed: seq<Chunk> := [];
      var ancestor := parent;
      while ancestor != null
        invariant ancestor != null ==> ancestor in sh.rank
        invariant ancestor == null ==> passed == AncestorChain(this, sh)
        invariant ancestor != null ==> passed + [ancestor] + AncestorChain(ancestor, sh) == AncestorChain(this, sh)
        invariant forall a :: a in passed ==> a.kind !in kinds
        decreases if ancestor == null then 0 else sh.rank[ancestor] + 1
      {
        var hit := ancestor.IsKind(kinds);
        if hit {
          assert ancestor in AncestorChain(this, sh);
          return true;
        }
        passed := passed + [ancestor];
        ancestor := ancestor.parent;
      }
      return false;
    }

    /** The XML text of this subtree. Go's map iteration order decides the
        order of each start tag's attributes; `choice` records the order
        taken at every node. */
    method XML(ghost sh: Shape) returns (s: string, ghost choice: XmlChoice)
      requires sh.Ok() && Mirrors(sh) && this in sh.kids
      ensures Fits(choice, this, sh) && s == XmlOf(this, choice, sh)
      decreases sh.bound - sh.rank[this]
    {
      if kind == "TEXT" {
        return Get(attributes, "TEXT"), XmlChoice([], []);
      }
      var kvs, order := AttributeList(attributes);
      var inner := "";
      ghost var kids := sh.kids[this];
      ghost var choices: seq<XmlChoice> := [];
      for i := 0 to |children|
        invariant Serialised(kids, i, inner, choices, sh)
      {
        var x, xc := children[i].XML(sh);
        XmlOfAllSnoc(kids, i, inner, choices, x, xc, sh);
        inner := inner + x;
        choices := choices + [xc];
      }
      s := "<" + kind + kvs + ">" + inner + "</" + kind + ">";
      choice := XmlChoice(order, choices);
      XmlOfNode(this, order, inner, choices, sh);
    }
  }

  /** A value description of a set of nodes: each one's children and rank. */
  datatype Shape = Shape(kids: map<Chunk, seq<Chunk>>, rank: map<Chunk, nat>, bound: nat)
  {
    /** Ranks lie below `bound`; a child ranks strictly above its parent. */
    ghost predicate Ok()
    {
      kids.Keys == rank.Keys
      && (forall x :: x in rank ==> rank[x] < bound)
      && (forall x, i :: x in kids && 0 <= i < |kids[x]| ==> kids[x][i] in rank && rank[x] < rank[kids[x][i]])
    }
  }

  /** No node appears twice. */
  ghost predicate Distinct(s: seq<Chunk>)
  {
    forall i, j :: 0 <= i < j < |s| ==> s[i] != s[j]
  }

  /** No node occurs twice among the children the shape gives any node. */
  ghost predicate KidsDistinct(sh: Shape)
  {
    forall x, i, j :: x in sh.kids && 0 <= i < j < |sh.kids[x]| ==> sh.kids[x][i] != sh.kids[x][j]
  }

  /** The heap's children lists are the ones the shape records. */
  ghost predicate Mirrors(sh: Shape)
    reads sh.kids.Keys`children
  {
    forall x :: x in sh.kids ==> x.children == sh.kids[x]
  }

  /** Every child points back at the node that holds it. */
  ghost predicate DownLinked(sh: Shape)
    reads sh.kids.Keys`parent
  {
    sh.Ok() && forall x, ch :: x in sh.kids && ch in sh.kids[x] ==> ch.parent == x
  }

  /** Every node with a parent is among that parent's children. */
  ghost predicate UpLinked(sh: Shape)
    reads sh.rank.Keys`parent
  {
    forall x :: x in sh.rank && x.parent != null ==> x.parent in sh.kids && x in sh.kids[x.parent]
  }

  /** Every parent pointer stays inside the shape and points to a lower rank. */
  ghost predicate ParentsRanked(sh: Shape)
    reads sh.rank.Keys`parent
  {
    forall x :: x in sh.rank && x.parent != null ==>
      x.parent in sh.rank && sh.rank[x.parent] < sh.rank[x]
  }

  /** Some ancestor of `c` has one of `kinds`. */
  ghost predicate Within(c: Chunk, kinds: seq<string>, sh: Shape)
    requires c in sh.rank && ParentsRanked(sh)
    reads sh.rank.Keys
  {
    AncestorChainShape(c, sh);
    exists a :: a in AncestorChain(c, sh) && a.kind in kinds
  }

  /** The parent chain of `c`, nearest first. */
  ghost function AncestorChain(c: Chunk, sh: Shape): seq<Chunk>
    requires c in sh.rank && ParentsRanked(sh)
    reads sh.rank.Keys`parent
    decreases sh.rank[c]
  {
    if c.parent == null then [] else [c.parent] + AncestorChain(c.parent, sh)
  }

  /** The chain starts at the parent, each link is the parent of the one
      before, it ends at a root, and ranks strictly fall along it (so no node
      repeats). */
  lemma {:induction false} AncestorChainShape(c: Chunk, sh: Shape)
    requires c in sh.rank && ParentsRanked(sh)
    ensures var r := AncestorChain(c, sh);
      && (r == [] <==> c.parent == null)
      && (r != [] ==> r[0] == c.parent && r[|r| - 1].parent == null)
      && (forall i :: 0 <= i < |r| - 1 ==> r[i + 1] == r[i].parent)
      && (forall i :: 0 <= i < |r| ==> r[i] in sh.rank && sh.rank[r[i]] < sh.rank[c])
      && (forall i, j :: 0 <= i < j < |r| ==> sh.rank[r[j]] < sh.rank[r[i]])
    decreases sh.rank[c]
  {
    if c.parent != null {
      AncestorChainShape(c.parent, sh);
    }
  }

  // ---------------------------------------------------------------------------
  // Serialisation

  /** ` k="v"` for each key of `order`, in that order. */
  function AttrText(order: seq<string>, m: map<string, string>): string
    requires forall k :: k in order ==> k in m
  {
    if order == [] then ""
    else
      var k := order[|order| - 1];
      AttrText(order[..|order| - 1], m) + " " + k + "=\"" + m[k] + "\""
  }

  /** The attributes of a start tag, in Go's map iteration order. */
  method AttributeList(m: map<string, string>) returns (kvs: string, ghost order: seq<string>)
    ensures IsKeyOrder(order, m) && (forall k :: k in order ==> k in m)
    ensures kvs == AttrText(order, m)
  {
    kvs := "";
    var rest := m.Keys;
    order := [];
    while rest != {}
      invariant forall k :: k in order ==> k in m
      invariant forall k :: k in m <==> k in order || k in rest
      invariant forall k :: k in rest ==> k !in order
      invariant forall i, j :: 0 <= i < j < |order| ==> order[i] != order[j]
      invariant kvs == AttrText(order, m)
      decreases |rest|
    {
      var k :| k in rest;
      kvs := kvs + " " + k + "=\"" + m[k] + "\"";
      order := order + [k];
      rest := rest - {k};
    }
  }

  /** `order` lists every key of `m` exactly once. */
  ghost predicate IsKeyOrder(order: seq<string>, m: map<string, string>)
  {
    (forall k :: k in m <==> k in order)
    && forall i, j :: 0 <= i < j < |order| ==> order[i] != order[j]
  }

  /** The attribute order Go's map iteration took at each node of one
      serialisation of a subtree. */
  datatype XmlChoice = XmlChoice(order: seq<string>, kids: seq<XmlChoice>)

  /** `choice` follows the subtree of `c`: at each element a permutation of
      its attribute keys, and one choice per child. */
  ghost predicate Fits(choice: XmlChoice, c: Chunk, sh: Shape)
    reads sh.kids.Keys`attributes
    decreases choice
  {
    && c in sh.kids
    && (c.kind != "TEXT" ==>
      && IsKeyOrder(choice.order, c.attributes)
      && |choice.kids| == |sh.kids[c]|
      && forall i :: 0 <= i < |choice.kids| ==> Fits(choice.kids[i], sh.kids[c][i], sh))
  }

  /** The XML text of `c` under the attribute orders of `choice`: a TEXT node
      is its own text; any other node is its start tag, the XML of each child
      in order, and its end tag. */
  function XmlOf(c: Chunk, choice: XmlChoice, sh: Shape): string
    requires Fits(choice, c, sh)
    reads sh.kids.Keys`attributes
    decreases choice
  {
    if c.kind == "TEXT" then
      Get(c.attributes, "TEXT")
    else
      "<" + c.kind + AttrText(choice.order, c.attributes) + ">"
      + XmlOfAll(sh.kids[c], choice.kids, sh) + "</" + c.kind + ">"
  }

  /** The XML texts of `cs`, one after another. */
  function XmlOfAll(cs: seq<Chunk>, choices: seq<XmlChoice>, sh: Shape): string
    requires |cs| == |choices|
    requires forall i :: 0 <= i < |cs| ==> Fits(choices[i], cs[i], sh)
    reads sh.kids.Keys`attributes
    decreases choices
  {
    if cs == [] then ""
    else
      XmlOfAll(cs[..|cs| - 1], choices[..|cs| - 1], sh)
      + XmlOf(cs[|cs| - 1], choices[|cs| - 1], sh)
  }

  /** The first `i` nodes of `cs` serialise to `inner` under `choices`. */
  ghost predicate Serialised(cs: seq<Chunk>, i: nat, inner: string, choices: seq<XmlChoice>, sh: Shape)
    reads sh.kids.Keys`attributes
  {
    // Bound to one name, so that obligations about it are not split.
    var whole := i <= |cs| && |choices| == i
      && (forall j :: 0 <= j < i ==> Fits(choices[j], cs[j], sh))
      && inner == XmlOfAll(cs[..i], choices, sh);
    whole
  }

  /** Serialising one more child extends the text by that child's XML. */
  lemma XmlOfAllSnoc(cs: seq<Chunk>, i: nat, inner: string, choices: seq<XmlChoice>,
                     x: string, last: XmlChoice, sh: Shape)
    requires i < |cs| && Serialised(cs, i, inner, choices, sh)
    requires Fits(last, cs[i], sh) && x == XmlOf(cs[i], last, sh)
    ensures Serialised(cs, i + 1, inner + x, choices + [last], sh)
  {
    assert cs[..i + 1][..i] == cs[..i];
    assert (choices + [last])[..i] == choices;
  }

  /** An element whose children serialise to `inner` serialises to its
      start tag, `inner` and its end tag. */
  lemma XmlOfNode(c: Chunk, order: seq<string>, inner: string, choices: seq<XmlChoice>, sh: Shape)
    requires c in sh.kids && c.kind != "TEXT" && IsKeyOrder(order, c.attributes)
    requires Serialised(sh.kids[c], |sh.kids[c]|, inner, choices, sh)
    ensures Fits(XmlChoice(order, choices), c, sh)
    ensures XmlOf(c, XmlChoice(order, choices), sh)
      == "<" + c.kind + AttrText(order, c.attributes) + ">" + inner + "</" + c.kind + ">"
  {
    assert sh.kids[c][..|sh.kids[c]|] == sh.kids[c];
  }
}
