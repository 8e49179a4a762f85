/**
  The tree builder (xmlTree/xmlTree.go, `New`).

  Tokenising is done by Go's `encoding/xml` and is not modelled: `New` takes
  the token stream. It walks the tokens with a cursor `current`, the
  innermost element still open; every token other than an end tag or a
  comment becomes a node, appended under the cursor or, when no element is
  open, at top level. An end tag moves the cursor to its parent; when no
  element is open the source dereferences a nil pointer, modelled here as a
  `Failure`.
*/
module XmlTree {
  import opened Wrappers
  import opened XmlChunk
  import opened XmlChunks

  /** An attribute of a start tag; only the local part of its name is kept. */
  datatype Attr = Attr(local: string, value: string)

  /** The tokens `encoding/xml` delivers, with names reduced to their local part. */
  datatype Token =
    | StartElement(local: string, attrs: seq<Attr>)
    | EndElement(local: string)
    | CharData(text: string)
    | Comment(text: string)
    | Directive(text: string)
    | ProcInst(target: string, inst: string)

  /** The tokens that become nodes. */
  predicate Makes(t: Token)
  {
    !t.EndElement? && !t.Comment?
  }

  /** Attributes set one after another, so a later duplicate overwrites. */
  function AttrMap(attrs: seq<Attr>): map<string, string>
  {
    if attrs == [] then map[]
    else
      var a := attrs[|attrs| - 1];
      AttrMap(attrs[..|attrs| - 1])[a.local := a.value]
  }

  /** A key is set exactly when some attribute has that name, and it holds
      the value of the last such attribute. */
  lemma {:induction false} AttrMapLastWins(attrs: seq<Attr>, i: nat)
    requires i < |attrs|
    requires forall j :: i < j < |attrs| ==> attrs[j].local != attrs[i].local
    ensures attrs[i].local in AttrMap(attrs)
    ensures AttrMap(attrs)[attrs[i].local] == attrs[i].value
  {
    if i < |attrs| - 1 {
      AttrMapLastWins(attrs[..|attrs| - 1], i);
    }
  }

  lemma {:induction false} AttrMapKeys(attrs: seq<Attr>, k: string)
    ensures k in AttrMap(attrs) <==> exists i :: 0 <= i < |attrs| && attrs[i].local == k
  {
    if attrs != [] {
      var init := attrs[..|attrs| - 1];
      AttrMapKeys(init, k);
      if exists i :: 0 <= i < |init| && init[i].local == k {
        var i :| 0 <= i < |init| && init[i].local == k;
        assert attrs[i].local == k;
      }
      if exists i :: 0 <= i < |attrs| && attrs[i].local == k {
        var i :| 0 <= i < |attrs| && attrs[i].local == k;
        if i < |init| {
          assert init[i].local == k;
        }
      }
    }
  }

  /** The kind of the node a token becomes. */
  function KindOf(t: Token): string
    requires Makes(t)
  {
    match t
    case StartElement(local, _) => local
    case CharData(_) => "TEXT"
    case Directive(_) => "DIRECTIVE"
    case ProcInst(_, _) => "PROCINST"
  }

  /** The attributes of the node a token becomes. */
  function AttributesOf(t: Token): map<string, string>
    requires Makes(t)
  {
    match t
    case StartElement(_, attrs) => AttrMap(attrs)
    case CharData(text) => map["TEXT" := text]
    case Directive(text) => map["DIRECTIVE" := text]
    case ProcInst(target, inst) => map["TARGET" := target, "INSTRUCTION" := inst]
  }

  /** Node `c` carries what token `t` says. */
  ghost predicate Made(c: Chunk, t: Token)
    requires Makes(t)
    reads c`attributes
  {
    c.kind == KindOf(t) && c.attributes == AttributesOf(t)
  }

  /** Start tags minus end tags: how many elements are open after `ts`. */
  function Depth(ts: seq<Token>): int
  {
    if ts == [] then 0
    else
      var t := ts[|ts| - 1];
      Depth(ts[..|ts| - 1]) + (if t.StartElement? then 1 else if t.EndElement? then -1 else 0)
  }

  /** Every end tag finds an element open (unclosed elements at the end are allowed). */
  predicate EndsMatched(ts: seq<Token>)
  {
    forall i :: 0 <= i < |ts| && ts[i].EndElement? ==> Depth(ts[..i]) > 0
  }

  /** A stream whose end tags all match never has a negative depth. */
  lemma {:induction false} EndsMatchedDepth(ts: seq<Token>)
    requires EndsMatched(ts)
    ensures Depth(ts) >= 0
  {
    if ts != [] {
      var init := ts[..|ts| - 1];
      forall i | 0 <= i < |init| && init[i].EndElement?
        ensures Depth(init[..i]) > 0
      {
        assert init[..i] == ts[..i];
      }
      EndsMatchedDepth(init);
      if ts[|ts| - 1].EndElement? {
        assert ts[..|ts| - 1] == init;
      }
    }
  }

  /** The positions of the tokens that become nodes, in stream order. */
  function NodeTokens(ts: seq<Token>): (r: seq<nat>)
    ensures forall k :: 0 <= k < |r| ==> r[k] < |ts| && Makes(ts[r[k]])
    ensures forall j, k :: 0 <= j < k < |r| ==> r[j] < r[k]
    ensures forall i :: 0 <= i < |ts| && Makes(ts[i]) ==> i in r
  {
    if ts == [] then []
    else
      var n := |ts| - 1;
      var init := NodeTokens(ts[..n]);
      assert forall k :: 0 <= k < |init| ==> ts[init[k]] == ts[..n][init[k]];
      assert forall i :: 0 <= i < n ==> ts[i] == ts[..n][i];
      init + (if Makes(ts[n]) then [n] else [])
  }

  // ---------------------------------------------------------------------------
  // Shapes of the growing tree

  lemma DistinctSplit(a: seq<Chunk>, b: seq<Chunk>)
    requires Distinct(a + b)
    ensures Distinct(a) && Distinct(b) && forall x :: x in a ==> x !in b
  {
    assert forall i :: 0 <= i < |a| ==> (a + b)[i] == a[i];
    assert forall j :: 0 <= j < |b| ==> (a + b)[|a| + j] == b[j];
  }

  /** `path` descends from its first node by last children. */
  ghost predicate LastChildPath(path: seq<Chunk>, sh: Shape)
  {
    && (forall s :: 0 <= s < |path| ==> path[s] in sh.kids)
    && (forall s :: 0 <= s < |path| - 1 ==>
         sh.kids[path[s]] != [] && path[s + 1] == sh.kids[path[s]][|sh.kids[path[s]]| - 1])
  }

  /** The listing of `cs` ends with the last of them and its subtree. */
  lemma LastSplit(cs: seq<Chunk>, sh: Shape)
    requires sh.Ok() && InShape(cs, sh) && cs != []
    ensures InShape(cs[..|cs| - 1], sh) && InShape(sh.kids[cs[|cs| - 1]], sh)
    ensures Flatten(cs, sh)
      == Flatten(cs[..|cs| - 1], sh) + ([cs[|cs| - 1]] + Flatten(sh.kids[cs[|cs| - 1]], sh))
  {
    var init := cs[..|cs| - 1];
    var l := cs[|cs| - 1];
    assert cs == init + [l];
    FlattenAppend(init, [l], sh);
    FlattenUnfold([l], sh);
  }

  lemma PathTail(path: seq<Chunk>, sh: Shape)
    requires |path| > 1 && LastChildPath(path, sh)
    ensures LastChildPath(path[1..], sh) && path[1..] != []
    ensures var kids := sh.kids[path[0]]; kids != [] && path[1..][0] == kids[|kids| - 1]
  {
    assert forall s :: 0 <= s < |path| - 1 ==> path[1..][s] == path[s + 1];
  }

  /** The end of a last-child path lies in the subtree of its start. */
  lemma {:induction false} PathInside(path: seq<Chunk>, sh: Shape)
    requires sh.Ok() && path != [] && LastChildPath(path, sh)
    ensures |path| > 1 ==> path[|path| - 1] in Flatten(sh.kids[path[0]], sh)
    decreases |path|
  {
    if |path| > 1 {
      PathTail(path, sh);
      PathInside(path[1..], sh);
      LastSplit(sh.kids[path[0]], sh);
    }
  }

  /** A new last child of `l` is listed right after `l`'s old subtree. */
  lemma LeafUnder(l: Chunk, sh: Shape, n: Chunk)
    requires sh.Ok() && n !in sh.kids && l in sh.kids && l !in Flatten(sh.kids[l], sh)
    ensures Grow(sh, l, n).Ok() && InShape(Grow(sh, l, n).kids[l], Grow(sh, l, n))
    ensures Flatten(Grow(sh, l, n).kids[l], Grow(sh, l, n)) == Flatten(sh.kids[l], sh) + [n]
  {
    var g := Grow(sh, l, n);
    var below := sh.kids[l];
    assert g.kids[l] == below + [n];
    FlattenGrow(below, sh, l, n);
    FlattenAppend(below, [n], g);
    FlattenUnfold([n], g);
  }

  /** Appending a leaf under the end of the last-child path from the last of
      `cs` adds it at the very end of their pre-order listing. */
  lemma {:induction false} PathGrow(cs: seq<Chunk>, path: seq<Chunk>, sh: Shape, n: Chunk)
    requires sh.Ok() && n !in sh.kids && InShape(cs, sh) && cs != [] && path != []
    requires path[0] == cs[|cs| - 1] && LastChildPath(path, sh)
    requires Distinct(Flatten(cs, sh))
    ensures Grow(sh, path[|path| - 1], n).Ok() && InShape(cs, Grow(sh, path[|path| - 1], n))
    ensures Flatten(cs, Grow(sh, path[|path| - 1], n)) == Flatten(cs, sh) + [n]
    decreases |path|
  {
    var q := path[|path| - 1];
    var g := Grow(sh, q, n);
    GrowOk(sh, q, n);
    var init := cs[..|cs| - 1];
    var l := cs[|cs| - 1];
    var below := sh.kids[l];
    LastSplit(cs, sh);
    PathInside(path, sh);
    DistinctSplit(Flatten(init, sh), [l] + Flatten(below, sh));
    DistinctSplit([l], Flatten(below, sh));
    FlattenGrow(init, sh, q, n);
    LastSplit(cs, g);
    if |path| == 1 {
      LeafUnder(l, sh, n);
    } else {
      PathTail(path, sh);
      PathGrow(below, path[1..], sh, n);
      assert g.kids[l] == below;
    }
    SnocInside(Flatten(init, sh), l, Flatten(below, sh), n);
  }

  lemma SnocInside(a: seq<Chunk>, l: Chunk, b: seq<Chunk>, n: Chunk)
    ensures a + ([l] + (b + [n])) == (a + ([l] + b)) + [n]
  {
  }

  /** Appending a leaf at top level adds it at the end of the listing. */
  lemma TopGrow(cs: seq<Chunk>, sh: Shape, n: Chunk)
    requires sh.Ok() && n !in sh.kids && InShape(cs, sh)
    ensures Grow(sh, null, n).Ok() && InShape(cs + [n], Grow(sh, null, n))
    ensures Flatten(cs + [n], Grow(sh, null, n)) == Flatten(cs, sh) + [n]
  {
    var g := Grow(sh, null, n);
    FlattenGrow(cs, sh, null, n);
    FlattenAppend(cs, [n], g);
    FlattenUnfold([n], g);
  }

  // ---------------------------------------------------------------------------
  // Parents as a value

  /** Every parent lies in the shape and ranks below its child. */
  ghost predicate RankedParents(sh: Shape, par: map<Chunk, Chunk?>)
  {
    && par.Keys == sh.rank.Keys
    && forall x :: x in par && par[x] != null ==> par[x] in sh.rank && sh.rank[par[x]] < sh.rank[x]
  }

  /** `par` records the parent of each node: the node whose children hold
      it, or null for the top-level nodes `output`. */
  ghost predicate Parented(output: seq<Chunk>, sh: Shape, par: map<Chunk, Chunk?>)
  {
    && sh.Ok() && RankedParents(sh, par)
    && (forall x, ch :: x in sh.kids && ch in sh.kids[x] ==> par[ch] == x)
    && (forall x :: x in output ==> x in par && par[x] == null)
  }

  /** The ancestors of `x` by `par`, nearest first. */
  ghost function Ancestry(x: Chunk, sh: Shape, par: map<Chunk, Chunk?>): seq<Chunk>
    requires RankedParents(sh, par) && x in par
    decreases sh.rank[x]
  {
    if par[x] == null then [] else [par[x]] + Ancestry(par[x], sh, par)
  }

  /** The heap holds the children the shape records and the parents `par`
      records. */
  ghost predicate Realises(sh: Shape, par: map<Chunk, Chunk?>)
    reads sh.kids.Keys`children, par.Keys`parent
  {
    Mirrors(sh) && forall x :: x in par ==> x.parent == par[x]
  }

  /** Where the heap realises `par`, the ancestor chain is `Ancestry`, and
      the heap's parent links are those of a tree. */
  lemma {:induction false} AncestryIsChain(x: Chunk, sh: Shape, par: map<Chunk, Chunk?>)
    requires RankedParents(sh, par) && Realises(sh, par) && x in par
    ensures ParentsRanked(sh) && AncestorChain(x, sh) == Ancestry(x, sh, par)
    decreases sh.rank[x]
  {
    if par[x] != null {
      AncestryIsChain(par[x], sh, par);
    }
  }

  lemma RealisedLinks(output: seq<Chunk>, sh: Shape, par: map<Chunk, Chunk?>)
    requires Parented(output, sh, par) && Realises(sh, par)
    ensures Mirrors(sh) && DownLinked(sh) && ParentsRanked(sh)
    ensures forall x :: x in output ==> x.parent == null
  {
  }

  /** Growing the shape changes no existing node's ancestry; the new node's
      ancestry is its parent's with the parent in front. */
  lemma {:induction false} AncestryGrow(x: Chunk, sh: Shape, par: map<Chunk, Chunk?>, p: Chunk?, n: Chunk)
    requires RankedParents(sh, par) && x in par && n !in par
    requires RankedParents(Grow(sh, p, n), par[n := p])
    ensures Ancestry(x, Grow(sh, p, n), par[n := p]) == Ancestry(x, sh, par)
    decreases sh.rank[x]
  {
    if par[x] != null {
      AncestryGrow(par[x], sh, par, p, n);
    }
  }

  // ---------------------------------------------------------------------------
  // The builder

  /** The bookkeeping that needs no heap: the shape holds the created nodes,
      ranked by creation order, and lists them in that order from `output`. */
  ghost predicate Laid(output: seq<Chunk>, created: seq<Chunk>, sh: Shape)
  {
    && sh.Ok() && sh.bound == |created|
    && (forall k :: 0 <= k < |created| ==> created[k] in sh.kids && sh.rank[created[k]] == k)
    && InShape(output, sh) && Flatten(output, sh) == created
  }

  /** `open` lists the unclosed elements, outermost first: the last top-level
      node, then its last child, and so on down. */
  ghost predicate Spine(output: seq<Chunk>, open: seq<Chunk>, sh: Shape)
  {
    && (open != [] ==> output != [] && open[0] == output[|output| - 1])
    && LastChildPath(open, sh)
  }

  /** The state of `New` after the first `i` tokens, as values: the
      unclosed elements `open` and the cursor, the nodes `created` so far, in
      pre-order from `output`, each at the depth where its token came. */
  ghost predicate Plan(tokens: seq<Token>, i: nat, output: seq<Chunk>, current: Chunk?,
                       created: seq<Chunk>, sh: Shape, par: map<Chunk, Chunk?>, open: seq<Chunk>)
  {
    && i <= |tokens|
    && Laid(output, created, sh) && Spine(output, open, sh) && Parented(output, sh, par)
    && current == (if open == [] then null else open[|open| - 1])
    && EndsMatched(tokens[..i]) && |open| == Depth(tokens[..i])
    && Depths(tokens, i, created, sh, par, open)
  }

  /** How deep the open elements and the created nodes lie by `par`. */
  ghost predicate Depths(tokens: seq<Token>, i: nat, created: seq<Chunk>, sh: Shape,
                         par: map<Chunk, Chunk?>, open: seq<Chunk>)
  {
    && i <= |tokens| && RankedParents(sh, par)
    && (forall s :: 0 <= s < |open| ==> open[s] in par && |Ancestry(open[s], sh, par)| == s)
    && |created| == |NodeTokens(tokens[..i])|
    && forall k :: 0 <= k < |created| ==>
         created[k] in par && |Ancestry(created[k], sh, par)| == Depth(tokens[..NodeTokens(tokens[..i])[k]])
  }

  /** `tok` records the token each created node came from. */
  ghost predicate Tagged(tokens: seq<Token>, i: nat, created: seq<Chunk>, tok: map<Chunk, Token>)
    requires i <= |tokens|
  {
    && |created| == |NodeTokens(tokens[..i])|
    && forall k :: 0 <= k < |created| ==> created[k] in tok && tok[created[k]] == tokens[NodeTokens(tokens[..i])[k]]
  }

  /** Each node carries what its recorded token says. */
  ghost predicate Stamped(tok: map<Chunk, Token>)
    reads tok.Keys`attributes
  {
    forall x :: x in tok ==> Makes(tok[x]) && Made(x, tok[x])
  }

  /** The whole state of `New` after the first `i` tokens. */
  ghost predicate Building(tokens: seq<Token>, i: nat, output: seq<Chunk>, current: Chunk?, created: seq<Chunk>,
                           sh: Shape, par: map<Chunk, Chunk?>, tok: map<Chunk, Token>, open: seq<Chunk>)
    reads sh.kids.Keys`children, par.Keys`parent, tok.Keys`attributes
  {
    // Bound to one name, so that obligations about the whole state are not
    // split into one per conjunct.
    var whole := Plan(tokens, i, output, current, created, sh, par, open) && Tagged(tokens, i, created, tok)
      && Realises(sh, par) && Stamped(tok);
    whole
  }

  /** The node a token becomes (`newChunk` with the start tag's attributes
      set in order, `newTextChunk`, `newDirectiveChunk` or
      `newProcessingInstructionChunk`), still detached. */
  method MakeChunk(t: Token) returns (c: Chunk)
    requires Makes(t)
    ensures fresh(c) && Made(c, t) && c.parent == null && c.children == []
  {
    if t.StartElement? {
      c := new Chunk(t.local);
      for i := 0 to |t.attrs|
        invariant c.kind == t.local && c.parent == null && c.children == []
        invariant c.attributes == AttrMap(t.attrs[..i])
      {
        assert t.attrs[..i + 1][..i] == t.attrs[..i];
        c.attributes := c.attributes[t.attrs[i].local := t.attrs[i].value];
      }
      assert t.attrs[..|t.attrs|] == t.attrs;
    } else if t.CharData? {
      c := new Chunk.Text(t.text);
    } else if t.Directive? {
      c := new Chunk.Directive(t.text);
    } else {
      c := new Chunk.ProcInst(t.target, t.inst);
    }
  }

  /** Appending a node keeps the bookkeeping: the listing grows by the new
      node, and the open elements (with or without the new node) still form
      the spine. */
  lemma LaidGrow(output: seq<Chunk>, created: seq<Chunk>, sh: Shape, open: seq<Chunk>, c: Chunk,
                 q: Chunk?, output': seq<Chunk>)
    requires Laid(output, created, sh) && Spine(output, open, sh) && c !in sh.kids
    requires q == (if open == [] then null else open[|open| - 1])
    requires output' == (if open == [] then output + [c] else output)
    ensures Laid(output', created + [c], Grow(sh, q, c))
  {
    var g := Grow(sh, q, c);
    GrowOk(sh, q, c);
    assert Distinct(Flatten(output, sh)) by {
      forall i, j | 0 <= i < j < |created|
        ensures created[i] != created[j]
      {
        assert sh.rank[created[i]] == i && sh.rank[created[j]] == j;
      }
    }
    if open == [] {
      TopGrow(output, sh, c);
    } else {
      PathGrow(output, open, sh, c);
    }
  }

  lemma SpineGrow(output: seq<Chunk>, sh: Shape, open: seq<Chunk>, c: Chunk,
                  q: Chunk?, output': seq<Chunk>, open': seq<Chunk>)
    requires sh.Ok() && Spine(output, open, sh) && c !in sh.kids
    requires q == (if open == [] then null else open[|open| - 1])
    requires output' == (if open == [] then output + [c] else output)
    requires open' == open || open' == open + [c]
    ensures Spine(output', open', Grow(sh, q, c))
  {
    var g := Grow(sh, q, c);
    if open != [] {
      forall s | 0 <= s < |open| - 1
        ensures g.kids[open[s]] == sh.kids[open[s]]
      {
        assert sh.rank[open[s]] < sh.rank[q] by {
          PathRanks(open, sh, s);
        }
      }
    }
  }

  /** Ranks rise along a last-child path. */
  lemma {:induction false} PathRanks(path: seq<Chunk>, sh: Shape, s: nat)
    requires sh.Ok() && LastChildPath(path, sh) && s < |path| - 1
    ensures sh.rank[path[s]] < sh.rank[path[|path| - 1]]
    decreases |path| - s
  {
    if s + 1 < |path| - 1 {
      PathRanks(path, sh, s + 1);
    }
  }

  /** One more token: how the depth, the node positions and the matching of
      end tags extend. */
  lemma PrefixStep(tokens: seq<Token>, i: nat)
    requires i < |tokens|
    ensures var t := tokens[i];
      Depth(tokens[..i + 1]) == Depth(tokens[..i]) + (if t.StartElement? then 1 else if t.EndElement? then -1 else 0)
    ensures NodeTokens(tokens[..i + 1]) == NodeTokens(tokens[..i]) + (if Makes(tokens[i]) then [i] else [])
    ensures EndsMatched(tokens[..i]) && (tokens[i].EndElement? ==> Depth(tokens[..i]) > 0)
      ==> EndsMatched(tokens[..i + 1])
  {
    assert tokens[..i + 1][..i] == tokens[..i];
    if EndsMatched(tokens[..i]) && (tokens[i].EndElement? ==> Depth(tokens[..i]) > 0) {
      var ts := tokens[..i + 1];
      forall j | 0 <= j < |ts| && ts[j].EndElement?
        ensures Depth(ts[..j]) > 0
      {
        if j < i {
          assert ts[..j] == tokens[..i][..j];
        } else {
          assert ts[..j] == tokens[..i];
        }
      }
    }
  }

  /** An end tag with an element open: the cursor moves to the parent of the
      innermost element, which is the next unclosed one out, or none. */
  lemma ClosePlan(tokens: seq<Token>, i: nat, output: seq<Chunk>, current: Chunk?,
                  created: seq<Chunk>, sh: Shape, par: map<Chunk, Chunk?>, open: seq<Chunk>)
    requires i < |tokens| && tokens[i].EndElement? && current != null
    requires Plan(tokens, i, output, current, created, sh, par, open)
    ensures current in par && par[current] == (if |open| == 1 then null else open[|open| - 2])
    ensures Plan(tokens, i + 1, output, par[current], created, sh, par, open[..|open| - 1])
  {
    PrefixStep(tokens, i);
    var t := |open| - 1;
    if t > 0 {
      assert open[t] in sh.kids[open[t - 1]];
    }
    assert LastChildPath(open[..t], sh);
  }

  /** A token that makes no node leaves the plan unchanged. */
  lemma SkipPlan(tokens: seq<Token>, i: nat, output: seq<Chunk>, current: Chunk?,
                 created: seq<Chunk>, sh: Shape, par: map<Chunk, Chunk?>, open: seq<Chunk>)
    requires i < |tokens| && tokens[i].Comment?
    requires Plan(tokens, i, output, current, created, sh, par, open)
    ensures Plan(tokens, i + 1, output, current, created, sh, par, open)
  {
    PrefixStep(tokens, i);
  }

  lemma TaggedSkip(tokens: seq<Token>, i: nat, created: seq<Chunk>, tok: map<Chunk, Token>)
    requires i < |tokens| && !Makes(tokens[i]) && Tagged(tokens, i, created, tok)
    ensures Tagged(tokens, i + 1, created, tok)
  {
    PrefixStep(tokens, i);
  }

  lemma TaggedGrow(tokens: seq<Token>, i: nat, created: seq<Chunk>, tok: map<Chunk, Token>, c: Chunk)
    requires i < |tokens| && Makes(tokens[i]) && Tagged(tokens, i, created, tok) && c !in tok
    ensures Tagged(tokens, i + 1, created + [c], tok[c := tokens[i]])
  {
    PrefixStep(tokens, i);
  }

  /** A new node stacked under the cursor: the plan after it, where a start
      tag also opens the new node. */
  lemma PutPlan(tokens: seq<Token>, i: nat, output: seq<Chunk>, current: Chunk?,
                created: seq<Chunk>, sh: Shape, par: map<Chunk, Chunk?>, open: seq<Chunk>, c: Chunk,
                output': seq<Chunk>, current': Chunk?, open': seq<Chunk>)
    requires i < |tokens| && Makes(tokens[i]) && c !in sh.kids
    requires Plan(tokens, i, output, current, created, sh, par, open)
    requires output' == (if current == null then output + [c] else output)
    requires || (tokens[i].StartElement? && current' == c && open' == open + [c])
             || (!tokens[i].StartElement? && current' == current && open' == open)
    ensures Plan(tokens, i + 1, output', current', created + [c], Grow(sh, current, c), par[c := current], open')
  {
    PrefixStep(tokens, i);
    LaidGrow(output, created, sh, open, c, current, output');
    SpineGrow(output, sh, open, c, current, output', open');
    ParentedGrow(output, sh, par, current, c, output');
    DepthsGrow(tokens, i, created, sh, par, open, c, current, open');
  }

  /** The new node lies one below its parent, at the depth of its token;
      no other node moves. */
  lemma DepthsGrow(tokens: seq<Token>, i: nat, created: seq<Chunk>, sh: Shape,
                   par: map<Chunk, Chunk?>, open: seq<Chunk>, c: Chunk, q: Chunk?, open': seq<Chunk>)
    requires i < |tokens| && Makes(tokens[i]) && c !in par
    requires Depths(tokens, i, created, sh, par, open) && |open| == Depth(tokens[..i])
    requires q == (if open == [] then null else open[|open| - 1])
    requires open' == open || open' == open + [c]
    requires RankedParents(Grow(sh, q, c), par[c := q])
    ensures Depths(tokens, i + 1, created + [c], Grow(sh, q, c), par[c := q], open')
  {
    var g := Grow(sh, q, c);
    var par' := par[c := q];
    PrefixStep(tokens, i);
    forall x | x in par
      ensures Ancestry(x, g, par') == Ancestry(x, sh, par)
    {
      AncestryGrow(x, sh, par, q, c);
    }
    if q != null {
      assert Ancestry(c, g, par') == [q] + Ancestry(q, g, par');
    }
    assert |Ancestry(c, g, par')| == |open|;
    forall s | 0 <= s < |open'|
      ensures open'[s] in par' && |Ancestry(open'[s], g, par')| == s
    {
      if s < |open| {
        assert open'[s] == open[s];
      }
    }
    var nodes, nodes' := NodeTokens(tokens[..i]), NodeTokens(tokens[..i + 1]);
    assert nodes' == nodes + [i];
    var created' := created + [c];
    forall k | 0 <= k < |created'|
      ensures created'[k] in par' && |Ancestry(created'[k], g, par')| == Depth(tokens[..nodes'[k]])
    {
      if k < |created| {
        assert created'[k] == created[k] && nodes'[k] == nodes[k];
      }
    }
  }

  lemma ParentedGrow(output: seq<Chunk>, sh: Shape, par: map<Chunk, Chunk?>, q: Chunk?, c: Chunk, output': seq<Chunk>)
    requires Parented(output, sh, par) && (q == null || q in sh.kids) && c !in sh.kids
    requires output' == (if q == null then output + [c] else output)
    ensures Parented(output', Grow(sh, q, c), par[c := q])
  {
    GrowOk(sh, q, c);
    RankedGrow(sh, par, q, c);
    ChildrenGrow(sh, par, q, c);
    forall x | x in output'
      ensures x in par[c := q] && par[c := q][x] == null
    {
      if x != c {
        assert x in output;
      }
    }
  }

  lemma RankedGrow(sh: Shape, par: map<Chunk, Chunk?>, q: Chunk?, c: Chunk)
    requires sh.Ok() && RankedParents(sh, par) && (q == null || q in sh.kids) && c !in sh.kids
    ensures RankedParents(Grow(sh, q, c), par[c := q])
  {
    var g := Grow(sh, q, c);
    var par' := par[c := q];
    var rank' := sh.rank[c := sh.bound];
    assert g.rank == rank';
    assert par'.Keys == rank'.Keys by {
      assert par'.Keys == par.Keys + {c};
      assert rank'.Keys == sh.rank.Keys + {c};
    }
    forall x | x in par' && par'[x] != null
      ensures par'[x] in rank' && rank'[par'[x]] < rank'[x]
    {
      if x == c {
        assert q in sh.rank && sh.rank[q] < sh.bound;
      } else {
        var p := par[x];
        assert par'[x] == p && p in sh.rank && p != c;
        assert rank'[p] == sh.rank[p] < sh.rank[x] == rank'[x];
      }
    }
  }

  lemma ChildrenGrow(sh: Shape, par: map<Chunk, Chunk?>, q: Chunk?, c: Chunk)
    requires sh.Ok() && par.Keys == sh.rank.Keys && (q == null || q in sh.kids) && c !in sh.kids
    requires forall x, ch :: x in sh.kids && ch in sh.kids[x] ==> par[ch] == x
    ensures var g := Grow(sh, q, c);
      forall x, ch :: x in g.kids && ch in g.kids[x] ==> par[c := q][ch] == x
  {
    var g := Grow(sh, q, c);
    forall x, ch | x in g.kids && ch in g.kids[x]
      ensures par[c := q][ch] == x
    {
      if x == c {
      } else if x == q {
        if ch != c {
          assert ch in sh.kids[x];
        }
      } else {
        assert ch in sh.kids[x];
      }
    }
  }

  /** `stack`: appends `c` under the open element `current`, or to the
      top-level output when no element is open. */
  method Stack(c: Chunk, current: Chunk?, output: seq<Chunk>, ghost sh: Shape, ghost par: map<Chunk, Chunk?>)
    returns (output': seq<Chunk>)
    requires Realises(sh, par) && sh.Ok() && par.Keys == sh.kids.Keys
    requires current == null || current in sh.kids
    requires c !in sh.kids && c.parent == null && c.children == []
    modifies {current}`children, c`parent
    ensures output' == (if current == null then output + [c] else output)
    ensures Realises(Grow(sh, current, c), par[c := current])
  {
    if current == null {
      output' := output + [c];
    } else {
      current.AddChildren([c]);
      output' := output;
    }
  }

  /** Before the first token: nothing open and nothing made. */
  lemma Started(tokens: seq<Token>)
    ensures Building(tokens, 0, [], null, [], Shape(map[], map[], 0), map[], map[], [])
  {
    assert tokens[..0] == [];
  }

  /** An end tag with an element open moves the cursor to its parent. */
  lemma CloseStep(tokens: seq<Token>, i: nat, output: seq<Chunk>, current: Chunk?, created: seq<Chunk>,
                  sh: Shape, par: map<Chunk, Chunk?>, tok: map<Chunk, Token>, open: seq<Chunk>)
    requires i < |tokens| && tokens[i].EndElement? && current != null
    requires Building(tokens, i, output, current, created, sh, par, tok, open)
    ensures Building(tokens, i + 1, output, current.parent, created, sh, par, tok, open[..|open| - 1])
  {
    ClosePlan(tokens, i, output, current, created, sh, par, open);
    TaggedSkip(tokens, i, created, tok);
  }

  /** A comment changes nothing. */
  lemma SkipStep(tokens: seq<Token>, i: nat, output: seq<Chunk>, current: Chunk?, created: seq<Chunk>,
                 sh: Shape, par: map<Chunk, Chunk?>, tok: map<Chunk, Token>, open: seq<Chunk>)
    requires i < |tokens| && tokens[i].Comment?
    requires Building(tokens, i, output, current, created, sh, par, tok, open)
    ensures Building(tokens, i + 1, output, current, created, sh, par, tok, open)
  {
    SkipPlan(tokens, i, output, current, created, sh, par, open);
    TaggedSkip(tokens, i, created, tok);
  }

  /** A token that becomes a node: the node is made and stacked under the
      cursor. */
  method Put(t: Token, current: Chunk?, output: seq<Chunk>, ghost sh: Shape, ghost par: map<Chunk, Chunk?>,
             ghost tok: map<Chunk, Token>)
    returns (c: Chunk, output': seq<Chunk>)
    requires Makes(t) && Realises(sh, par) && Stamped(tok) && sh.Ok() && par.Keys == sh.kids.Keys
    requires current == null || current in sh.kids
    modifies sh.kids.Keys`children
    ensures fresh(c) && Made(c, t)
    ensures output' == (if current == null then output + [c] else output)
    ensures Realises(Grow(sh, current, c), par[c := current]) && Stamped(tok[c := t])
  {
    c := MakeChunk(t);
    output' := Stack(c, current, output, sh, par);
  }

  /** A token that becomes a node: the node is put under the cursor, and a
      start tag moves the cursor into it. */
  method PutStep(tokens: seq<Token>, i: nat, current: Chunk?, output: seq<Chunk>, ghost created: seq<Chunk>,
                 ghost sh: Shape, ghost par: map<Chunk, Chunk?>, ghost tok: map<Chunk, Token>, ghost open: seq<Chunk>)
    returns (current': Chunk?, output': seq<Chunk>, ghost created': seq<Chunk>, ghost sh': Shape,
             ghost par': map<Chunk, Chunk?>, ghost tok': map<Chunk, Token>, ghost open': seq<Chunk>)
    requires i < |tokens| && Makes(tokens[i])
    requires Building(tokens, i, output, current, created, sh, par, tok, open)
    modifies sh.kids.Keys`children
    ensures Building(tokens, i + 1, output', current', created', sh', par', tok', open')
    ensures forall x :: x in sh'.kids ==> x in sh.kids || fresh(x)
  {
    var c;
    c, output' := Put(tokens[i], current, output, sh, par, tok);
    current' := if tokens[i].StartElement? then c else current;
    open' := if tokens[i].StartElement? then open + [c] else open;
    PutPlan(tokens, i, output, current, created, sh, par, open, c, output', current', open');
    TaggedGrow(tokens, i, created, tok, c);
    created', sh', par', tok' := created + [c], Grow(sh, current, c), par[c := current], tok[c := tokens[i]];
  }

  /** One token of the stream: an end tag closes the innermost open element
      and fails when there is none, a comment is skipped, and any other token
      becomes a node. */
  method Step(tokens: seq<Token>, i: nat, current: Chunk?, output: seq<Chunk>, ghost created: seq<Chunk>,
              ghost sh: Shape, ghost par: map<Chunk, Chunk?>, ghost tok: map<Chunk, Token>, ghost open: seq<Chunk>)
    returns (ok: bool, current': Chunk?, output': seq<Chunk>, ghost created': seq<Chunk>, ghost sh': Shape,
             ghost par': map<Chunk, Chunk?>, ghost tok': map<Chunk, Token>, ghost open': seq<Chunk>)
    requires i < |tokens|
    requires Building(tokens, i, output, current, created, sh, par, tok, open)
    modifies sh.kids.Keys`children
    ensures ok ==> Building(tokens, i + 1, output', current', created', sh', par', tok', open')
    ensures !ok ==> !EndsMatched(tokens)
    ensures forall x :: x in sh'.kids ==> x in sh.kids || fresh(x)
  {
    ok := true;
    if tokens[i].EndElement? {
      if current == null {
        Unmatched(tokens, i);
        ok := false;
        return ok, current, output, created, sh, par, tok, open;
      }
      CloseStep(tokens, i, output, current, created, sh, par, tok, open);
      current', output', created', sh', par', tok', open' := current.parent, output, created, sh, par, tok, open[..|open| - 1];
    } else if tokens[i].Comment? {
      SkipStep(tokens, i, output, current, created, sh, par, tok, open);
      current', output', created', sh', par', tok', open' := current, output, created, sh, par, tok, open;
    } else {
      current', output', created', sh', par', tok', open' := PutStep(tokens, i, current, output, created, sh, par, tok, open);
    }
  }

  /** `New`: builds the tree of a token stream. It fails exactly when some
      end tag comes with no element open. Otherwise the result lists its
      top-level nodes; their pre-order listing is the created nodes, one per
      start tag, character data, directive or processing instruction, in
      stream order, each carrying what its token says and lying as deep as
      elements were open at its token. */
  method New(tokens: seq<Token>) returns (r: Result<seq<Chunk>>, ghost created: seq<Chunk>, ghost sh: Shape)
    ensures r.Success? <==> EndsMatched(tokens)
    ensures r.Success? ==>
      && sh.Ok() && Mirrors(sh) && DownLinked(sh) && ParentsRanked(sh)
      && InShape(r.value, sh) && Flatten(r.value, sh) == created && Distinct(created)
      && (forall x :: x in r.value ==> x.parent == null)
      && |created| == |NodeTokens(tokens)|
      && (forall k :: 0 <= k < |created| ==> created[k] in sh.rank)
      && forall k :: 0 <= k < |created| ==>
           && Made(created[k], tokens[NodeTokens(tokens)[k]])
           && |AncestorChain(created[k], sh)| == Depth(tokens[..NodeTokens(tokens)[k]])
  {
    var output: seq<Chunk> := [];
    var current: Chunk? := null;
    ghost var open: seq<Chunk> := [];
    ghost var par: map<Chunk, Chunk?> := map[];
    ghost var tok: map<Chunk, Token> := map[];
    created := [];
    sh := Shape(map[], map[], 0);
    Started(tokens);
    for i := 0 to |tokens|
      invariant Building(tokens, i, output, current, created, sh, par, tok, open)
      invariant forall x :: x in sh.kids ==> fresh(x)
    {
      var ok;
      ok, current, output, created, sh, par, tok, open := Step(tokens, i, current, output, created, sh, par, tok, open);
      if !ok {
        return Failure("end element with no element open"), created, sh;
      }
    }
    assert tokens[..|tokens|] == tokens;
    Built(tokens, output, created, sh, par, tok);
    r := Success(output);
  }

  /** An end tag at depth zero breaks the matching of the whole stream. */
  lemma Unmatched(tokens: seq<Token>, i: nat)
    requires i < |tokens| && tokens[i].EndElement? && Depth(tokens[..i]) == 0
    ensures !EndsMatched(tokens)
  {
  }

  /** The final state read back on the heap. */
  lemma Built(tokens: seq<Token>, output: seq<Chunk>, created: seq<Chunk>, sh: Shape, par: map<Chunk, Chunk?>,
               tok: map<Chunk, Token>)
    requires Laid(output, created, sh) && Parented(output, sh, par) && Realises(sh, par)
    requires Tagged(tokens, |tokens|, created, tok) && Stamped(tok)
    requires |created| == |NodeTokens(tokens)|
    requires forall k :: 0 <= k < |created| ==>
      created[k] in par && |Ancestry(created[k], sh, par)| == Depth(tokens[..NodeTokens(tokens)[k]])
    ensures Mirrors(sh) && DownLinked(sh) && ParentsRanked(sh) && Distinct(created)
    ensures forall x :: x in output ==> x.parent == null
    ensures forall k :: 0 <= k < |created| ==>
      created[k] in sh.rank && |AncestorChain(created[k], sh)| == Depth(tokens[..NodeTokens(tokens)[k]])
    ensures forall k :: 0 <= k < |created| ==> Made(created[k], tokens[NodeTokens(tokens)[k]])
  {
    assert tokens[..|tokens|] == tokens;
    RealisedLinks(output, sh, par);
    BuiltDistinct(created, sh);
    forall k | 0 <= k < |created|
      ensures AncestorChain(created[k], sh) == Ancestry(created[k], sh, par)
    {
      AncestryIsChain(created[k], sh, par);
    }
  }

  lemma BuiltDistinct(created: seq<Chunk>, sh: Shape)
    requires forall k :: 0 <= k < |created| ==> created[k] in sh.rank && sh.rank[created[k]] == k
    ensures Distinct(created)
  {
    forall i, j | 0 <= i < j < |created|
      ensures created[i] != created[j]
    {
      assert sh.rank[created[i]] == i && sh.rank[created[j]] == j;
    }
  }
}
