/*
 * The translation walk of translate.go: `AsciiDocFromDocBook`'s `translate`
 * closure and its helpers `quote`, `decorateTitle` and `quoteSafe`, and the
 * normaliser that runs over every output file afterwards.
 *
 * The closure's captured state becomes a `Translator` object: the register
 * of TEXT nodes not yet emitted (a field the walk shrinks), the output
 * document `ad` (whose tables the walk fills), and, as constants, the style
 * (a category table taken as a value), the document's conditions, the
 * source document's resources and the two path functions the walk uses.
 * The tree is described by the ghost shape `sh`; the walk never changes it.
 *
 * The walk recurses on children, so every call carries a ghost `floor`
 * below the ranks of the nodes it visits. The one call that stays at the
 * same depth is the list item's translation of its sibling terms; it runs
 * in `phase` 0, in which only terms are visited, and a term is never a list
 * item.
 */
module Translate {
  import opened Wrappers
  import opened Strings
  import opened XmlChunk
  import XmlChunks
  import opened Styles
  import opened AsciiDoc
  import DocBook
  import opened TranslateText
  import opened TranslateParts

  /** Leaving out none of the kinds keeps every node: `FilterOut` with no
      kinds is the whole list, which is how the walk's "all children" calls
      are written below. */
  lemma {:induction false} SelectNone(cs: seq<Chunk>)
    ensures XmlChunks.Select(cs, [], false) == cs
  {
    if cs != [] {
      SelectNone(cs[1..]);
    }
  }

  /** A node with `c` among its ancestors has a parent ranked no lower than
      `c`. */
  lemma ParentAbove(y: Chunk, c: Chunk, sh: Shape)
    requires ParentsRanked(sh) && y in sh.rank && c in AncestorChain(y, sh)
    ensures y.parent != null && y.parent in sh.rank && c in sh.rank
    ensures sh.rank[c] <= sh.rank[y.parent]
  {
    AncestorChainShape(y, sh);
    var r := AncestorChain(y, sh);
    var j :| 0 <= j < |r| && r[j] == c;
    if j > 0 {
      assert sh.rank[r[j]] < sh.rank[r[0]];
    }
  }

  /** A run of `n` + 2 '=' signs, with a space after it, or "." past six,
      is the marker of level `n`. */
  lemma MarkerOf(t: string, decor: string, n: nat)
    requires |t| == 2 + n && AllOf(t, '=')
    requires decor == if |t| > 6 then "." else t + " "
    ensures decor == Marker(n)
  {
    assert t == Repeat('=', n + 2);
  }

  /** One more ancestor adds one to the count when it has a title child. */
  lemma TitledCountStep(line: seq<Chunk>, i: nat, sh: Shape)
    requires sh.Ok() && Mirrors(sh) && i < |line| && forall a :: a in line ==> a in sh.kids
    ensures TitledCount(line[..i + 1], sh)
      == TitledCount(line[..i], sh) + if XmlChunks.Contains(line[i].children, ["title"]) then 1 else 0
  {
    assert line[..i + 1][..i] == line[..i];
  }

  /** The register of the nodes `texts`: one entry per node. */
  method Register(texts: seq<Chunk>) returns (reg: set<Chunk>)
    ensures forall t :: t in reg <==> t in texts
  {
    reg := {};
    for i := 0 to |texts|
      invariant forall t :: t in reg <==> t in texts[..i]
    {
      assert texts[..i + 1] == texts[..i] + [texts[i]];
      reg := reg + {texts[i]};
    }
    assert texts[..|texts|] == texts;
  }

  /** The proper descendants of `c`, in pre-order. */
  ghost function Descendants(c: Chunk, sh: Shape): (r: seq<Chunk>)
    requires sh.Ok() && c in sh.kids
    ensures forall y :: y in r ==> y in sh.kids && sh.rank[c] < sh.rank[y]
  {
    XmlChunks.FlattenFromMembers(sh.kids[c], sh, sh.rank[c] + 1);
    XmlChunks.FlattenFrom(sh.kids[c], sh, sh.rank[c] + 1)
  }

  /** `kinds`-nodes among the descendants of `c`. */
  ghost function DescendantsOf(c: Chunk, kinds: seq<string>, sh: Shape): (r: seq<Chunk>)
    requires sh.Ok() && c in sh.kids
    reads sh.kids.Keys
    ensures forall y :: y in r ==> y in sh.kids && y.kind in kinds
  {
    XmlChunks.SelectMembers(Descendants(c, sh), kinds, true);
    XmlChunks.Filter(Descendants(c, sh), kinds)
  }

  /** `quoteSafe` of one node: no include below it, and none of the quote
      marks in the text below it. */
  ghost predicate SafeNode(c: Chunk, sh: Shape)
    requires sh.Ok() && c in sh.kids
    reads sh.kids.Keys
  {
    && !XmlChunks.Contains(Descendants(c, sh), ["include"])
    && forall m :: 0 <= m < |Marks| ==> Marks[m] !in Texts(DescendantsOf(c, ["TEXT"], sh))
  }

  /** `quoteSafe`: no node of `cs` has an include below it or a quote mark
      in the text below it. */
  method QuoteSafe(cs: seq<Chunk>, ghost sh: Shape) returns (b: bool)
    requires sh.Ok() && Mirrors(sh) && forall c :: c in cs ==> c in sh.kids
    ensures b <==> old(forall c :: c in cs ==> SafeNode(c, sh))
  {
    for i := 0 to |cs|
      invariant forall j :: 0 <= j < i ==> old(SafeNode(cs[j], sh))
    {
      var safe := SafeBelow(cs[i], sh);
      if !safe {
        return false;
      }
    }
    return true;
  }

  /** The end of the list item arm: the scanned lines of `text`, dropped
      when two characters or fewer, otherwise cut of a final "+\n" and put
      behind `decor`. */
  method ItemFinish(text: string, decor: string) returns (r: Result<string>, ghost plain: bool)
    ensures r.Success? ==> var p := ItemLines(text);
      r.value == if |p| <= 2 then "" else ItemOutput(decor, CutTailAsWritten(p), plain)
    ensures r.Success? && |ItemLines(text)| > 2 && |CutTailAsWritten(ItemLines(text))| >= 3 ==>
      var q := CutTailAsWritten(ItemLines(text));
      plain <==> q[0] in ItemStarts || q[1] in ItemStarts || q[2] in ItemStarts
    ensures var q := CutTailAsWritten(ItemLines(text));
      |ItemLines(text)| > 2 && |q| < 3 ==> (r.Failure? <==> q[0] != '1' && (|q| < 2 || q[1] != '1'))
    ensures |ItemLines(text)| <= 2 || |CutTailAsWritten(ItemLines(text))| >= 3 ==> r.Success?
  {
    plain := false;
    var lines := Split(text, "\n");
    var p := MarkBlankLines(lines);
    p := Settled(p, "\n+\n+\n", "\n+\n");
    if |p| > 2 {
      p := CutTailAsWritten(p);
      var start :- StartsPlainly(p);
      plain := start;
      r := Success(ItemOutput(decor, p, start));
    } else {
      r := Success("");
    }
  }

  /** The end of the list item arm as evidently intended: only a lone "+"
      line is cut, and the length is tested after the cut, so the first
      three characters always exist when they are read. It never fails. */
  method ItemFinishRetested(text: string, decor: string) returns (r: Result<string>, ghost plain: bool)
    ensures r.Success?
    ensures var q := CutTail(ItemLines(text));
      r.value == if |q| <= 2 then "" else ItemOutput(decor, q, plain)
    ensures var q := CutTail(ItemLines(text));
      |q| > 2 ==> (plain <==> q[0] in ItemStarts || q[1] in ItemStarts || q[2] in ItemStarts)
  {
    plain := false;
    var lines := Split(text, "\n");
    var p := MarkBlankLines(lines);
    p := Settled(p, "\n+\n+\n", "\n+\n");
    p := CutTail(p);
    if |p| > 2 {
      var start := StartsPlainly(p);
      plain := start.value;
      r := Success(ItemOutput(decor, p, start.value));
    } else {
      r := Success("");
    }
  }

  /** With a style that counts `term` as a list item, a term inside a list
      entry is taken by the list item arm, which comes first in the switch,
      and that arm translates the `term` siblings of the node: the term
      itself among them, so the recursion has no bound (in Go, a fatal
      stack overflow). */
  lemma TermAsItemReachesItself(c: Chunk, listitems: seq<string>)
    requires "term" in listitems && c.kind == "term" && c.parent != null && c in c.parent.children
    ensures c.kind in listitems && c in XmlChunks.Filter(c.parent.children, ["term"])
  {
    XmlChunks.SelectMembers(c.parent.children, ["term"], true);
    var i :| 0 <= i < |c.parent.children| && c.parent.children[i] == c;
  }

  /** The loop that replaces the references to `key` in every stored value,
      visiting the keys in whatever order the map range takes, then the store
      of `contents` under `key`. */
  method Redefining(e: map<string, string>, key: string, contents: string) returns (r: map<string, string>)
    ensures r == Redefined(e, key, contents)
  {
    var pat := "&" + key + ";";
    r := e;
    var rest := e.Keys;
    while rest != {}
      invariant rest <= e.Keys && r.Keys == e.Keys
      invariant forall k :: k in e ==> r[k] == if k in rest then e[k] else Replace(e[k], pat, contents)
      decreases |rest|
    {
      var k :| k in rest;
      r := r[k := Replace(r[k], pat, contents)];
      rest := rest - {k};
    }
    assert r == map k | k in e :: Replace(e[k], pat, contents);
    r := r[key := contents];
  }

  /** One more child's piece keeps the pieces matched to their raw texts. */
  lemma PiecesSnoc(raws: seq<string>, pieces: seq<string>, flags: seq<bool>, raw: string, text: string)
    requires |raws| == |pieces| < |flags| && text == Piece(raw, flags[|raws|])
    requires forall j :: 0 <= j < |raws| ==> pieces[j] == Piece(raws[j], flags[j])
    ensures forall j :: 0 <= j < |raws| + 1 ==> (pieces + [text])[j] == Piece((raws + [raw])[j], flags[j])
  {
  }

  /** A child's text as the paragraph arm keeps it: as is when the child is
      literal, tidied otherwise. */
  function Piece(raw: string, literal: bool): string
  {
    if literal then raw else Tidy(raw)
  }

  /** The three rewrites the paragraph arm applies to a child that is not
      literal. */
  method Tidied(text: string) returns (t: string)
    ensures t == Tidy(text)
  {
    t := Settled(text, "  ", " ");
    t := Replace(t, "\t", "");
    t := Replace(t, "\n ", "\n");
  }

  /** What the span prefix of an entry is: nothing unless the entry is the
      only one of its row; then the widest row's entry count and '+', where
      the rows are those below the outermost table group above the entry,
      and without such a group the arm panics. */
  ghost predicate Spanned(c: Chunk, ok: bool, span: string, w: nat, sh: Shape)
    requires sh.Ok() && Mirrors(sh) && ParentsRanked(sh) && c in sh.kids && c.parent != null
    reads sh.kids.Keys, sh.rank.Keys
  {
    if |XmlChunks.Filter(c.parent.children, ["entry"])| != 1 then ok && span == ""
    else GroupSpanned(c, ok, span, w, sh)
  }

  /** The span prefix of a lone entry: the outermost table group above it
      must exist, and the prefix is its widest row's entry count and '+'. */
  ghost predicate GroupSpanned(c: Chunk, ok: bool, span: string, w: nat, sh: Shape)
    requires sh.Ok() && ParentsRanked(sh) && c in sh.kids
    reads sh.kids.Keys, sh.rank.Keys
  {
    var tgroup := Group(c, sh);
    && (ok <==> tgroup != null)
    && (ok ==> tgroup in sh.kids && IsWidest(DescendantsOf(tgroup, ["row"], sh), w, sh)
               && span == Itoa(w) + "+")
  }

  /** The outermost table group above `c`, if any. */
  ghost function Group(c: Chunk, sh: Shape): (g: Chunk?)
    requires sh.Ok() && ParentsRanked(sh) && c in sh.kids
    reads sh.kids.Keys, sh.rank.Keys
    ensures g != null ==> g in sh.kids
  {
    AncestorChainShape(c, sh);
    XmlChunks.Last(AncestorChain(c, sh), ["tgroup"])
  }

  /** The span prefix of an entry. */
  method Span(c: Chunk, ghost sh: Shape) returns (r: Result<string>, ghost ok: bool, ghost span: string, ghost w: nat)
    requires sh.Ok() && Mirrors(sh) && ParentsRanked(sh) && c in sh.kids && c.parent != null
    ensures old(Spanned(c, ok, span, w, sh))
    ensures (ok <==> r.Success?) && (ok ==> r.value == span)
  {
    ok, span, w := true, "", 0;
    if |XmlChunks.Filter(c.parent.children, ["entry"])| != 1 {
      return Success(""), ok, span, w;
    }
    r, ok, span, w := TableSpan(c, sh);
  }

  /** The span prefix of a lone entry, from the table group above it. */
  method TableSpan(c: Chunk, ghost sh: Shape) returns (r: Result<string>, ghost ok: bool, ghost span: string, ghost w: nat)
    requires sh.Ok() && Mirrors(sh) && ParentsRanked(sh) && c in sh.kids
    ensures old(GroupSpanned(c, ok, span, w, sh))
    ensures (ok <==> r.Success?) && (ok ==> r.value == span)
  {
    ok, span, w := false, "", 0;
    var group := GroupAbove(c, sh);
    if group == null {
      return Failure("entry outside tgroup"), ok, span, w;
    }
    var lead;
    lead, w := GroupSpan(group, sh);
    ok, span := true, lead;
    r := Success(lead);
  }

  /** `c.Ancestors().Last("tgroup")`: the outermost table group above `c`. */
  method GroupAbove(c: Chunk, ghost sh: Shape) returns (group: Chunk?)
    requires sh.Ok() && ParentsRanked(sh) && c in sh.kids
    ensures group == old(Group(c, sh)) && (group != null ==> group in sh.kids)
  {
    var ancestors := c.Ancestors(sh);
    AncestorChainShape(c, sh);
    group := XmlChunks.Last(ancestors, ["tgroup"]);
  }

  /** The widest row's entry count below a table group, and '+'. */
  method GroupSpan(t: Chunk, ghost sh: Shape) returns (span: string, ghost w: nat)
    requires sh.Ok() && Mirrors(sh) && t in sh.kids
    ensures old(IsWidest(DescendantsOf(t, ["row"], sh), w, sh)) && span == Itoa(w) + "+"
  {
    var rows := RowsBelow(t, sh);
    var maxLen := Widest(rows, sh);
    w := maxLen;
    span := Itoa(maxLen) + "+";
  }

  /** `tgroup.Children.Flatten().Filter("row")`. */
  method RowsBelow(t: Chunk, ghost sh: Shape) returns (rows: seq<Chunk>)
    requires sh.Ok() && Mirrors(sh) && t in sh.kids
    ensures rows == DescendantsOf(t, ["row"], sh)
  {
    assert t.children == sh.kids[t];
    var flat := XmlChunks.FlattenOf(t.children, sh, sh.rank[t] + 1);
    assert flat == Descendants(t, sh);
    rows := XmlChunks.Filter(flat, ["row"]);
  }

  /** The body of `quoteSafe`'s loop for one node. The XML of the text
      below is the same for every mark, so it is built once here. */
  method SafeBelow(c: Chunk, ghost sh: Shape) returns (b: bool)
    requires sh.Ok() && Mirrors(sh) && c in sh.kids
    ensures b <==> old(SafeNode(c, sh))
  {
    ghost var safe := SafeNode(c, sh);
    var flat := DescendantsBelow(c, sh);
    assert SafeNode(c, sh) == safe;
    if XmlChunks.Contains(flat, ["include"]) {
      return false;
    }
    var texts := XmlChunks.Filter(flat, ["TEXT"]);
    assert texts == DescendantsOf(c, ["TEXT"], sh);
    assert safe <==> forall m :: 0 <= m < |Marks| ==> Marks[m] !in Texts(texts);
    b := TextsUnmarked(texts, sh);
  }

  /** `c.Children.Flatten()`: every node below `c`. */
  method DescendantsBelow(c: Chunk, ghost sh: Shape) returns (flat: seq<Chunk>)
    requires sh.Ok() && Mirrors(sh) && c in sh.kids
    ensures flat == Descendants(c, sh)
  {
    assert c.children == sh.kids[c];
    flat := XmlChunks.FlattenOf(c.children, sh, sh.rank[c] + 1);
  }

  /** The XML of the TEXT nodes `texts`, which is their text, holds none of
      the quote marks. */
  method TextsUnmarked(texts: seq<Chunk>, ghost sh: Shape) returns (b: bool)
    requires sh.Ok() && Mirrors(sh) && forall t :: t in texts ==> t in sh.kids && t.kind == "TEXT"
    ensures b <==> old(forall m :: 0 <= m < |Marks| ==> Marks[m] !in Texts(texts))
  {
    var xml, choices := XmlChunks.XML(texts, sh);
    TextsXml(texts, choices, sh);
    b := Unmarked(xml);
  }

  /** What a listing block learns from the nodes below it before its
      text is translated: whether a link lies below it, and whether it is
      quote-safe. */
  method ListingFlags(c: Chunk, ghost sh: Shape) returns (link: bool, safe: bool)
    requires sh.Ok() && Mirrors(sh) && c in sh.kids
    ensures link == XmlChunks.Contains(Descendants(c, sh), ["ulink"])
    ensures safe <==> old(SafeNode(c, sh))
  {
    ghost var linked := XmlChunks.Contains(Descendants(c, sh), ["ulink"]);
    assert c in [c];
    safe := QuoteSafe([c], sh);
    assert XmlChunks.Contains(Descendants(c, sh), ["ulink"]) == linked;
    var flat := DescendantsBelow(c, sh);
    assert XmlChunks.Contains(Descendants(c, sh), ["ulink"]) == linked;
    link := XmlChunks.Contains(flat, ["ulink"]);
  }

  /** The inner loop of `quoteSafe`: none of the quote marks occurs in
      `xml`. */
  method Unmarked(xml: string) returns (b: bool)
    ensures b <==> forall m :: 0 <= m < |Marks| ==> Marks[m] !in xml
  {
    for k := 0 to |Marks|
      invariant forall m :: 0 <= m < k ==> Marks[m] !in xml
    {
      ContainsChar(xml, Marks[k]);
      if Contains(xml, [Marks[k]]) {
        return false;
      }
    }
    return true;
  }

  /** The form `quote` picks: passed through with its tag outside a literal
      element or inside safe blocks, else escaped when that is allowed, else
      bare. */
  function Decide(literal: bool, safe: bool, escapable: bool, mentioned: bool, tag: string): (how: Quoting)
    ensures how.Passed? <==> !literal || safe
    ensures how.Escaped? <==> literal && !safe && escapable
    ensures how.Passed? ==> how.tag == tag
    ensures how.Escaped? ==> (how.pass == "quotes,attributes" <==> mentioned) && how.pass in ["quotes", "quotes,attributes"]
  {
    if !literal || safe then Passed(tag)
    else if escapable then Escaped(if mentioned then "quotes,attributes" else "quotes")
    else Plain
  }

  class Translator {
    /** The TEXT nodes not yet emitted. */
    var register: set<Chunk>
    /** The document being written. */
    const ad: Doc
    /** The style: category name to element kinds. */
    const cfg: map<string, seq<string>>
    /** The style's list item kinds. */
    const listitems: seq<string>
    /** The style's literal kinds. */
    const literals: seq<string>
    /** The style's paragraph kinds. */
    const paragraphs: seq<string>
    /** The style's custom kinds. */
    const customs: seq<string>
    /** The kinds of the five quoting categories. */
    const quoting: seq<string>
    /** The document's `condition` setting. */
    const conditions: string
    /** The source document's resources by path. */
    const sources: map<string, string>
    /** `filepath.Clean` and `file.StripExt`, taken as given. */
    const clean: string -> string
    const stripExt: string -> string
    /** The tree the walk visits. */
    ghost const sh: Shape

    /** The walk's starting state: an empty document and the given register
        of TEXT nodes, over a well-formed tree whose style does not count
        `term` as a list item. */
    constructor (register: set<Chunk>, cfg: map<string, seq<string>>, conditions: string,
                 sources: map<string, string>, clean: string -> string, stripExt: string -> string,
                 ghost sh: Shape)
      requires sh.Ok() && Mirrors(sh) && DownLinked(sh) && ParentsRanked(sh)
      requires "term" !in Entries(cfg, "listitems")
      ensures Valid()
      ensures this.register == register
      ensures this.cfg == cfg && listitems == Entries(cfg, "listitems") && literals == Entries(cfg, "literal")
      ensures paragraphs == Entries(cfg, "paragraphs")
      ensures customs == Entries(cfg, "custom") && quoting == QuotesOf(cfg)
      ensures this.conditions == conditions && this.sources == sources
      ensures this.clean == clean && this.stripExt == stripExt && this.sh == sh
      ensures fresh(ad) && ad.entities == map["nbsp" := "", "blank" := ""]
      ensures ad.keywords == {} && ad.data == map[] && ad.resources == map[] && ad.metadata == []
    {
      this.register := register;
      this.cfg := cfg;
      listitems := Entries(cfg, "listitems");
      literals := Entries(cfg, "literal");
      paragraphs := Entries(cfg, "paragraphs");
      customs := Entries(cfg, "custom");
      quoting := QuotesOf(cfg);
      this.conditions := conditions;
      this.sources := sources;
      this.clean := clean;
      this.stripExt := stripExt;
      this.sh := sh;
      ad := new Doc();
    }

    // -------------------------------------------------------------------------
    // The state the walk keeps

    /** The tree is well formed and linked both ways. */
    ghost predicate Tree()
      reads sh.kids.Keys, sh.rank.Keys
    {
      sh.Ok() && Mirrors(sh) && DownLinked(sh) && ParentsRanked(sh)
    }

    /** Every resource copied into the document is the source's resource
        under the same path. */
    ghost predicate Copied()
      reads ad
    {
      forall k :: k in ad.resources ==> ad.resources[k] == Get(sources, k)
    }

    ghost predicate Valid()
      reads ad, sh.kids.Keys, sh.rank.Keys
    {
      Tree() && "term" !in listitems && Copied()
    }

    /** What the walk only adds to: the register only loses nodes, and the
        document only gains files, keywords, resources, entity names and
        metadata. */
    twostate predicate Grows()
      reads this, ad
    {
      && register <= old(register)
      && old(ad.data.Keys) <= ad.data.Keys
      && old(ad.keywords) <= ad.keywords
      && old(ad.resources.Keys) <= ad.resources.Keys
      && old(ad.entities.Keys) <= ad.entities.Keys
      && old(ad.metadata) <= ad.metadata
    }

    /** `c` may be visited by a call at `floor` in `phase`. */
    ghost predicate Ready(c: Chunk, floor: nat, phase: nat)
      reads c
    {
      && c in sh.kids && c in sh.rank && floor <= sh.rank[c]
      && (c.parent != null ==> c.parent in sh.rank && floor <= sh.rank[c.parent] + 1)
      && (phase == 0 ==> c.kind == "term")
    }

    ghost predicate Placed(cs: seq<Chunk>, floor: nat, phase: nat)
      reads cs
    {
      floor <= sh.bound && forall c :: c in cs ==> Ready(c, floor, phase)
    }

    /** The node's condition admits it. */
    predicate Included(c: Chunk)
      reads c
    {
      DocBook.Matches(conditions, Get(c.attributes, "condition"))
    }

    /** What a visit to `c` leaves behind in register `reg`: an admitted TEXT
        node is gone, and an excluded node is gone with all its
        descendants. */
    ghost predicate Handled(c: Chunk, reg: set<Chunk>)
      requires sh.Ok() && c in sh.kids
      reads c
    {
      && (Included(c) && c.kind == "TEXT" ==> c !in reg)
      && (!Included(c) ==> c !in reg && forall y :: y in Descendants(c, sh) ==> y !in reg)
    }

    /** The first `n` nodes of `cs` are handled. */
    ghost predicate HandledUpTo(cs: seq<Chunk>, n: nat, reg: set<Chunk>)
      requires sh.Ok() && n <= |cs|
      reads set c | c in cs
    {
      forall j :: 0 <= j < n ==> cs[j] in sh.kids && Handled(cs[j], reg)
    }

    /** A shrinking register keeps the nodes handled so far handled. */
    lemma HandledUpToStep(cs: seq<Chunk>, i: nat, reg: set<Chunk>, reg2: set<Chunk>)
      requires sh.Ok() && i < |cs| && HandledUpTo(cs, i, reg) && reg2 <= reg
      requires cs[i] in sh.kids && Handled(cs[i], reg2)
      ensures HandledUpTo(cs, i + 1, reg2)
    {
    }

    /** Every node of `cs` is character data. */
    predicate AllText(cs: seq<Chunk>)
    {
      forall c :: c in cs ==> c.kind == "TEXT"
    }

    /** What a TEXT node translates to: its text when admitted, nothing
        otherwise. */
    function TextOf(c: Chunk): string
      reads c
    {
      if Included(c) then Get(c.attributes, "TEXT") else ""
    }

    /** The text of each node of `cs`, in order. */
    ghost function TextsOf(cs: seq<Chunk>): (r: seq<string>)
      reads set c | c in cs
      ensures |r| == |cs| && forall i :: 0 <= i < |cs| ==> r[i] == TextOf(cs[i])
    {
      if cs == [] then [] else [TextOf(cs[0])] + TextsOf(cs[1..])
    }

    /** The texts of the admitted nodes of `cs`: what translating a list of
        TEXT nodes gives. */
    function IncludedTexts(cs: seq<Chunk>): string
      reads cs
    {
      if cs == [] then "" else IncludedTexts(cs[..|cs| - 1]) + TextOf(cs[|cs| - 1])
    }

    /** The number of titled ancestors of `c`: its heading level below the
        document title. */
    ghost function Level(c: Chunk): nat
      requires Tree() && c in sh.kids
      reads sh.kids.Keys, sh.rank.Keys
    {
      AncestorChainShape(c, sh);
      assert forall a :: a in AncestorChain(c, sh) ==> a in sh.kids;
      TitledCount(AncestorChain(c, sh), sh)
    }

    // -------------------------------------------------------------------------
    // Facts about the state

    /** The children of `c` chosen by kind may be visited one level down. */
    lemma Below(c: Chunk, kinds: seq<string>, wanted: bool)
      requires Tree() && c in sh.kids
      ensures Placed(XmlChunks.Select(c.children, kinds, wanted), sh.rank[c] + 1, 1)
    {
      XmlChunks.SelectMembers(c.children, kinds, wanted);
    }

    /** The descendants of `c` chosen by kind may be visited one level down:
        each has a parent at or below `c`. */
    lemma DeepPlaced(c: Chunk, kinds: seq<string>, wanted: bool, deep: seq<string>)
      requires Tree() && c in sh.kids
      ensures var sel := XmlChunks.Select(sh.kids[c], kinds, wanted);
        && (forall x :: x in sel ==> x in sh.kids && sh.rank[c] + 1 <= sh.rank[x])
        && Placed(XmlChunks.Filter(XmlChunks.FlattenFrom(sel, sh, sh.rank[c] + 1), deep), sh.rank[c] + 1, 1)
    {
      var sel := XmlChunks.Select(sh.kids[c], kinds, wanted);
      XmlChunks.SelectMembers(sh.kids[c], kinds, wanted);
      forall x | x in sel
        ensures x in sh.kids && sh.rank[c] + 1 <= sh.rank[x] && c in AncestorChain(x, sh)
      {
        assert x.parent == c;
      }
      XmlChunks.FlattenFromMembers(sel, sh, sh.rank[c] + 1);
      XmlChunks.FlattenFromAncestry(sel, sh, sh.rank[c] + 1, c);
      var flat := XmlChunks.FlattenFrom(sel, sh, sh.rank[c] + 1);
      XmlChunks.SelectMembers(flat, deep, true);
      forall y | y in XmlChunks.Filter(flat, deep)
        ensures Ready(y, sh.rank[c] + 1, 1)
      {
        ParentAbove(y, c, sh);
      }
    }

    /** The sibling terms of a list item may be visited in phase 0 just
        below its parent. */
    lemma TermsPlaced(c: Chunk, floor: nat)
      requires Tree() && Ready(c, floor, 1) && c.parent != null
      ensures c.parent in sh.kids && floor <= sh.rank[c.parent] + 1
      ensures Placed(XmlChunks.Filter(c.parent.children, ["term"]), sh.rank[c.parent] + 1, 0)
    {
      var p := c.parent;
      XmlChunks.SelectMembers(p.children, ["term"], true);
      forall t | t in XmlChunks.Filter(p.children, ["term"])
        ensures Ready(t, sh.rank[p] + 1, 0)
      {
        assert t in sh.kids[p];
        assert t.parent == p;
      }
    }

    // -------------------------------------------------------------------------
    // The walk

    /** A subset of a subset of `c` is a subset of `c`. */
    lemma SubsetChain<T>(a: set<T>, b: set<T>, c: set<T>)
      requires a <= b && b <= c
      ensures a <= c
    {
    }

    /** A prefix of a prefix of `c` is a prefix of `c`. */
    lemma PrefixChain(a: seq<Chunk>, b: seq<Chunk>, c: seq<Chunk>)
      requires a <= b && b <= c
      ensures a <= c
    {
    }

    /** `translate`: each node in turn; the output is their outputs one after
        another, and a panic ends the walk. Every node visited is left
        handled, and a list of TEXT nodes translates to the texts of those
        its conditions admit. */
    method Translate(cs: seq<Chunk>, ghost floor: nat, ghost phase: nat) returns (r: Result<string>)
      requires Valid() && Placed(cs, floor, phase)
      modifies this`register, ad
      ensures Grows()
      ensures Valid()
      ensures r.Success? ==> forall c :: c in cs ==> Handled(c, register)
      ensures AllText(cs) ==> r == Success(old(IncludedTexts(cs))) && unchanged(ad)
      decreases sh.bound - floor, phase, 8
    {
      var output := "";
      for i := 0 to |cs|
        invariant Valid()
        invariant Grows()
        invariant HandledUpTo(cs, i, register)
        invariant AllText(cs) ==> output == old(IncludedTexts(cs[..i])) && unchanged(ad)
      {
        ghost var reg, files, words, kept, names, meta := register, ad.data.Keys, ad.keywords, ad.resources.Keys, ad.entities.Keys, ad.metadata;
        var s := Node(cs[i], floor, phase);
        SubsetChain(register, reg, old(register));
        SubsetChain(old(ad.data.Keys), files, ad.data.Keys);
        SubsetChain(old(ad.keywords), words, ad.keywords);
        SubsetChain(old(ad.resources.Keys), kept, ad.resources.Keys);
        SubsetChain(old(ad.entities.Keys), names, ad.entities.Keys);
        PrefixChain(old(ad.metadata), meta, ad.metadata);
        if s.Failure? {
          return Failure(s.error);
        }
        HandledUpToStep(cs, i, reg, register);
        assert cs[..i + 1][..i] == cs[..i];
        output := output + s.value;
      }
      assert cs[..|cs|] == cs;
      return Success(output);
    }

    /** One node: excluded by its condition, it is dropped with its subtree;
        otherwise the first arm of the switch that claims its kind runs. */
    method Node(c: Chunk, ghost floor: nat, ghost phase: nat) returns (r: Result<string>)
      requires Valid() && floor <= sh.bound && Ready(c, floor, phase)
      modifies this`register, ad
      ensures Grows()
      ensures Valid()
      ensures r.Success? ==> Handled(c, register)
      ensures !Included(c) ==> r == Success("")
      ensures c.kind == "TEXT" ==> r == Success(old(TextOf(c))) && unchanged(ad)
      decreases sh.bound - floor, phase, 7
    {
      var admitted := DocBook.ConditionsMatch(conditions, Get(c.attributes, "condition"));
      if admitted {
        r := DispatchA(c, floor, phase);
      } else {
        Exclude(c);
        r := Success("");
      }
    }

    /** An excluded node and all its descendants leave the register. */
    method Exclude(c: Chunk)
      requires Valid() && c in sh.kids
      modifies this`register
      ensures Grows()
      ensures forall y :: y in register <==> y in old(register) && y != c && y !in Descendants(c, sh)
    {
      register := register - {c};
      Forget(c.children, sh.rank[c] + 1);
    }

    /** `for _, ch := range cs.Flatten() { delete(register, ch) }`: the
        subtrees of `cs` leave the register. */
    method Forget(cs: seq<Chunk>, ghost floor: nat)
      requires Tree() && floor <= sh.bound && forall c :: c in cs ==> c in sh.kids && floor <= sh.rank[c]
      modifies this`register
      ensures Grows()
      ensures forall y :: y in register <==> y in old(register) && y !in XmlChunks.FlattenFrom(cs, sh, floor)
    {
      var flat := XmlChunks.FlattenOf(cs, sh, floor);
      for i := 0 to |flat|
        invariant forall y :: y in register <==> y in old(register) && y !in flat[..i]
      {
        assert flat[..i + 1] == flat[..i] + [flat[i]];
        register := register - {flat[i]};
      }
      assert flat[..|flat|] == flat;
    }

    /** The switch, first part: entities, text, lists, links, literal
        blocks, paragraphs, abstracts and media. */
    method DispatchA(c: Chunk, ghost floor: nat, ghost phase: nat) returns (r: Result<string>)
      requires Valid() && floor <= sh.bound && Ready(c, floor, phase)
      modifies this`register, ad
      ensures Grows()
      ensures Valid()
      ensures c.kind == "TEXT" ==> r == Success(Get(c.attributes, "TEXT")) && register == old(register) - {c}
      ensures c.kind == "TEXT" ==> unchanged(ad)
      decreases sh.bound - floor, phase, 6
    {
      if c.kind == "ENTITY" {
        var e, inner, contents, before, order := EntityArm(c);
        r := e;
      } else if c.kind == "TEXT" {
        register := register - {c};
        r := Success(Get(c.attributes, "TEXT"));
      } else if c.kind in ["variablelist", "itemizedlist", "bibliolist", "figure", "table"] {
        var l, title := ListArm(c);
        r := l;
      } else if c.kind == "ulink" {
        r := LinkArm(c);
      } else if c.kind in ["xref", "link"] {
        var inner :- Kids(c, [], false);
        r := Success("<<" + Get(c.attributes, "linkend") + DecorateIfNotBlank(inner, ",", "") + ">>");
      } else if c.kind in ["screen", "synopsis", "programlisting"] {
        var s, raw, body, quotes, macros, attributes := ScreenArm(c);
        r := s;
      } else if c.kind in paragraphs {
        var p, raws, pieces := ParagraphArm(c);
        r := p;
      } else if c.kind == "abstract" {
        var t, title := DecorateTitle(c, ".");
        var title' :- t;
        var body :- Kids(c, ["TEXT", "title"], false);
        r := Success(title' + "\n[abstract]\n--\n" + body + "\n--\n");
      } else if c.kind == "imagedata" {
        r := ImageDataArm(c);
      } else if c.kind == "mediaobject" {
        var m, image, text := MediaArm(c, "\nimage::", "\n");
        r := m;
      } else if c.kind == "inlinemediaobject" {
        var m, image, text := MediaArm(c, "\nimage:", "");
        r := m;
      } else {
        r := DispatchB(c, floor, phase);
      }
    }

    /** The switch, second part: tables, footnotes, front matter, headings,
        sections, inclusions, procedures and admonitions. */
    method DispatchB(c: Chunk, ghost floor: nat, ghost phase: nat) returns (r: Result<string>)
      requires Valid() && floor <= sh.bound && Ready(c, floor, phase)
      modifies this`register, ad
      ensures Grows()
      ensures Valid()
      decreases sh.bound - floor, phase, 5
    {
      if c.kind == "tgroup" {
        var t, parts := TableArm(c);
        r := t;
      } else if c.kind == "row" {
        var inner :- Kids(c, ["TEXT"], false);
        r := Success("\n" + inner);
      } else if c.kind == "entry" {
        var e, ok, span, inner, w := EntryArm(c);
        r := e;
      } else if c.kind == "footnote" {
        var inner :- Kids(c, [], false);
        r := Success("footnote:[" + TrimSpace(inner) + "]");
      } else if c.kind in ["bookinfo", "articleinfo"] {
        var b, title, rest, before := BookInfoArm(c);
        r := b;
      } else if c.kind == "bridgehead" {
        var inner :- Kids(c, [], false);
        r := Success("\n." + TrimSpace(inner));
      } else if c.kind in ["chapter", "section", "part", "appendix", "preface"] {
        var s, title := SectionArm(c);
        r := s;
      } else if c.kind == "include" {
        var i, name, stored, decor, media := IncludeArm(c);
        r := i;
      } else if c.kind in ["procedure", "formalpara"] {
        var t, title := DecorateTitle(c, ".");
        var title' :- t;
        var rest :- Kids(c, ["TEXT", "title"], false);
        r := Success(title' + rest);
      } else if c.kind == "varlistentry" {
        r := Kids(c, ["TEXT", "term"], false);
      } else if c.kind in Entries(cfg, "admonitions") || c.kind == "example" {
        var a, title, depth, body := AdmonitionArm(c);
        r := a;
      } else {
        r := DispatchC(c, floor, phase);
      }
    }

    /** The switch, third part: bibliography and author details, list items,
        revisions, terms, titles and the five quoting categories. */
    method DispatchC(c: Chunk, ghost floor: nat, ghost phase: nat) returns (r: Result<string>)
      requires Valid() && floor <= sh.bound && Ready(c, floor, phase)
      modifies this`register, ad
      ensures Grows()
      ensures Valid()
      decreases sh.bound - floor, phase, 4
    {
      if c.kind in ["corpauthor", "pubdate", "biblioid"] {
        var a, inner := CorpAuthorArm(c);
        r := a;
      } else if c.kind in listitems {
        var l, text, term, plain := ListItemArm(c, floor);
        r := l;
      } else if c.kind == "revision" {
        var v, parts := RevisionArm(c);
        r := v;
      } else if c.kind == "affiliation" {
        var f, orgname, orgdiv := AffiliationArm(c);
        r := f;
      } else if c.kind in ["author", "editor"] {
        var u, first, surname, parts := AuthorArm(c);
        r := u;
      } else if c.kind == "term" {
        var t, plain, term := TermArm(c);
        r := t;
      } else if c.kind in ["title", "phrase", "date", "firstname", "surname", "orgdiv", "email",
                           "textobject", "primary", "secondary", "tertiary", "seealso", "see"] {
        var inner :- Kids(c, [], false);
        r := Success(TrimSpace(inner));
      } else if c.kind in Entries(cfg, "monospace") {
        var a, nested, contents, ls, rs := QuoteArm(c, "monospace", "`");
        r := a;
      } else if c.kind in Entries(cfg, "superscript") {
        var a, nested, contents, ls, rs := QuoteArm(c, "superscript", "^");
        r := a;
      } else if c.kind in Entries(cfg, "italics") {
        var a, nested, contents, ls, rs := QuoteArm(c, "italics", "_");
        r := a;
      } else if c.kind in Entries(cfg, "bold") {
        var a, nested, contents, ls, rs := QuoteArm(c, "bold", "*");
        r := a;
      } else if c.kind in Entries(cfg, "highlight") || c.kind in Unquoted(customs, quoting) {
        var a, nested, contents, ls, rs := QuoteArm(c, "highlight", "#");
        r := a;
      } else {
        r := DispatchD(c, floor, phase);
      }
    }

    /** The switch, last part: index terms, inline markup, menus, keys,
        remarks, keywords, and the default for unknown kinds. */
    method DispatchD(c: Chunk, ghost floor: nat, ghost phase: nat) returns (r: Result<string>)
      requires Valid() && floor <= sh.bound && Ready(c, floor, phase)
      modifies this`register, ad
      ensures Grows()
      ensures Valid()
      decreases sh.bound - floor, phase, 3
    {
      if c.kind == "indexterm" {
        ghost var terms;
        r, terms := IndexTermArm(c);
      } else if c.kind == "quote" {
        var inner :- Kids(c, [], false);
        r := Success("\"" + inner + "\"");
      } else if c.kind == "manvolnum" {
        var inner :- Kids(c, [], false);
        r := Success("(" + inner + ")");
      } else if c.kind == "guibutton" {
        var literal := c.IsWithin(literals, sh);
        var inner :- Kids(c, [], false);
        r := Success(if literal then inner else "btn:[" + inner + "]");
      } else if c.kind == "menuchoice" {
        var u, menu, items := MenuArm(c);
        r := u;
      } else if c.kind == "keycap" {
        var combo := c.IsWithin(["keycombo"], sh);
        var inner :- Kids(c, [], false);
        r := Success(if combo then inner else "kbd:[" + inner + "]");
      } else if c.kind == "keycombo" {
        var keys :- Each(c, [], false);
        r := Success("kbd:[" + Join(keys, " + ") + "]");
      } else if c.kind in ["guimenu", "guisubmenu", "optional", "productnumber", "edition", "pubsnumber"] {
        r := Kids(c, [], false);
      } else if c.kind == "remark" {
        var inner :- Kids(c, [], false);
        r := Success("\n//" + inner + "\n");
      } else if c.kind in ["keyword", "subjectterm"] {
        var k, inner := KeywordArm(c);
        r := k;
      } else {
        var u, pieces := DefaultArm(c);
        r := u;
      }
    }

    // -------------------------------------------------------------------------
    // Calls one level down

    /** `translate(c.Children.Filter(kinds...))` (when `wanted`) or
        `translate(c.Children.FilterOut(kinds...))`. */
    method Kids(c: Chunk, kinds: seq<string>, wanted: bool) returns (r: Result<string>)
      requires Valid() && c in sh.kids
      modifies this`register, ad
      ensures Grows()
      ensures Valid() && unchanged(sh.kids.Keys, sh.rank.Keys)
      ensures kinds == [] && !wanted && old(AllText(c.children)) ==>
        r == Success(old(IncludedTexts(c.children))) && unchanged(ad)
      decreases sh.bound - sh.rank[c], 0, 0
    {
      Below(c, kinds, wanted);
      if kinds == [] && !wanted {
        SelectNone(c.children);
      }
      r := Translate(XmlChunks.Select(c.children, kinds, wanted), sh.rank[c] + 1, 1);
    }

    /** `translate(xmlTree.Chunks{ch})` for one child `ch` of `c`. */
    method One(c: Chunk, ch: Chunk) returns (r: Result<string>)
      requires Valid() && c in sh.kids && ch in c.children
      modifies this`register, ad
      ensures Grows()
      ensures Valid() && unchanged(sh.kids.Keys, sh.rank.Keys)
      ensures ch.kind == "TEXT" ==> r == Success(old(TextOf(ch)))
      decreases sh.bound - sh.rank[c], 0, 0
    {
      assert ch in sh.kids[c] && ch.parent == c;
      assert IncludedTexts([ch]) == IncludedTexts([]) + TextOf(ch);
      assert IncludedTexts([ch]) == TextOf(ch);
      r := Translate([ch], sh.rank[c] + 1, 1);
    }

    /** The nodes `translate` is given by the deep calls below. */
    ghost function DeepList(c: Chunk, kinds: seq<string>, wanted: bool, deep: seq<string>): (r: seq<Chunk>)
      requires Tree() && c in sh.kids
      reads sh.kids.Keys, sh.rank.Keys
      ensures Placed(r, sh.rank[c] + 1, 1)
      ensures forall y :: y in r ==> y in sh.kids && y.kind in deep
    {
      DeepPlaced(c, kinds, wanted, deep);
      var sel := XmlChunks.Select(sh.kids[c], kinds, wanted);
      XmlChunks.FlattenFromMembers(sel, sh, sh.rank[c] + 1);
      var flat := XmlChunks.FlattenFrom(sel, sh, sh.rank[c] + 1);
      XmlChunks.SelectMembers(flat, deep, true);
      XmlChunks.Filter(flat, deep)
    }

    /** `translate(c.Children.Select(...).Flatten().Filter(deep...))`: the
        chosen children's subtrees, flattened, filtered by kind. For TEXT
        nodes this is the text of the admitted ones. */
    method Deep(c: Chunk, kinds: seq<string>, wanted: bool, deep: seq<string>) returns (r: Result<string>)
      requires Valid() && c in sh.kids
      modifies this`register, ad
      ensures Grows()
      ensures Valid() && unchanged(sh.kids.Keys, sh.rank.Keys)
      ensures deep == ["TEXT"] ==> r == Success(old(IncludedTexts(DeepList(c, kinds, wanted, deep))))
      decreases sh.bound - sh.rank[c], 0, 0
    {
      ghost var list := DeepList(c, kinds, wanted, deep);
      ghost var texts := IncludedTexts(list);
      var picked := Pick(c, kinds, wanted, deep);
      assert picked == list;
      assert IncludedTexts(picked) == texts;
      assert deep == ["TEXT"] ==> AllText(picked);
      r := Translate(picked, sh.rank[c] + 1, 1);
    }

    /** `c.Children.Select(...).Flatten().Filter(deep...)`. */
    method Pick(c: Chunk, kinds: seq<string>, wanted: bool, deep: seq<string>) returns (picked: seq<Chunk>)
      requires Tree() && c in sh.kids
      ensures picked == DeepList(c, kinds, wanted, deep)
    {
      DeepPlaced(c, kinds, wanted, deep);
      var flat := XmlChunks.FlattenOf(XmlChunks.Select(c.children, kinds, wanted), sh, sh.rank[c] + 1);
      picked := XmlChunks.Filter(flat, deep);
    }

    /** Each chosen child translated on its own, the outputs kept apart. */
    method Each(c: Chunk, kinds: seq<string>, wanted: bool) returns (r: Result<seq<string>>)
      requires Valid() && c in sh.kids
      modifies this`register, ad
      ensures Grows()
      ensures Valid() && unchanged(sh.kids.Keys, sh.rank.Keys)
      ensures r.Success? ==> |r.value| == |XmlChunks.Select(c.children, kinds, wanted)|
      decreases sh.bound - sh.rank[c], 0, 1
    {
      var chosen := XmlChunks.Select(c.children, kinds, wanted);
      XmlChunks.SelectMembers(c.children, kinds, wanted);
      var outs: seq<string> := [];
      for i := 0 to |chosen|
        invariant Valid() && Grows() && |outs| == i
      {
        var s :- One(c, chosen[i]);
        outs := outs + [s];
      }
      return Success(outs);
    }

    // -------------------------------------------------------------------------
    // Shared pieces of the arms

    /** `decorateTitle`: a blank line, the node's anchor, and its translated
        title behind `prefix`. */
    method DecorateTitle(c: Chunk, prefix: string) returns (r: Result<string>, ghost title: string)
      requires Valid() && c in sh.kids
      modifies this`register, ad
      ensures Grows()
      ensures Valid() && unchanged(sh.kids.Keys, sh.rank.Keys)
      ensures r.Success? ==> r.value == TitleBlock(c.attributes, prefix, title)
      decreases sh.bound - sh.rank[c], 0, 1
    {
      title := "";
      var output := "\n\n";
      if "id" in c.attributes {
        output := output + ("[[" + c.attributes["id"] + "]]\n");
      }
      var t :- Kids(c, ["title"], true);
      title := t;
      output := output + DecorateIfNotBlank(t, prefix, "");
      r := Success(output);
    }

    /** `quote`: the translated children with the quote marks around the
        trimmed text and the space runs outside; nothing when the text is
        blank. */
    method Quote(c: Chunk, quoter: string)
      returns (r: Result<string>, ghost contents: string, ghost ls: string, ghost rs: string)
      requires Valid() && c in sh.kids
      modifies this`register, ad
      ensures Grows()
      ensures Valid()
      ensures r.Success? && TrimSpace(contents) == "" ==> r.value == ""
      ensures r.Success? && TrimSpace(contents) != "" ==>
        && r.value == QuotedText(ls, TrimSpace(contents), rs, quoter, Mode(c, TrimSpace(contents)))
        && AllOf(ls, ' ') && HasPrefix(contents, ls) && AllOf(rs, ' ') && HasSuffix(contents, rs)
      decreases sh.bound - sh.rank[c], 0, 1
    {
      contents, ls, rs := "", "", "";
      var t :- Kids(c, [], false);
      contents := t;
      var l, rr := SpaceTrimmings(t);
      ls, rs := l, rr;
      var con := TrimSpace(t);
      if con == "" {
        return Success(""), contents, ls, rs;
      }
      ghost var want := Mode(c, con);
      var mode := QuoteMode(c, con);
      assert Mode(c, con) == want;
      r := Success(QuotedText(l, con, rr, quoter, mode));
    }

    /** How `quote` treats the trimmed text `con` of `c`: inside a literal
        element the text is quoted only where every enclosing literal block
        is safe; otherwise it is escaped with a passthrough when nothing
        forbids it, or left bare. The passthrough also asks for attributes
        when the text mentions a known entity. */
    ghost function Mode(c: Chunk, con: string): Quoting
      requires Tree() && c in sh.kids
      reads sh.kids.Keys, sh.rank.Keys, ad
    {
      Decide(Within(c, literals, sh), QuoteSafeBlock(c), Escapable(c, con),
        exists e :: e in ad.entities && Contains(con, e),
        if c.kind in customs then "[" + c.kind + "]" else "")
    }

    /** The decisions `quote` takes for a non-blank text. */
    method QuoteMode(c: Chunk, con: string) returns (mode: Quoting)
      requires Tree() && c in sh.kids
      ensures mode == old(Mode(c, con))
    {
      ghost var want := (Within(c, quoting, sh), Within(c, Unquoted(customs, quoting), sh), ad.entities);
      var literal, block, safe := InLiteral(c);
      assert (Within(c, quoting, sh), Within(c, Unquoted(customs, quoting), sh), ad.entities) == want;
      var quoted, custom := InQuoting(c);
      assert ad.entities == want.2;
      var isCustom := c.kind in customs;
      var esc := block && !isCustom && !quoted && !custom && !Contains(con, "]");
      if !literal || safe {
        mode := Passed(if isCustom then "[" + c.kind + "]" else "");
      } else if esc {
        var mention := MentionsKey(con, ad.entities, "", "");
        assert forall e :: "" + e + "" == e;
        mode := Escaped(if mention then "quotes,attributes" else "quotes");
      } else {
        mode := Plain;
      }
    }

    /** Whether `c` is inside a literal element, inside a literal block, and
        whether every enclosing block is safe. */
    method InLiteral(c: Chunk) returns (literal: bool, block: bool, safe: bool)
      requires Tree() && c in sh.kids
      ensures literal == old(Within(c, literals, sh))
      ensures block == old(Within(c, ["screen", "synopsis", "programlisting"], sh))
      ensures safe == old(QuoteSafeBlock(c))
    {
      literal := c.IsWithin(literals, sh);
      block := c.IsWithin(["screen", "synopsis", "programlisting"], sh);
      safe := false;
      if block {
        safe := BlocksSafe(c);
      }
    }

    /** Whether `c` is inside a quoting element, and inside a custom element
        that is not a quoting one. */
    method InQuoting(c: Chunk) returns (quoted: bool, custom: bool)
      requires Tree() && c in sh.kids
      ensures quoted == old(Within(c, quoting, sh))
      ensures custom == old(Within(c, Unquoted(customs, quoting), sh))
    {
      quoted := c.IsWithin(quoting, sh);
      custom := c.IsWithin(Unquoted(customs, quoting), sh);
    }

    /** `quoteSafe(c.Ancestors().Filter("screen", "synopsis", "programlisting"))`
        for a node inside a literal block. */
    method BlocksSafe(c: Chunk) returns (safe: bool)
      requires Tree() && c in sh.kids && Within(c, ["screen", "synopsis", "programlisting"], sh)
      ensures safe == old(QuoteSafeBlock(c))
    {
      ghost var want := QuoteSafeBlock(c);
      var ancestors := c.Ancestors(sh);
      assert QuoteSafeBlock(c) == want;
      AncestorChainShape(c, sh);
      XmlChunks.SelectMembers(ancestors, ["screen", "synopsis", "programlisting"], true);
      safe := QuoteSafe(XmlChunks.Filter(ancestors, ["screen", "synopsis", "programlisting"]), sh);
    }

    /** The quoted text is inside a literal block and every enclosing block
        is safe. */
    ghost predicate QuoteSafeBlock(c: Chunk)
      requires Tree() && c in sh.rank
      reads sh.kids.Keys, sh.rank.Keys
    {
      AncestorChainShape(c, sh);
      && Within(c, ["screen", "synopsis", "programlisting"], sh)
      && forall a :: a in AncestorChain(c, sh) && a.kind in ["screen", "synopsis", "programlisting"] ==> SafeNode(a, sh)
    }

    /** Inside a literal block, a passthrough may carry the text when the
        node is not a custom kind, is inside no quoted or custom element, and
        the text holds no ']'. */
    ghost predicate Escapable(c: Chunk, con: string)
      requires Tree() && c in sh.rank
      reads sh.kids.Keys, sh.rank.Keys
    {
      && Within(c, ["screen", "synopsis", "programlisting"], sh)
      && c.kind !in customs
      && !Within(c, quoting, sh)
      && !Within(c, Unquoted(customs, quoting), sh)
      && !Contains(con, "]")
    }

    /** The five quoting arms: inside an element of the same category
        (`nested`) the children pass through, otherwise they are quoted with
        `quoter`; `contents`, `ls` and `rs` are then as for `Quote`. */
    method QuoteArm(c: Chunk, category: string, quoter: string)
      returns (r: Result<string>, ghost nested: bool, ghost contents: string, ghost ls: string, ghost rs: string)
      requires Valid() && c in sh.kids
      modifies this`register, ad
      ensures Grows()
      ensures Valid()
      ensures nested == old(Within(c, Entries(cfg, category), sh))
      ensures nested && old(AllText(c.children)) ==> r == Success(old(IncludedTexts(c.children)))
      ensures !nested && r.Success? && TrimSpace(contents) == "" ==> r.value == ""
      ensures !nested && r.Success? && TrimSpace(contents) != "" ==>
        && r.value == QuotedText(ls, TrimSpace(contents), rs, quoter, Mode(c, TrimSpace(contents)))
        && AllOf(ls, ' ') && HasPrefix(contents, ls) && AllOf(rs, ' ') && HasSuffix(contents, rs)
      decreases sh.bound - sh.rank[c], 0, 2
    {
      contents, ls, rs := "", "", "";
      var inside := c.IsWithin(Entries(cfg, category), sh);
      nested := inside;
      if inside {
        r := Kids(c, [], false);
      } else {
        r, contents, ls, rs := Quote(c, quoter);
      }
    }

    // -------------------------------------------------------------------------
    // The arms

    /** ENTITY: the contents with the known entities expanded are stored
        under the entity's key, after every stored value has had its
        references to the key replaced by them. Nothing is output. */
    method EntityArm(c: Chunk)
      returns (r: Result<string>, ghost inner: string, ghost contents: string,
               ghost before: map<string, string>, ghost order: seq<string>)
      requires Valid() && c in sh.kids
      modifies this`register, ad
      ensures Grows()
      ensures Valid()
      ensures r.Success? ==>
        && r.value == "" && IsKeyOrder(order, before)
        && contents == Expand(inner, order, before)
        && ad.entities == Redefined(before, Get(c.attributes, "KEY"), contents)
      ensures old(AllText(c.children)) ==>
        r.Success? && inner == old(IncludedTexts(c.children)) && before == old(ad.entities)
      decreases sh.bound - sh.rank[c], 0, 2
    {
      inner, contents, before, order := "", "", map[], [];
      var t :- Kids(c, [], false);
      inner := t;
      before := ad.entities;
      var keys := KeyOrder(ad.entities);
      order := keys;
      var expanded := ExpandEntities(t, keys, ad.entities);
      contents := expanded;
      Redefine(Get(c.attributes, "KEY"), expanded);
      r := Success("");
    }

    /** The two loops over `ad.Entities` and the store that end the ENTITY
        arm. */
    method Redefine(key: string, contents: string)
      requires Valid()
      modifies ad`entities
      ensures Grows()
      ensures Valid()
      ensures ad.entities == Redefined(old(ad.entities), key, contents)
    {
      var e := Redefining(ad.entities, key, contents);
      ad.entities := e;
    }

    /** variablelist, itemizedlist, bibliolist, figure, table: the title
        block on a line of its own, then the children other than text and
        the title. */
    method ListArm(c: Chunk) returns (r: Result<string>, ghost title: string)
      requires Valid() && c in sh.kids
      modifies this`register, ad
      ensures Grows()
      ensures Valid()
      ensures r.Success? ==> HasPrefix(r.value, TitleBlock(c.attributes, ".", title) + "\n")
      decreases sh.bound - sh.rank[c], 0, 2
    {
      var t, tt := DecorateTitle(c, ".");
      title := tt;
      var block :- t;
      TitleBlockParts(c.attributes, ".", tt);
      var rest :- Kids(c, ["TEXT", "title"], false);
      r := Success(DecorateIfNotBlank(block, "", "\n") + rest);
    }

    /** ulink: a link macro around the translated children. A link whose
        text sits in a custom element is translated through a synthetic node
        outside the tree; that path is not part of this model. */
    method LinkArm(c: Chunk) returns (r: Result<string>)
      requires Valid() && c in sh.kids
      modifies this`register, ad
      ensures Grows()
      ensures Valid()
      ensures XmlChunks.First(c.children, customs) == null && r.Success? ==>
        exists inner :: r.value == "link:++" + Get(c.attributes, "url") + "++[" + inner + "]"
      decreases sh.bound - sh.rank[c], 0, 2
    {
      var url := Get(c.attributes, "url");
      var cc := XmlChunks.First(c.children, customs);
      if cc != null {
        return Failure("ulink with custom child: synthetic node not modelled");
      }
      var inner :- Kids(c, [], false);
      r := Success("link:++" + url + "++[" + inner + "]");
    }

    /** screen, synopsis, programlisting: a listing block. The block asks
        for quotes when it is quote-safe, for macros when its text holds a
        passthrough or a link is below it, and for attributes when its text
        refers to a known entity; with quotes or macros, angle brackets are
        escaped. A block without a parent panics. */
    method ScreenArm(c: Chunk)
      returns (r: Result<string>, ghost raw: string, ghost body: string,
               ghost quotes: bool, ghost macros: bool, ghost attributes: bool)
      requires Valid() && c in sh.kids
      modifies this`register, ad
      ensures Grows()
      ensures Valid()
      ensures old(c.parent) == null ==> r.Failure?
      ensures r.Success? ==>
        && old(c.parent) != null
        && r.value == (if old(c.parent.kind) in paragraphs then "\n" else "")
                      + SubsLine(SubsOf(quotes, macros, attributes)) + "\n----\n" + body + "\n----\n"
        && (quotes <==> old(SafeNode(c, sh)))
        && (macros <==> Contains(raw, "pass:") || XmlChunks.Contains(Descendants(c, sh), ["ulink"]))
        && body == (if quotes || macros then EscapeAngles(raw) else raw)
        && (attributes <==> exists e :: e in ad.entities && Contains(body, "&" + e + ";"))
      decreases sh.bound - sh.rank[c], 0, 2
    {
      raw, body, quotes, macros, attributes := "", "", false, false, false;
      if c.parent == null {
        return Failure("nil parent"), raw, body, quotes, macros, attributes;
      }
      var lead := if c.parent.kind in paragraphs then "\n" else "";
      var link, safe := ListingFlags(c, sh);
      var children :- Kids(c, [], false);
      raw := children;
      var pass := Contains(children, "pass:") || link;
      if safe || pass {
        children := Replace(children, "<", "&lt;");
        children := Replace(children, ">", "&gt;");
      }
      var mention := MentionsKey(children, ad.entities, "&", ";");
      body, quotes, macros, attributes := children, safe, pass, mention;
      r := Success(lead + SubsLine(SubsOf(safe, pass, mention)) + "\n----\n" + children + "\n----\n");
    }

    /** Whatever a listing block asks for, no angle bracket is left in its
        body when it asks for quotes or macros. */
    lemma ScreenBodyClean(raw: string, quotes: bool, macros: bool)
      ensures var body := if quotes || macros then EscapeAngles(raw) else raw;
        quotes || macros ==> '<' !in body && '>' !in body
    {
      EscapeAnglesClean(raw);
    }

    /** Paragraph kinds: the children one by one, the text of each non-literal
        child tidied, and the whole trimmed between newlines. */
    method ParagraphArm(c: Chunk) returns (r: Result<string>, ghost raws: seq<string>, ghost pieces: seq<string>)
      requires Valid() && c in sh.kids
      modifies this`register, ad
      ensures Grows()
      ensures Valid()
      ensures r.Success? ==>
        && |raws| == |pieces| == old(|c.children|)
        && (forall i :: 0 <= i < |pieces| ==> pieces[i] == Piece(raws[i], old(c.children[i].kind) in literals))
        && r.value == "\n" + TrimSpace(Concat(pieces)) + "\n"
      decreases sh.bound - sh.rank[c], 0, 2
    {
      var children := "";
      raws, pieces := [], [];
      var kids := c.children;
      ghost var flags := seq(|kids|, j requires 0 <= j < |kids| reads kids => kids[j].kind in literals);
      for i := 0 to |kids|
        invariant Valid() && Grows()
        invariant |raws| == |pieces| == i && children == Concat(pieces)
        invariant forall j :: 0 <= j < i ==> pieces[j] == Piece(raws[j], flags[j])
      {
        var child := kids[i];
        var literal := child.kind in literals;
        assert literal == flags[i];
        var p, raw := ChildPiece(c, child, literal);
        if p.Failure? {
          return p.PropagateFailure(), raws, pieces;
        }
        var text := p.value;
        PiecesSnoc(raws, pieces, flags, raw, text);
        raws := raws + [raw];
        pieces := pieces + [text];
        assert pieces[..i] == pieces[..|pieces| - 1];
        children := children + text;
      }
      r := Success("\n" + TrimSpace(children) + "\n");
    }

    /** One child of a paragraph, translated, and tidied unless it is of a
        literal kind. */
    method ChildPiece(c: Chunk, ch: Chunk, literal: bool) returns (r: Result<string>, ghost raw: string)
      requires Valid() && c in sh.kids && ch in c.children
      modifies this`register, ad
      ensures Grows()
      ensures Valid() && unchanged(sh.kids.Keys, sh.rank.Keys)
      ensures r.Success? ==> r.value == Piece(raw, literal)
      decreases sh.bound - sh.rank[c], 0, 1
    {
      raw := "";
      var text :- One(c, ch);
      raw := text;
      if !literal {
        text := Tidied(text);
      }
      r := Success(text);
    }

    /** imagedata: the image's path is output and its resource copied. */
    method ImageDataArm(c: Chunk) returns (r: Result<string>)
      requires Valid() && c in sh.kids
      modifies ad`resources
      ensures Grows()
      ensures Valid()
      ensures "fileref" !in c.attributes ==> r == Success("") && ad.resources == old(ad.resources)
      ensures "fileref" in c.attributes ==>
        var key := clean(Get(c.attributes, "DIR") + "/" + c.attributes["fileref"]);
        r == Success(c.attributes["fileref"]) && ad.resources == old(ad.resources)[key := Get(sources, key)]
    {
      if "fileref" in c.attributes {
        var href := c.attributes["fileref"];
        var key := clean(Get(c.attributes, "DIR") + "/" + href);
        ad.resources := ad.resources[key := Get(sources, key)];
        r := Success(href);
      } else {
        r := Success("");
      }
    }

    /** mediaobject, inlinemediaobject: an image macro, `image` the
        translated image objects and `text` the translated text objects. */
    method MediaArm(c: Chunk, lead: string, tail: string) returns (r: Result<string>, ghost image: string, ghost text: string)
      requires Valid() && c in sh.kids
      modifies this`register, ad
      ensures Grows()
      ensures Valid()
      ensures r.Success? ==> r.value == lead + image + "[" + text + "]" + tail
      decreases sh.bound - sh.rank[c], 0, 2
    {
      image, text := "", "";
      var i :- Kids(c, ["imageobject"], true);
      image := i;
      var t :- Kids(c, ["textobject"], true);
      text := t;
      r := Success(lead + i + "[" + t + "]" + tail);
    }

    /** tgroup: a table, with a header option when the head is not empty.
        `parts` holds the translated head, body and foot. */
    method TableArm(c: Chunk) returns (r: Result<string>, ghost parts: seq<string>)
      requires Valid() && c in sh.kids
      modifies this`register, ad
      ensures Grows()
      ensures Valid()
      ensures r.Success? ==>
        && |parts| == 3
        && r.value == (if parts[0] != "" then "\n[options=\"" + Join(["header"], ",") + "\"]" else "")
             + "\n|===" + parts[0] + parts[1] + parts[2] + "\n|===\n"
      decreases sh.bound - sh.rank[c], 0, 2
    {
      parts := [];
      var head :- Kids(c, ["thead"], true);
      var output := if head != "" then "\n[options=\"" + Join(["header"], ",") + "\"]" else "";
      var foot :- Kids(c, ["tfoot"], true);
      var body :- Kids(c, ["TEXT", "thead", "tfoot"], false);
      parts := [head, body, foot];
      r := Success(output + "\n|===" + head + body + foot + "\n|===\n");
    }

    /** entry: the cell's trimmed text after '|', behind the span prefix.
        An entry without a parent panics. */
    method EntryArm(c: Chunk)
      returns (r: Result<string>, ghost ok: bool, ghost span: string, ghost inner: string, ghost w: nat)
      requires Valid() && c in sh.kids
      modifies this`register, ad
      ensures Grows()
      ensures Valid()
      ensures old(c.parent) == null ==> r.Failure?
      ensures old(c.parent) != null ==> old(Spanned(c, ok, span, w, sh))
      ensures !ok ==> r.Failure?
      ensures r.Success? ==> r.value == span + "|" + TrimSpace(inner)
      decreases sh.bound - sh.rank[c], 0, 2
    {
      ok, span, inner, w := false, "", "", 0;
      if c.parent == null {
        return Failure("nil parent"), ok, span, inner, w;
      }
      var s, o, sp, ww := Span(c, sh);
      ok, w := o, ww;
      var lead :- s;
      span := lead;
      var t :- Kids(c, [], false);
      inner := t;
      r := Success(lead + "|" + TrimSpace(t));
    }


    /** bookinfo, articleinfo: the document title, the metadata children
        recorded and dropped from the register with their subtrees, then the
        other children. Subtitles and abstracts are recorded and also
        translated. `rest` is the translation of the other children, and the
        metadata children follow the metadata recorded `before` them. */
    method BookInfoArm(c: Chunk) returns (r: Result<string>, ghost title: string, ghost rest: string, ghost before: seq<Chunk>)
      requires Valid() && c in sh.kids
      modifies this`register, ad
      ensures Grows()
      ensures Valid()
      ensures r.Success? ==> r.value == DecorateIfNotBlank(TrimSpace(title), "= ", "") + "\n" + rest
      ensures r.Success? ==> old(ad.metadata) <= before && before + Meta(c) <= ad.metadata
      ensures r.Success? ==> forall y :: y in XmlChunks.FlattenFrom(Meta(c), sh, sh.rank[c] + 1) ==> y !in register
      decreases sh.bound - sh.rank[c], 0, 2
    {
      title, rest, before := "", "", [];
      var t :- Kids(c, ["title"], true);
      title := t;
      var output := DecorateIfNotBlank(TrimSpace(t), "= ", "");
      before := ad.metadata;
      Record(c);
      var others :- Kids(c, ["title", "TEXT", "productname", "productnumber", "edition", "pubsnumber"], false);
      rest := others;
      r := Success(output + "\n" + others);
    }

    /** The metadata children of `c`. */
    ghost function Meta(c: Chunk): (r: seq<Chunk>)
      requires Tree() && c in sh.kids
      reads sh.kids.Keys, sh.rank.Keys
      ensures forall m :: m in r ==> m in sh.kids && sh.rank[c] + 1 <= sh.rank[m]
    {
      XmlChunks.SelectMembers(sh.kids[c], MetaKinds, true);
      XmlChunks.Filter(sh.kids[c], MetaKinds)
    }

    /** The metadata children join the document's metadata and leave the
        register with their subtrees. */
    method Record(c: Chunk)
      requires Valid() && c in sh.kids
      modifies this`register, ad`metadata
      ensures Grows()
      ensures Valid()
      ensures ad.metadata == old(ad.metadata) + Meta(c)
      ensures forall y :: y in register <==> y in old(register) && y !in XmlChunks.FlattenFrom(Meta(c), sh, sh.rank[c] + 1)
    {
      var meta := XmlChunks.Filter(c.children, MetaKinds);
      assert meta == Meta(c);
      ad.metadata := ad.metadata + meta;
      Forget(meta, sh.rank[c] + 1);
    }

    /** The metadata kinds of `bookinfo`. */
    const MetaKinds: seq<string> := ["productname", "productnumber", "subtitle", "abstract", "edition", "pubsnumber"]

    /** The heading marker of a section: '=' for the document level and one
        more for each ancestor that has a title, cut to "." past six. */
    method HeadingMarker(c: Chunk) returns (decor: string)
      requires Tree() && c in sh.kids
      ensures decor == Marker(Level(c))
    {
      var ancestors := c.Ancestors(sh);
      AncestorChainShape(c, sh);
      assert forall a :: a in ancestors ==> a in sh.kids;
      var titleDecor := "==";
      for i := 0 to |ancestors|
        invariant |titleDecor| == 2 + TitledCount(ancestors[..i], sh) && AllOf(titleDecor, '=')
      {
        var a := ancestors[i];
        TitledCountStep(ancestors, i, sh);
        if XmlChunks.Contains(a.children, ["title"]) {
          titleDecor := titleDecor + "=";
        }
      }
      assert ancestors[..|ancestors|] == ancestors;
      if |titleDecor| > 6 {
        decor := ".";
      } else {
        decor := titleDecor + " ";
      }
      MarkerOf(titleDecor, decor, Level(c));
    }

    /** chapter, section, part, appendix, preface: the title block behind
        the heading marker, then the other children. */
    method SectionArm(c: Chunk) returns (r: Result<string>, ghost title: string)
      requires Valid() && c in sh.kids
      modifies this`register, ad
      ensures Grows()
      ensures Valid()
      ensures r.Success? ==>
        HasPrefix(r.value, TitleBlock(c.attributes, Marker(Level(c)), title) + "\n")
      decreases sh.bound - sh.rank[c], 0, 2
    {
      var decor := HeadingMarker(c);
      var t, tt := DecorateTitle(c, decor);
      title := tt;
      var block :- t;
      var rest :- Kids(c, ["title", "TEXT"], false);
      r := Success(block + "\n" + rest);
    }

    /** include: a text inclusion copies its resource and includes it, or
        falls back; any other inclusion stores its translated contents as a
        new file through `Create` and includes that file, or falls back when
        there is nothing to store. Inside media, the contents are
        translated in place. `decor` surrounds the include line: a block
        delimiter inside a list item that is not literal, a newline
        otherwise. */
    method IncludeArm(c: Chunk)
      returns (r: Result<string>, ghost name: string, ghost stored: string, ghost decor: string, ghost media: bool)
      requires Valid() && c in sh.kids
      modifies this`register, ad
      ensures Grows()
      ensures Valid()
      ensures "href" !in c.attributes ==> r == Success("") && name == "" && unchanged(ad)
      ensures "href" in c.attributes ==>
        decor == old(if Within(c, listitems, sh) && !Within(c, literals, sh) then "\n--\n" else "\n")
      ensures "href" in c.attributes ==> media == old(Within(c, ["mediaobject", "inlinemediaobject"], sh))
      ensures "href" in c.attributes && media ==>
        name == "" && (old(AllText(c.children)) ==> r == Success(old(IncludedTexts(c.children))))
      ensures "href" in c.attributes && !media ==>
        IncludedAs(c, c.attributes["href"], decor, r, name, stored, old(ad.resources))
      ensures ("href" in c.attributes && !media && AllText(c.children)
               && !(Get(c.attributes, "parse") == "text" && clean(Get(c.attributes, "DIR") + "/" + c.attributes["href"]) in sources)) ==>
        r == Success("") && name == ""
      decreases sh.bound - sh.rank[c], 0, 2
    {
      name, stored, decor, media := "", "", "\n", false;
      if "href" !in c.attributes {
        return Success(""), name, stored, decor, media;
      }
      var href := c.attributes["href"];
      var d, inMedia := IncludePlace(c);
      decor := d;
      media := inMedia;
      if inMedia {
        r := Kids(c, [], false);
      } else {
        r, name, stored := IncludeFile(c, href, d);
      }
    }

    /** Where an inclusion stands. `decor`, the text around an include line:
        a block delimiter inside a list item that is not literal, a newline
        otherwise; `media`: whether it lies inside media. */
    method IncludePlace(c: Chunk) returns (decor: string, media: bool)
      requires Tree() && c in sh.kids
      ensures decor == if Within(c, listitems, sh) && !Within(c, literals, sh) then "\n--\n" else "\n"
      ensures media == Within(c, ["mediaobject", "inlinemediaobject"], sh)
    {
      media := c.IsWithin(["mediaobject", "inlinemediaobject"], sh);
      decor := "\n";
      var listed := c.IsWithin(listitems, sh);
      var literal := c.IsWithin(literals, sh);
      if listed && !literal {
        decor := "\n--\n";
      }
    }

    /** What an inclusion outside media gives: a text inclusion whose
        resource exists copies that resource and includes `href`; any other
        inclusion whose translated contents `stored` are not empty stores
        them and includes the stored file under its new `name`. Each include
        line stands between two `decor`s. */
    ghost predicate IncludedAs(c: Chunk, href: string, decor: string, r: Result<string>, name: string, stored: string, resources: map<string, string>)
      reads this, ad, c
    {
      var key := clean(Get(c.attributes, "DIR") + "/" + href);
      && (Get(c.attributes, "parse") == "text" && key in sources ==>
            && name == ""
            && ad.resources == resources[key := sources[key]]
            && r == Success(decor + "include::" + href + "[]" + decor))
      && (Get(c.attributes, "parse") == "text" ==> name == "")
      && (Get(c.attributes, "parse") != "text" && r.Success? ==> (name != "" <==> stored != ""))
      && (name != "" ==>
            && (exists k :: name == NameOf(stripExt(href), k))
            && stored != "" && name in ad.data && ad.data[name] == stored
            && r == Success(decor + "include::" + name + "[]" + decor))
    }

    /** An inclusion outside media: the copied text resource, or the
        translated contents stored as a new file, each included between two
        `decor`s; otherwise the fallback. */
    method IncludeFile(c: Chunk, href: string, decor: string) returns (r: Result<string>, ghost name: string, ghost stored: string)
      requires Valid() && c in sh.kids
      modifies this`register, ad
      ensures Grows()
      ensures Valid()
      ensures IncludedAs(c, href, decor, r, name, stored, old(ad.resources))
      ensures AllText(c.children) && !(Get(c.attributes, "parse") == "text" && clean(Get(c.attributes, "DIR") + "/" + href) in sources) ==>
        r == Success("") && name == ""
      decreases sh.bound - sh.rank[c], 0, 1
    {
      name, stored := "", "";
      if Get(c.attributes, "parse") == "text" {
        var key := clean(Get(c.attributes, "DIR") + "/" + href);
        if key in sources {
          CopyResource(key);
          r := Success(decor + "include::" + href + "[]" + decor);
        } else {
          r := Fallback(c);
        }
      } else {
        var newData :- Contents(c);
        stored := newData;
        if newData != "" {
          var n := Store(stripExt(href), newData);
          name := n;
          r := Success(decor + "include::" + n + "[]" + decor);
        } else {
          r := Fallback(c);
        }
      }
    }

    /** `translate(c.Children.Filter("fallback"))`: what an inclusion gives
        when it includes nothing; nothing when only text lies below it. */
    method Fallback(c: Chunk) returns (r: Result<string>)
      requires Valid() && c in sh.kids
      modifies this`register, ad
      ensures Grows()
      ensures Valid() && unchanged(sh.kids.Keys, sh.rank.Keys)
      ensures AllText(c.children) ==> r == Success("")
      decreases sh.bound - sh.rank[c], 0, 0
    {
      Below(c, ["fallback"], true);
      if AllText(c.children) {
        XmlChunks.FilterEmptyIff(c.children, ["fallback"]);
      }
      r := Translate(XmlChunks.Filter(c.children, ["fallback"]), sh.rank[c] + 1, 1);
    }

    /** `translate(c.Children.FilterOut("fallback", "TEXT"))`: the contents
        an inclusion stores; nothing when only text lies below it. */
    method Contents(c: Chunk) returns (r: Result<string>)
      requires Valid() && c in sh.kids
      modifies this`register, ad
      ensures Grows()
      ensures Valid() && unchanged(sh.kids.Keys, sh.rank.Keys)
      ensures AllText(c.children) ==> r == Success("")
      decreases sh.bound - sh.rank[c], 0, 0
    {
      Below(c, ["fallback", "TEXT"], false);
      if AllText(c.children) {
        XmlChunks.SelectNothingLeft(c.children, ["fallback", "TEXT"]);
      }
      r := Translate(XmlChunks.Select(c.children, ["fallback", "TEXT"], false), sh.rank[c] + 1, 1);
    }

    /** Copies the source's resource under `key` into the document. */
    method CopyResource(key: string)
      requires Valid() && key in sources
      modifies ad`resources
      ensures Grows()
      ensures Valid() && ad.resources == old(ad.resources)[key := sources[key]]
    {
      ad.resources := ad.resources[key := sources[key]];
    }

    /** Stores `content` as a file of the document, under the name `Create`
        picks for `title`. */
    method Store(title: string, content: string) returns (name: string)
      requires Valid()
      modifies ad
      ensures Grows()
      ensures Valid()
      ensures exists k :: IsSlot(old(ad.data), title, content, k) && name == NameOf(title, k)
      ensures ad.data == old(ad.data)[name := content]
    {
      ghost var k;
      name, k := ad.Create(title, content);
    }

    /** admonitions and example: a delimited block, one '=' longer per
        enclosing example, after the title block and, for admonitions, the
        upper-cased kind as a style. */
    method AdmonitionArm(c: Chunk) returns (r: Result<string>, ghost title: string, ghost depth: nat, ghost body: string)
      requires Valid() && c in sh.kids
      modifies this`register, ad
      ensures Grows()
      ensures Valid()
      ensures depth == old(|XmlChunks.Filter(AncestorChain(c, sh), ["example"])|)
      ensures r.Success? ==> HasPrefix(r.value, TitleBlock(c.attributes, ".", title)
        + (if c.kind in Entries(cfg, "admonitions") then "\n[" + ToUpper(c.kind) + "]" else "")
        + "\n====" + Repeat('=', depth) + "\n")
      ensures r.Success? ==> (r.value == TitleBlock(c.attributes, ".", title)
        + (if c.kind in Entries(cfg, "admonitions") then "\n[" + ToUpper(c.kind) + "]" else "")
        + "\n====" + Repeat('=', depth) + "\n" + body + ("\n====" + Repeat('=', depth) + "\n"))
      decreases sh.bound - sh.rank[c], 0, 2
    {
      body := "";
      ghost var want := |XmlChunks.Filter(AncestorChain(c, sh), ["example"])|;
      var ancestors := c.Ancestors(sh);
      var d := |XmlChunks.Filter(ancestors, ["example"])|;
      assert d == want;
      depth := d;
      var decor := "\n====" + Repeat('=', d) + "\n";
      var t, tt := DecorateTitle(c, ".");
      title := tt;
      var block :- t;
      var style := "";
      if c.kind in Entries(cfg, "admonitions") {
        style := "\n[" + ToUpper(c.kind) + "]";
      }
      var head := block + style + "\n====" + Repeat('=', d) + "\n";
      var b :- Kids(c, ["TEXT", "title"], false);
      body := b;
      Framed(head, b, decor);
      r := Success(head + b + decor);
    }

    /** corpauthor, pubdate, biblioid: the trimmed text, after ", " in a
        bibliography entry, or as a block line in an author group. `inner`
        is the translation of the children. */
    method CorpAuthorArm(c: Chunk) returns (r: Result<string>, ghost inner: string)
      requires Valid() && c in sh.kids
      modifies this`register, ad
      ensures Grows()
      ensures Valid()
      ensures old(AllText(c.children)) ==> r.Success? && inner == old(IncludedTexts(c.children))
      ensures r.Success? && old(Within(c, ["biblioentry"], sh)) ==>
        r.value == DecorateIfNotBlank(TrimSpace(inner), ", ", "")
      ensures r.Success? && !old(Within(c, ["biblioentry"], sh)) && old(Within(c, ["authorgroup"], sh)) ==>
        r.value == DecorateIfNotBlank(TrimSpace(inner), "\n.", "\n&blank;\n\n")
      ensures r.Success? && !old(Within(c, ["biblioentry"], sh)) && !old(Within(c, ["authorgroup"], sh)) ==>
        r.value == TrimSpace(inner)
      decreases sh.bound - sh.rank[c], 0, 2
    {
      inner := "";
      var pre, suf := "", "";
      var bib := c.IsWithin(["biblioentry"], sh);
      if bib {
        pre := ", ";
      } else {
        var group := c.IsWithin(["authorgroup"], sh);
        if group {
          pre, suf := "\n.", "\n&blank;\n\n";
        }
      }
      var t :- Kids(c, [], false);
      inner := t;
      r := Success(DecorateIfNotBlank(TrimSpace(t), pre, suf));
    }

    /** The list item arm: the item's text, scanned line by line, with
        continuation lines collapsed and a dangling one cut, behind the lead
        of its term or bullets. A text shorter than three characters is
        dropped; one whose first three characters hold no letter or digit
        gets an empty first line. */
    method ListItemArm(c: Chunk, ghost floor: nat)
      returns (r: Result<string>, ghost text: string, ghost term: string, ghost plain: bool)
      requires Valid() && floor <= sh.bound && Ready(c, floor, 1) && c.kind in listitems
      modifies this`register, ad
      ensures Grows()
      ensures Valid()
      ensures c.parent == null ==> r.Failure?
      ensures r.Success? ==> (old(c.parent) != null &&
        var p := ItemLines(text);
        var place := old(ItemPlace(c));
        r.value == if |p| <= 2 then "" else ItemOutput(ItemDecor(term, place.0, place.1, place.2), CutTailAsWritten(p), plain))
      ensures r.Success? && |ItemLines(text)| > 2 && |CutTailAsWritten(ItemLines(text))| >= 3 ==>
        var q := CutTailAsWritten(ItemLines(text));
        plain <==> q[0] in ItemStarts || q[1] in ItemStarts || q[2] in ItemStarts
      decreases sh.bound - floor, 1, 2
    {
      text, term, plain := "", "", false;
      if c.parent == null {
        return Failure("nil parent"), text, term, plain;
      }
      ghost var place := ItemPlace(c);
      var parent := c.parent;
      var bullet := Bullet(parent.kind);
      var ancestors := c.Ancestors(sh);
      assert ItemPlace(c) == place;
      var entries := |XmlChunks.Filter(ancestors, ["varlistentry"])|;
      var depth := |XmlChunks.Filter(ancestors, listitems)|;
      assert (bullet, entries, depth) == place;
      var own, inner := ItemText(c);
      var children :- own;
      text := children;
      var t :- ItemTerm(c, floor);
      term := t;
      r, plain := ItemFinish(children, ItemDecor(t, bullet, entries, depth));
    }

    /** Where a list item sits: the bullet its parent calls for, and how
        many `varlistentry` and list item chunks lie above it. */
    ghost function ItemPlace(c: Chunk): (char, nat, nat)
      requires Tree() && c in sh.kids && c.parent != null
      reads sh.kids.Keys, sh.rank.Keys
    {
      AncestorChainShape(c, sh);
      var above := AncestorChain(c, sh);
      (Bullet(c.parent.kind), |XmlChunks.Filter(above, ["varlistentry"])|,
        |XmlChunks.Filter(above, listitems)|)
    }

    /** The item's own text, trimmed: every child of a member or contrib,
        every child but the TEXT ones of any other item. `inner` is that
        translation before the trim. */
    method ItemText(c: Chunk) returns (r: Result<string>, ghost inner: string)
      requires Valid() && c in sh.kids
      modifies this`register, ad
      ensures Grows()
      ensures Valid()
      ensures r.Success? ==> r.value == TrimSpace(inner)
      ensures c.kind in ["member", "contrib"] && old(AllText(c.children)) ==>
        r == Success(TrimSpace(old(IncludedTexts(c.children))))
      ensures c.kind !in ["member", "contrib"] && AllText(c.children) ==> r == Success("")
      decreases sh.bound - sh.rank[c], 0, 1
    {
      inner := "";
      var t;
      if c.kind in ["member", "contrib"] {
        t :- Kids(c, [], false);
      } else {
        var others := XmlChunks.Select(c.children, ["TEXT"], false);
        if AllText(c.children) {
          XmlChunks.SelectNothingLeft(c.children, ["TEXT"]);
        }
        Below(c, ["TEXT"], false);
        t :- Translate(others, sh.rank[c] + 1, 1);
      }
      inner := t;
      assert TrimSpace("") == "";
      r := Success(TrimSpace(t));
    }

    /** The translated `term` siblings of a list item; nothing, with the
        document untouched, when it has none. */
    method ItemTerm(c: Chunk, ghost floor: nat) returns (r: Result<string>)
      requires Valid() && floor <= sh.bound && Ready(c, floor, 1) && c.parent != null
      modifies this`register, ad
      ensures Grows()
      ensures Valid()
      ensures XmlChunks.Filter(c.parent.children, ["term"]) == [] ==> r == Success("") && unchanged(ad)
      decreases sh.bound - floor, 1, 1
    {
      TermsPlaced(c, floor);
      r := Translate(XmlChunks.Filter(c.parent.children, ["term"]), sh.rank[c.parent] + 1, 0);
    }

    /** revision: number, date and author as a labelled line, then the
        description. `parts` holds the translated revision numbers and dates
        found below the revision, its authors and its descriptions. */
    method RevisionArm(c: Chunk) returns (r: Result<string>, ghost parts: seq<string>)
      requires Valid() && c in sh.kids
      modifies this`register, ad
      ensures Grows()
      ensures Valid()
      ensures r.Success? ==>
        |parts| == 4 && r.value == "\n" + parts[0] + ":: " + parts[1] + ", " + parts[2] + "\n" + parts[3]
      decreases sh.bound - sh.rank[c], 0, 2
    {
      parts := [];
      var number :- Deep(c, [], false, ["revnumber"]);
      var date :- Deep(c, [], false, ["date"]);
      var author :- Kids(c, ["author"], true);
      var description :- Kids(c, ["revdescription"], true);
      parts := [number, date, author, description];
      r := Success("\n" + number + ":: " + date + ", " + author + "\n" + description);
    }

    /** affiliation: the organisation name and division, each on a line of
        its own. `orgname` and `orgdiv` are their translations. */
    method AffiliationArm(c: Chunk) returns (r: Result<string>, ghost orgname: string, ghost orgdiv: string)
      requires Valid() && c in sh.kids
      modifies this`register, ad
      ensures Grows()
      ensures Valid()
      ensures r.Success? ==> r.value == DecorateIfNotBlank(Join(NonBlank([orgname, orgdiv]), "\n"), "\n", "\n")
      decreases sh.bound - sh.rank[c], 0, 2
    {
      orgname, orgdiv := "", "";
      var name :- Kids(c, ["orgname"], true);
      orgname := name;
      var output := DecorateIfNotBlank(name, "\n", "\n");
      var div :- Kids(c, ["orgdiv"], true);
      orgdiv := div;
      if div != "" {
        if name == "" {
          output := output + "\n";
        }
        output := output + div + "\n";
      }
      AffiliationLines(name, div);
      r := Success(output);
    }

    /** author, editor: in an author group a block with the name and the
        affiliation, email and contribution lines that are not empty;
        elsewhere "first last (email)". `first` and `surname` are the
        translated name parts; `parts` the translated e-mail, or in a group
        the affiliation, e-mail and contribution. */
    method AuthorArm(c: Chunk) returns (r: Result<string>, ghost first: string, ghost surname: string, ghost parts: seq<string>)
      requires Valid() && c in sh.kids
      modifies this`register, ad
      ensures Grows()
      ensures Valid()
      ensures r.Success? && old(Within(c, ["authorgroup"], sh)) ==>
        |parts| == 3 && r.value == AuthorBlock(first, surname, parts)
      ensures r.Success? && !old(Within(c, ["authorgroup"], sh)) ==>
        |parts| == 1 && r.value == first + " " + surname + " (" + parts[0] + ")"
      decreases sh.bound - sh.rank[c], 0, 2
    {
      first, surname, parts := "", "", [];
      var group := c.IsWithin(["authorgroup"], sh);
      if group {
        r, first, surname, parts := GroupAuthor(c);
      } else {
        var f :- Kids(c, ["firstname"], true);
        var s :- Kids(c, ["surname"], true);
        var email :- Kids(c, ["email"], true);
        first, surname, parts := f, s, [email];
        r := Success(f + " " + s + " (" + email + ")");
      }
    }

    /** An author inside an authorgroup: the name as a block title, then the
        affiliation, e-mail and contribution that are not blank, one per
        line, or a blank entity when all three are. */
    method GroupAuthor(c: Chunk) returns (r: Result<string>, ghost first: string, ghost surname: string, ghost parts: seq<string>)
      requires Valid() && c in sh.kids
      modifies this`register, ad
      ensures Grows()
      ensures Valid()
      ensures r.Success? ==> |parts| == 3 && r.value == AuthorBlock(first, surname, parts)
      decreases sh.bound - sh.rank[c], 0, 1
    {
      first, surname, parts := "", "", [];
      var f :- Kids(c, ["firstname"], true);
      var s :- Kids(c, ["surname"], true);
      first, surname := f, s;
      var output := "\n." + DecorateIfNotBlank(f, "", " ") + s + "\n";
      var affiliation :- Kids(c, ["affiliation"], true);
      var email :- Kids(c, ["email"], true);
      var contrib :- Kids(c, ["contrib"], true);
      var given := [affiliation, email, contrib];
      parts := given;
      var content := NonBlank(given);
      var blank := if content == [] then "\n&blank;" else "";
      assert output == AuthorTitle(f, s);
      r := Success(output + (blank + Join(content, "\n") + "\n"));
    }

    /** term: the term on one line, after an anchor carrying the plain text
        of the term when the parent has an id. `term` is the translation of
        the children. */
    method TermArm(c: Chunk) returns (r: Result<string>, ghost plain: string, ghost term: string)
      requires Valid() && c in sh.kids
      modifies this`register, ad
      ensures Grows()
      ensures Valid()
      ensures c.parent == null ==> r.Failure?
      ensures r.Success? ==> plain == TrimSpace(old(IncludedTexts(DeepList(c, ["indexterm"], false, ["TEXT"]))))
      ensures r.Success? && c.parent != null && "id" in c.parent.attributes ==>
        HasPrefix(r.value, "[[" + c.parent.attributes["id"] + "," + plain + "]]\n")
      ensures r.Success? ==> (c.parent != null && r.value ==
        (if "id" in c.parent.attributes then "[[" + c.parent.attributes["id"] + "," + plain + "]]\n" else "")
        + Replace(TrimSpace(term), "\n", ""))
      ensures r.Success? && old(AllText(c.children)) ==> term == old(IncludedTexts(c.children))
      decreases sh.bound - sh.rank[c], 0, 2
    {
      plain, term := "", "";
      ghost var want := IncludedTexts(DeepList(c, ["indexterm"], false, ["TEXT"]));
      var inner :- Kids(c, [], false);
      term := inner;
      assert IncludedTexts(DeepList(c, ["indexterm"], false, ["TEXT"])) == want;
      var trimmed := TrimSpace(inner);
      var texts := Deep(c, ["indexterm"], false, ["TEXT"]);
      var anchor := TrimSpace(texts.value);
      plain := anchor;
      if c.parent == null {
        return Failure("nil parent"), plain, term;
      }
      var output := "";
      if "id" in c.parent.attributes {
        output := "[[" + c.parent.attributes["id"] + "," + anchor + "]]\n";
      }
      r := Success(output + Replace(trimmed, "\n", ""));
    }

    /** indexterm: the index macro of the plain texts of the primary,
        secondary, tertiary, see and seealso children. */
    method IndexTermArm(c: Chunk) returns (r: Result<string>, ghost terms: seq<string>)
      requires Valid() && c in sh.kids
      modifies this`register, ad
      ensures Grows()
      ensures Valid()
      ensures r == Success(IndexTermMacro(terms))
      ensures terms == old(TermTexts(c))
      decreases sh.bound - sh.rank[c], 0, 2
    {
      ghost var want := TermTuple(c);
      var primary := Term(c, "primary");
      assert TermTuple(c) == want;
      var secondary := Term(c, "secondary");
      assert TermTuple(c) == want;
      var tertiary := Term(c, "tertiary");
      assert TermTuple(c) == want;
      var see := Term(c, "see");
      assert TermTuple(c) == want;
      var seealso := Term(c, "seealso");
      var kept := Kept(primary);
      terms := [primary];
      NonBlankSnoc(terms, secondary);
      kept, terms := kept + Kept(secondary), terms + [secondary];
      NonBlankSnoc(terms, tertiary);
      kept, terms := kept + Kept(tertiary), terms + [tertiary];
      NonBlankSnoc(terms, see);
      kept, terms := kept + Kept(see), terms + [see];
      NonBlankSnoc(terms, seealso);
      kept, terms := kept + Kept(seealso), terms + [seealso];
      r := Success(if |kept| > 0 then "indexterm:[" + Join(kept, ",") + "]" else "");
    }

    /** The primary, secondary, tertiary, see and seealso terms of `c`. */
    ghost function TermTexts(c: Chunk): seq<string>
      requires Tree() && c in sh.kids
      reads sh.kids.Keys, sh.rank.Keys
    {
      var t := TermTuple(c);
      [t.0] + [t.1] + [t.2] + [t.3] + [t.4]
    }

    /** The same five terms, as a tuple. */
    ghost function TermTuple(c: Chunk): (string, string, string, string, string)
      requires Tree() && c in sh.kids
      reads sh.kids.Keys, sh.rank.Keys
    {
      (TermText(c, "primary"), TermText(c, "secondary"), TermText(c, "tertiary"),
       TermText(c, "see"), TermText(c, "seealso"))
    }

    /** The trimmed plain text below the `kind` children of `c`. */
    ghost function TermText(c: Chunk, kind: string): string
      requires Tree() && c in sh.kids
      reads sh.kids.Keys, sh.rank.Keys
    {
      TrimSpace(IncludedTexts(DeepList(c, [kind], true, ["TEXT"])))
    }

    /** One index term: the trimmed plain text below the `kind` children. */
    method Term(c: Chunk, kind: string) returns (s: string)
      requires Valid() && c in sh.kids
      modifies this`register, ad
      ensures Grows()
      ensures Valid()
      ensures s == old(TermText(c, kind)) && unchanged(sh.kids.Keys, sh.rank.Keys)
      decreases sh.bound - sh.rank[c], 0, 1
    {
      var r := Deep(c, [kind], true, ["TEXT"]);
      s := TrimSpace(r.value);
    }

    /** menuchoice: the menu, then the other children joined by " > ".
        `menu` is the translated `guimenu` children, `items` the other
        children, each translated on its own. */
    method MenuArm(c: Chunk) returns (r: Result<string>, ghost menu: string, ghost items: seq<string>)
      requires Valid() && c in sh.kids
      modifies this`register, ad
      ensures Grows()
      ensures Valid()
      ensures r.Success? ==>
        && |items| == |XmlChunks.Select(c.children, ["guimenu"], false)|
        && r.value == "menu:" + TrimSpace(menu) + "[" + Join(items, " > ") + "]"
      decreases sh.bound - sh.rank[c], 0, 2
    {
      menu, items := "", [];
      var each :- Each(c, ["guimenu"], false);
      items := each;
      var m :- Kids(c, ["guimenu"], true);
      menu := m;
      r := Success("menu:" + TrimSpace(m) + "[" + Join(each, " > ") + "]");
    }

    /** keyword, subjectterm: the trimmed text joins the keyword set;
        nothing is output. */
    method KeywordArm(c: Chunk) returns (r: Result<string>, ghost inner: string)
      requires Valid() && c in sh.kids
      modifies this`register, ad
      ensures Grows()
      ensures Valid()
      ensures r.Success? ==> r.value == "" && TrimSpace(inner) in ad.keywords
      decreases sh.bound - sh.rank[c], 0, 2
    {
      inner := "";
      var t :- Kids(c, [], false);
      inner := t;
      ad.keywords := ad.keywords + {TrimSpace(t)};
      r := Success("");
    }

    /** Each of `pieces` that stands for a TEXT node of `kids` is that node's
        text, trimmed. */
    ghost predicate TextsTrimmed(pieces: seq<string>, kids: seq<Chunk>, texts: seq<string>)
      requires |pieces| <= |kids| == |texts|
    {
      forall j :: 0 <= j < |pieces| && kids[j].kind == "TEXT" ==> pieces[j] == TrimSpace(texts[j])
    }

    lemma TextsTrimmedStep(pieces: seq<string>, s: string, kids: seq<Chunk>, texts: seq<string>)
      requires |pieces| < |kids| == |texts| && TextsTrimmed(pieces, kids, texts)
      requires kids[|pieces|].kind == "TEXT" ==> s == TrimSpace(texts[|pieces|])
      ensures TextsTrimmed(pieces + [s], kids, texts)
    {
      forall j | 0 <= j < |pieces| + 1 && kids[j].kind == "TEXT"
        ensures (pieces + [s])[j] == TrimSpace(texts[j])
      {
        if j < |pieces| {
          assert (pieces + [s])[j] == pieces[j];
        }
      }
    }

    /** Any other kind: the children one by one, text children trimmed.
        `pieces` holds the output of each child. */
    method DefaultArm(c: Chunk) returns (r: Result<string>, ghost pieces: seq<string>)
      requires Valid() && c in sh.kids
      modifies this`register, ad
      ensures Grows()
      ensures Valid()
      ensures r.Success? ==>
        && |pieces| == |c.children| && r.value == Concat(pieces)
        && forall i :: 0 <= i < |pieces| && c.children[i].kind == "TEXT" ==>
             pieces[i] == TrimSpace(old(TextOf(c.children[i])))
      decreases sh.bound - sh.rank[c], 0, 2
    {
      var output := "";
      pieces := [];
      var kids := c.children;
      ghost var texts := TextsOf(kids);
      for i := 0 to |kids|
        invariant Valid() && Grows()
        invariant |pieces| == i && output == Concat(pieces)
        invariant TextsTrimmed(pieces, kids, texts)
      {
        var ch := kids[i];
        assert TextOf(ch) == old(TextOf(ch)) == texts[i];
        var s :- One(c, ch);
        if ch.kind == "TEXT" {
          assert s == texts[i];
          s := TrimSpace(s);
        }
        TextsTrimmedStep(pieces, s, kids, texts);
        ConcatSnoc(pieces, s);
        pieces := pieces + [s];
        output := output + s;
      }
      r := Success(output);
    }
  }
}
