/*
 * `AsciiDocFromDocBook` of translate.go, the driver around the walk: it
 * builds the style, copies the document's tree, registers the copy's TEXT
 * nodes, lifts titles and index terms out of includes, translates the copy
 * into `master.adoc` and normalises every output file.
 *
 * A panic anywhere in the pipeline ends the conversion; here it is the
 * `Failure` of the result. The document's tree is only read: the driver has
 * no `modifies` clause, so every node it changes is one of the copies it
 * made.
 */
module Convert {
  import opened Wrappers
  import opened Strings
  import opened XmlChunk
  import XmlChunks
  import opened Styles
  import opened AsciiDoc
  import Bypass
  import opened TranslateText
  import opened TranslateParts
  import Translate

  /** The categories of `base` overridden by each of `overs` in turn. */
  function Styled(base: map<string, seq<string>>, overs: seq<map<string, seq<string>>>): map<string, seq<string>>
  {
    if overs == [] then base
    else Overridden(Styled(base, overs[..|overs| - 1]), overs[|overs| - 1])
  }

  /** The category tables of `styles`, in order. */
  ghost function CatsOf(styles: seq<Style>): (r: seq<map<string, seq<string>>>)
    reads styles
    ensures |r| == |styles| && forall i :: 0 <= i < |styles| ==> r[i] == styles[i].cats
  {
    if styles == [] then [] else CatsOf(styles[..|styles| - 1]) + [styles[|styles| - 1].cats]
  }

  /** Overriding an empty style gives the overriding one. */
  lemma OverriddenEmpty(over: map<string, seq<string>>)
    ensures Overridden(map[], over) == over
  {
    OverriddenEntries(map[], over);
  }

  /** A later style wins: every category the last style sets is taken from
      it, and the others are those of the styles before it. */
  lemma StyledLastWins(base: map<string, seq<string>>, overs: seq<map<string, seq<string>>>, k: string)
    requires overs != []
    ensures var last := overs[|overs| - 1];
      Entries(Styled(base, overs), k) == if k in last then last[k] else Entries(Styled(base, overs[..|overs| - 1]), k)
  {
    OverriddenEntries(Styled(base, overs[..|overs| - 1]), overs[|overs| - 1]);
  }

  /** A category none of `overs` sets keeps its entries from `base`. */
  lemma {:induction false} StyledKeeps(base: map<string, seq<string>>, overs: seq<map<string, seq<string>>>, k: string)
    requires forall i :: 0 <= i < |overs| ==> k !in overs[i]
    ensures Entries(Styled(base, overs), k) == Entries(base, k)
  {
    if overs != [] {
      StyledKeeps(base, overs[..|overs| - 1], k);
      StyledLastWins(base, overs, k);
    }
  }

  /** The default style does not count `term` as a list item, so neither
      does a style built from it by styles that leave the list items alone. */
  lemma DefaultAdmitsTerms(overs: seq<map<string, seq<string>>>)
    requires forall i :: 0 <= i < |overs| ==> "listitems" !in overs[i]
    ensures "term" !in Entries(Styled(DefaultCategories(), overs), "listitems")
  {
    StyledKeeps(DefaultCategories(), overs, "listitems");
    DefaultListItems();
  }

  /** The first lines of `AsciiDocFromDocBook`: a new style overridden by
      the default and then by the caller's styles. */
  method BuildStyle(styles: seq<Style>) returns (cfg: Style)
    ensures fresh(cfg) && cfg.cats == Styled(DefaultCategories(), CatsOf(styles))
  {
    cfg := new Style();
    var base := Default();
    cfg.OverrideWith(base);
    OverriddenEmpty(base.cats);
    OverrideAll(cfg, styles);
  }

  /** The loop over the caller's styles: each overrides `cfg` in turn. */
  method OverrideAll(cfg: Style, styles: seq<Style>)
    requires cfg !in styles
    modifies cfg
    ensures cfg.cats == Styled(old(cfg.cats), CatsOf(styles))
  {
    ghost var d := cfg.cats;
    for i := 0 to |styles|
      invariant cfg.cats == Styled(d, CatsOf(styles[..i]))
    {
      ghost var done := CatsOf(styles[..i]);
      ghost var next := CatsOf(styles[..i + 1]);
      assert next[..i] == done && next[i] == styles[i].cats;
      ghost var want := Styled(d, next);
      assert want == Overridden(Styled(d, done), styles[i].cats);
      cfg.OverrideWith(styles[i]);
      assert cfg.cats == want;
      assert next == CatsOf(styles[..i + 1]);
    }
    assert styles[..|styles|] == styles;
  }

  /** The output files normalised: every file is normalised, with the
      entity names in an order of their own, and so comes out tidy. */
  method NormaliseFiles(ad: Doc)
    modifies ad
    ensures ad.data.Keys == old(ad.data.Keys)
    ensures forall f :: f in ad.data ==> NormalisedFrom(ad.data[f], old(ad.data)[f], old(ad.entities))
    ensures forall f :: f in ad.data ==> TidyFile(ad.data[f])
    ensures ad.entities == old(ad.entities) && ad.keywords == old(ad.keywords)
    ensures ad.resources == old(ad.resources) && ad.metadata == old(ad.metadata)
  {
    ad.data := NormaliseAll(ad.data, ad.entities);
  }

  /** `db.Data.Copy()`: fresh copies of the document's trees, with their
      shape, in which every child points back at its parent. */
  method CopyTree(data: seq<Chunk>, ghost sh: Shape) returns (copies: seq<Chunk>, ghost cp: Shape)
    requires sh.Ok() && Mirrors(sh) && DownLinked(sh) && XmlChunks.InShape(data, sh)
    requires KidsDistinct(sh) && Distinct(data) && forall c :: c in data ==> c.parent == null
    ensures Bypass.Linked(cp) && XmlChunks.InShape(copies, cp) && |copies| == |data| && Distinct(copies)
    ensures forall i :: 0 <= i < |data| ==> copies[i].kind == data[i].kind && copies[i].parent == null
    ensures forall x :: x in cp.kids ==> fresh(x)
  {
    ghost var orig;
    copies, orig := XmlChunks.Copy(data, sh, 0, map[], []);
    cp := XmlChunks.CopyShape(orig, sh);
    XmlChunks.CopyShapeOk(orig, sh);
    XmlChunks.CopyShapeLinked(orig, sh);
    XmlChunks.CopyShapeDistinct(orig, sh);
    forall i | 0 <= i < |data|
      ensures copies[i].kind == data[i].kind
    {
      var x := copies[i];
      assert x in orig && orig[x] == data[i];
      assert |x.children| == |orig[x].children|;
    }
    assert forall i :: 0 <= i < |copies| ==> orig[copies[i]] == data[i];
  }

  /** The register of `AsciiDocFromDocBook`: every TEXT node in the trees
      of `cs`, which the walk strikes off as it handles them. */
  method TextRegister(cs: seq<Chunk>, ghost sh: Shape) returns (register: set<Chunk>)
    requires sh.Ok() && Mirrors(sh) && XmlChunks.InShape(cs, sh)
    ensures forall t :: t in register <==> t in XmlChunks.Filter(XmlChunks.FlattenFrom(cs, sh, 0), ["TEXT"])
  {
    var flat := XmlChunks.FlattenOf(cs, sh, 0);
    register := Translate.Register(XmlChunks.Filter(flat, ["TEXT"]));
  }

  /** The middle of `AsciiDocFromDocBook`: titles and index terms are
      lifted out of includes in the copies, then a translator over them
      writes `master.adoc` into a new document. */
  method LiftAndWalk(copies: seq<Chunk>, ghost cp: Shape, register: set<Chunk>, cats: map<string, seq<string>>,
                     conditions: string, resources: map<string, string>,
                     clean: string -> string, stripExt: string -> string)
    returns (r: Result<Doc>, ghost out: string)
    requires Bypass.Linked(cp) && XmlChunks.InShape(copies, cp)
    requires Distinct(copies) && forall c :: c in copies ==> c.parent == null
    requires "term" !in Entries(cats, "listitems")
    modifies cp.kids.Keys`children, cp.kids.Keys`parent
    ensures r.Success? ==> fresh(r.value) && "master.adoc" in r.value.data && r.value.data["master.adoc"] == out
    ensures r.Success? ==> "nbsp" in r.value.entities && "blank" in r.value.entities
    ensures r.Success? ==> forall k :: k in r.value.resources ==> r.value.resources[k] == Get(resources, k)
  {
    ghost var par := Bypass.ParentsOf(cp.rank.Keys);
    assert Bypass.LinkedBy(cp, par);
    var lifted, cp', visited, par' := Bypass.BypassBrokenInclusions(copies, cp, 0, {}, par);
    if lifted.Failure? {
      return Failure(lifted.error), "";
    }
    r, out := Walk(copies, cp', register, cats, conditions, resources, clean, stripExt);
  }

  /** The walk proper: a translator over the copies writes `master.adoc`
      into a new document. */
  method Walk(copies: seq<Chunk>, ghost cp: Shape, register: set<Chunk>, cats: map<string, seq<string>>,
              conditions: string, resources: map<string, string>,
              clean: string -> string, stripExt: string -> string)
    returns (r: Result<Doc>, ghost out: string)
    requires cp.Ok() && Mirrors(cp) && DownLinked(cp) && ParentsRanked(cp) && XmlChunks.InShape(copies, cp)
    requires "term" !in Entries(cats, "listitems")
    ensures r.Success? ==> fresh(r.value) && "master.adoc" in r.value.data && r.value.data["master.adoc"] == out
    ensures r.Success? ==> "nbsp" in r.value.entities && "blank" in r.value.entities
    ensures r.Success? ==> forall k :: k in r.value.resources ==> r.value.resources[k] == Get(resources, k)
  {
    var t := new Translate.Translator(register, cats, conditions, resources, clean, stripExt, cp);
    var walked := t.Translate(copies, 0, 1);
    if walked.Failure? {
      return Failure(walked.error), "";
    }
    var ad := t.ad;
    ad.data := ad.data["master.adoc" := walked.value];
    return Success(ad), walked.value;
  }

  /** `AsciiDocFromDocBook`. `data` is the document's tree, `publicanCfg`
      its publican.cfg settings and `resources` its resources by path;
      `clean` and `stripExt` are the path functions the walk uses. */
  method AsciiDocFromDocBook(data: seq<Chunk>, ghost sh: Shape, publicanCfg: map<string, string>,
                             resources: map<string, string>, styles: seq<Style>,
                             clean: string -> string, stripExt: string -> string)
    returns (r: Result<Doc>, ghost walked: map<string, string>, ghost out: string)
    requires sh.Ok() && Mirrors(sh) && DownLinked(sh) && XmlChunks.InShape(data, sh)
    requires KidsDistinct(sh) && Distinct(data) && forall c :: c in data ==> c.parent == null
    requires "term" !in Entries(Styled(DefaultCategories(), CatsOf(styles)), "listitems")
    ensures r.Success? ==> fresh(r.value) && "master.adoc" in r.value.data
    ensures r.Success? ==> walked.Keys == r.value.data.Keys && walked["master.adoc"] == out
    ensures r.Success? ==> forall f :: f in r.value.data ==> NormalisedFrom(r.value.data[f], walked[f], r.value.entities)
    ensures r.Success? ==> forall f :: f in r.value.data ==> TidyFile(r.value.data[f])
    ensures r.Success? ==> "nbsp" in r.value.entities && "blank" in r.value.entities
    ensures r.Success? ==> forall k :: k in r.value.resources ==> r.value.resources[k] == Get(resources, k)
  {
    var cfg := BuildStyle(styles);
    var copies, cp := CopyTree(data, sh);
    var register := TextRegister(copies, cp);
    var result;
    result, out := LiftAndWalk(copies, cp, register, cfg.cats, Get(publicanCfg, "condition"), resources, clean, stripExt);
    if result.Failure? {
      return Failure(result.error), map[], out;
    }
    var ad := result.value;
    walked := ad.data;
    NormaliseFiles(ad);
    return Success(ad), walked, out;
  }
}
