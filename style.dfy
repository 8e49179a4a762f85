/**
 * The translation style: a table from category names ("monospace", "bold",
 * "listitems", ...) to the DocBook element kinds filed under them. The
 * table is updated in place, so it is a class whose one field is that map.
 */
module Styles {
  import opened Strings

  /** The kinds filed under `category`; a category never set reads as empty. */
  function Entries(cats: map<string, seq<string>>, category: string): seq<string>
  {
    if category in cats then cats[category] else []
  }

  /** Every category of `over` replaces the same category of `base`; the
      others are kept. */
  function Overridden(base: map<string, seq<string>>, over: map<string, seq<string>>): map<string, seq<string>>
  {
    map k | k in base.Keys + over.Keys :: if k in over then over[k] else base[k]
  }

  /** The categories whose kinds are rendered as quoted text, in the order
      `allQuotes` reads them. */
  const QuotingCategories: seq<string> := ["monospace", "superscript", "italics", "bold", "highlight"]

  /** What overriding means: the categories of both, those of `over` taken
      from `over` and the rest kept. */
  lemma OverriddenEntries(base: map<string, seq<string>>, over: map<string, seq<string>>)
    ensures forall k :: k in Overridden(base, over) <==> k in base || k in over
    ensures forall k :: k in over ==> Overridden(base, over)[k] == over[k]
    ensures forall k :: k in base && k !in over ==> Overridden(base, over)[k] == base[k]
  {
  }

  /** Overriding twice with the same style is overriding once. */
  lemma OverriddenIdempotent(base: map<string, seq<string>>, over: map<string, seq<string>>)
    ensures Overridden(Overridden(base, over), over) == Overridden(base, over)
  {
  }

  /** Overriding one more category updates that category. */
  lemma OverriddenStep(base: map<string, seq<string>>, done: map<string, seq<string>>, k: string, v: seq<string>)
    ensures Overridden(base, done)[k := v] == Overridden(base, done[k := v])
  {
  }

  /** The kinds that are rendered as quoted text. */
  function QuotesOf(cats: map<string, seq<string>>): seq<string>
  {
    Entries(cats, "monospace") + Entries(cats, "superscript") + Entries(cats, "italics")
      + Entries(cats, "bold") + Entries(cats, "highlight")
  }

  /** A kind is quoted exactly when one of the five quoting categories
      lists it. */
  lemma QuotesMembers(cats: map<string, seq<string>>, kind: string)
    ensures kind in QuotesOf(cats) <==>
      exists category :: category in QuotingCategories && kind in Entries(cats, category)
  {
    var q := QuotingCategories;
    if kind in QuotesOf(cats) {
      if kind in Entries(cats, q[0]) {
        assert q[0] in q;
      } else if kind in Entries(cats, q[1]) {
        assert q[1] in q;
      } else if kind in Entries(cats, q[2]) {
        assert q[2] in q;
      } else if kind in Entries(cats, q[3]) {
        assert q[3] in q;
      } else {
        assert q[4] in q;
      }
    }
  }

  /** The entries of `custom` that are not among `quotes`, in their order. */
  function Unquoted(custom: seq<string>, quotes: seq<string>): seq<string>
  {
    if custom == [] then []
    else if custom[0] in quotes then Unquoted(custom[1..], quotes)
    else [custom[0]] + Unquoted(custom[1..], quotes)
  }

  /** The unquoted kinds are exactly the custom kinds that are not quoted. */
  lemma {:induction false} UnquotedMembers(custom: seq<string>, quotes: seq<string>)
    ensures |Unquoted(custom, quotes)| <= |custom|
    ensures forall x :: x in Unquoted(custom, quotes) <==> x in custom && x !in quotes
  {
    if custom != [] {
      UnquotedMembers(custom[1..], quotes);
      assert forall x :: x in custom <==> x == custom[0] || x in custom[1..];
    }
  }

  /** `sub` is `s` with some entries dropped, the rest in their order. */
  predicate IsSublist<T(==)>(sub: seq<T>, s: seq<T>)
    decreases |s|
  {
    if sub == [] then true
    else if s == [] then false
    else if sub[0] == s[0] then IsSublist(sub[1..], s[1..])
    else IsSublist(sub, s[1..])
  }

  lemma {:induction false} UnquotedSublist(custom: seq<string>, quotes: seq<string>)
    ensures IsSublist(Unquoted(custom, quotes), custom)
    decreases |custom|
  {
    if custom != [] {
      UnquotedSublist(custom[1..], quotes);
      var rest := Unquoted(custom[1..], quotes);
      if custom[0] !in quotes {
        assert ([custom[0]] + rest)[1..] == rest;
      } else if rest != [] {
        UnquotedMembers(custom[1..], quotes);
        assert rest[0] in rest;
      }
    }
  }

  /** Appending to `custom` appends what survives of the new entry. */
  lemma {:induction false} UnquotedSnoc(custom: seq<string>, x: string, quotes: seq<string>)
    ensures Unquoted(custom + [x], quotes) == Unquoted(custom, quotes) + (if x in quotes then [] else [x])
    decreases |custom|
  {
    if custom != [] {
      assert (custom + [x])[1..] == custom[1..] + [x];
      UnquotedSnoc(custom[1..], x, quotes);
    }
  }

  // The default lists of kinds, one per category.
  const AdmonitionKinds: seq<string> := ["note", "warning", "important"]
  const ListItemKinds: seq<string> := ["listitem", "step", "biblioentry", "member", "contrib"]
  const ParagraphKinds: seq<string> := ["para", "simpara", "subtitle"]
  const LiteralKinds: seq<string> := ["screen", "synopsis", "programlisting", "indexterm", "mediaobject"]
  const CustomKinds: seq<string> := ["package", "application", "citetitle", "command", "option"]
  const MonospaceKinds: seq<string> := ["literal", "wordasword", "filename", "guilabel", "systemitem",
    "prompt", "computeroutput", "userinput", "revnumber", "parameter", "guimenuitem", "errortype",
    "varname", "function", "methodname", "classname", "property", "type", "command", "option", "sgmltag",
    "code", "envar", "guiicon"]
  const SuperscriptKinds: seq<string> := ["superscript"]
  const ItalicKinds: seq<string> := ["firstterm", "replaceable", "citebiblioid", "citetitle", "citation",
    "mathphrase", "lineannotation"]
  const BoldKinds: seq<string> := ["emphasis", "orgname", "trademark", "acronym", "abbrev", "uri",
    "refentrytitle", "application", "package", "productname"]

  /** The categories after `kinds` are added to `category`: they go after
      the category's existing entries. */
  function Added(cats: map<string, seq<string>>, category: string, kinds: seq<string>): map<string, seq<string>>
  {
    cats[category := Entries(cats, category) + kinds]
  }

  /** Adding appends to the one category and leaves every other alone. */
  lemma AddedEntries(cats: map<string, seq<string>>, category: string, kinds: seq<string>)
    ensures category in Added(cats, category, kinds)
    ensures Entries(Added(cats, category, kinds), category) == Entries(cats, category) + kinds
    ensures forall k :: k != category ==> Entries(Added(cats, category, kinds), k) == Entries(cats, k)
  {
  }

  /** The categories `init` files, given the lists of kinds it files under
      each, in its order. */
  function DefaultsWith(admonitions: seq<string>, listItems: seq<string>, paragraphs: seq<string>,
                        literal: seq<string>, custom: seq<string>, monospace: seq<string>,
                        superscript: seq<string>, italic: seq<string>, bold: seq<string>,
                        highlight: seq<string>): map<string, seq<string>>
  {
    var c := Added(map[], "admonitions", admonitions);
    var c := Added(c, "listitems", listItems);
    var c := Added(c, "paragraphs", paragraphs);
    var c := Added(c, "literal", literal);
    var c := Added(c, "custom", custom);
    var c := Added(c, "monospace", monospace);
    var c := Added(c, "superscript", superscript);
    var c := Added(c, "italic", italic);
    var c := Added(c, "bold", bold);
    Added(c, "highlight", highlight)
  }

  /** The categories of the default style. */
  function DefaultCategories(): map<string, seq<string>>
  {
    DefaultsWith(AdmonitionKinds, ListItemKinds, ParagraphKinds, LiteralKinds, CustomKinds,
      MonospaceKinds, SuperscriptKinds, ItalicKinds, BoldKinds, Split("", ","))
  }

  /** Splitting the empty list of kinds gives one empty kind. */
  lemma SplitEmpty()
    ensures Split("", ",") == [""]
  {
    assert IndexOf("", ",") < 0;
  }

  /** `init` files its italic kinds under "italic", but the quoted kinds are
      read from "italics": whatever the lists, none of the default italic
      kinds is quoted. */
  lemma DefaultsItalicsUnread(admonitions: seq<string>, listItems: seq<string>, paragraphs: seq<string>,
                              literal: seq<string>, custom: seq<string>, monospace: seq<string>,
                              superscript: seq<string>, italic: seq<string>, bold: seq<string>,
                              highlight: seq<string>)
    ensures var d := DefaultsWith(admonitions, listItems, paragraphs, literal, custom, monospace,
      superscript, italic, bold, highlight);
      && Entries(d, "italic") == italic
      && "italics" !in d
      && QuotesOf(d) == monospace + superscript + bold + highlight
  {
    var c5 := Added(Added(Added(Added(Added(map[], "admonitions", admonitions),
      "listitems", listItems), "paragraphs", paragraphs), "literal", literal), "custom", custom);
    assert "italics" !in c5 && "italic" !in c5 && "bold" !in c5 && "highlight" !in c5;
    assert "monospace" !in c5 && "superscript" !in c5;
  }

  /** Whatever the lists, `init` files exactly its list item kinds under
      "listitems". */
  lemma DefaultsListItems(admonitions: seq<string>, listItems: seq<string>, paragraphs: seq<string>,
                          literal: seq<string>, custom: seq<string>, monospace: seq<string>,
                          superscript: seq<string>, italic: seq<string>, bold: seq<string>,
                          highlight: seq<string>)
    ensures Entries(DefaultsWith(admonitions, listItems, paragraphs, literal, custom, monospace,
      superscript, italic, bold, highlight), "listitems") == listItems
  {
    var c2 := Added(Added(map[], "admonitions", admonitions), "listitems", listItems);
    assert "listitems" !in Added(map[], "admonitions", admonitions);
    assert Entries(c2, "listitems") == listItems;
  }

  /** The default list item kinds, which do not include `term`. */
  lemma DefaultListItems()
    ensures Entries(DefaultCategories(), "listitems") == ListItemKinds
    ensures "term" !in Entries(DefaultCategories(), "listitems")
  {
    DefaultsListItems(AdmonitionKinds, ListItemKinds, ParagraphKinds, LiteralKinds, CustomKinds,
      MonospaceKinds, SuperscriptKinds, ItalicKinds, BoldKinds, Split("", ","));
  }

  /** The default style in particular; its empty highlight list contributes
      one empty kind to the quoted kinds. */
  lemma DefaultItalicsUnread()
    ensures Entries(DefaultCategories(), "italic") == ItalicKinds
    ensures "italics" !in DefaultCategories()
    ensures QuotesOf(DefaultCategories()) == MonospaceKinds + SuperscriptKinds + BoldKinds + [""]
  {
    SplitEmpty();
    DefaultsItalicsUnread(AdmonitionKinds, ListItemKinds, ParagraphKinds, LiteralKinds, CustomKinds,
      MonospaceKinds, SuperscriptKinds, ItalicKinds, BoldKinds, [""]);
  }

  /** Corrected: `init` with its italic kinds filed under "italics", the
      category the quoted kinds are read from. */
  function IntendedDefaultsWith(admonitions: seq<string>, listItems: seq<string>, paragraphs: seq<string>,
                                literal: seq<string>, custom: seq<string>, monospace: seq<string>,
                                superscript: seq<string>, italic: seq<string>, bold: seq<string>,
                                highlight: seq<string>): map<string, seq<string>>
  {
    var c := Added(map[], "admonitions", admonitions);
    var c := Added(c, "listitems", listItems);
    var c := Added(c, "paragraphs", paragraphs);
    var c := Added(c, "literal", literal);
    var c := Added(c, "custom", custom);
    var c := Added(c, "monospace", monospace);
    var c := Added(c, "superscript", superscript);
    var c := Added(c, "italics", italic);
    var c := Added(c, "bold", bold);
    Added(c, "highlight", highlight)
  }

  /** Filed under "italics", the italic kinds are quoted, in their place
      among the quoting categories. */
  lemma IntendedItalicsQuoted(admonitions: seq<string>, listItems: seq<string>, paragraphs: seq<string>,
                              literal: seq<string>, custom: seq<string>, monospace: seq<string>,
                              superscript: seq<string>, italic: seq<string>, bold: seq<string>,
                              highlight: seq<string>)
    ensures QuotesOf(IntendedDefaultsWith(admonitions, listItems, paragraphs, literal, custom, monospace,
      superscript, italic, bold, highlight)) == monospace + superscript + italic + bold + highlight
  {
    var c5 := Added(Added(Added(Added(Added(map[], "admonitions", admonitions),
      "listitems", listItems), "paragraphs", paragraphs), "literal", literal), "custom", custom);
    assert "italics" !in c5 && "bold" !in c5 && "highlight" !in c5;
    assert "monospace" !in c5 && "superscript" !in c5;
    var c6 := Added(c5, "monospace", monospace);
    var c7 := Added(c6, "superscript", superscript);
    var c8 := Added(c7, "italics", italic);
    var c9 := Added(c8, "bold", bold);
    var c10 := Added(c9, "highlight", highlight);
    assert c10 == IntendedDefaultsWith(admonitions, listItems, paragraphs, literal, custom, monospace,
      superscript, italic, bold, highlight);
    AddedEntries(c5, "monospace", monospace);
    AddedEntries(c6, "superscript", superscript);
    AddedEntries(c7, "italics", italic);
    AddedEntries(c8, "bold", bold);
    AddedEntries(c9, "highlight", highlight);
    assert Entries(c10, "monospace") == monospace;
    assert Entries(c10, "superscript") == superscript;
    assert Entries(c10, "italics") == italic;
    assert Entries(c10, "bold") == bold;
    assert Entries(c10, "highlight") == highlight;
  }

  class Style {
    var cats: map<string, seq<string>>

    /** `NewStyle`: an empty style. */
    constructor ()
      ensures cats == map[]
    {
      cats := map[];
    }

    /** `Add`: the kinds go after the category's existing entries. */
    method Add(category: string, kinds: seq<string>)
      modifies this
      ensures cats == Added(old(cats), category, kinds)
    {
      cats := cats[category := Entries(cats, category) + kinds];
    }

    /** `AddFromString`: the comma-separated pieces of `kindList`, in order. */
    method AddFromString(category: string, kindList: string)
      modifies this
      ensures cats == Added(old(cats), category, Split(kindList, ","))
    {
      Add(category, Split(kindList, ","));
    }

    /** `OverrideWith`: each category of `other` replaces this style's. The
        categories are visited in no particular order. */
    method OverrideWith(other: Style)
      modifies this
      ensures cats == Overridden(old(cats), old(other.cats))
    {
      var over := other.cats;
      var todo := over.Keys;
      ghost var done: map<string, seq<string>> := map[];
      assert cats == Overridden(cats, done);
      while todo != {}
        invariant forall k :: k in over <==> k in done || k in todo
        invariant forall k :: k in done ==> k !in todo && k in over && done[k] == over[k]
        invariant cats == Overridden(old(cats), done)
        decreases |todo|
      {
        var k :| k in todo;
        OverriddenStep(old(cats), done, k, over[k]);
        cats := cats[k := over[k]];
        done := done[k := over[k]];
        todo := todo - {k};
      }
      assert done == over;
    }

    /** `allQuotes`. */
    function AllQuotes(): seq<string>
      reads this
    {
      QuotesOf(cats)
    }

    /** `unQuotedCustom`: the custom kinds that are not already quoted. */
    method UnQuotedCustom() returns (answer: seq<string>)
      ensures answer == Unquoted(Entries(cats, "custom"), AllQuotes())
    {
      var custom := Entries(cats, "custom");
      answer := [];
      for i := 0 to |custom|
        invariant answer == Unquoted(custom[..i], AllQuotes())
      {
        var cc := custom[i];
        var quotes := AllQuotes();
        var alreadyQuoted := false;
        for j := 0 to |quotes|
          invariant alreadyQuoted <==> cc in quotes[..j]
        {
          if cc == quotes[j] {
            alreadyQuoted := true;
            break;
          }
        }
        UnquotedSnoc(custom[..i], cc, quotes);
        assert custom[..i + 1] == custom[..i] + [cc];
        if !alreadyQuoted {
          answer := answer + [cc];
        }
      }
      assert custom[..|custom|] == custom;
    }
  }

  /** The unquoted custom kinds are custom kinds, none of them quoted, in
      their order. */
  lemma UnquotedCustomProperties(s: Style)
    ensures var r := Unquoted(Entries(s.cats, "custom"), s.AllQuotes());
      && IsSublist(r, Entries(s.cats, "custom"))
      && forall x :: x in r <==> x in Entries(s.cats, "custom") && x !in s.AllQuotes()
  {
    UnquotedSublist(Entries(s.cats, "custom"), s.AllQuotes());
    UnquotedMembers(Entries(s.cats, "custom"), s.AllQuotes());
  }

  /** `init`: the default style. The comma-separated lists of the source
      are given here already split, except the empty highlight list, whose
      split is the point. */
  method Default() returns (s: Style)
    ensures fresh(s) && s.cats == DefaultCategories()
  {
    s := new Style();
    s.Add("admonitions", AdmonitionKinds);
    s.Add("listitems", ListItemKinds);
    s.Add("paragraphs", ParagraphKinds);
    s.Add("literal", LiteralKinds);
    s.Add("custom", CustomKinds);
    s.Add("monospace", MonospaceKinds);
    s.Add("superscript", SuperscriptKinds);
    s.Add("italic", ItalicKinds);
    s.Add("bold", BoldKinds);
    s.AddFromString("highlight", "");
  }
}
