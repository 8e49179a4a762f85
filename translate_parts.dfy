/*
 * Pieces of the `translate` walk (translate.go) that do not depend on the
 * walk's state: the entity redefinition, the title block of
 * `decorateTitle`, the three forms `quote` produces, the helpers that scan
 * Go maps for a key, the widest table row, the heading depth, and the end
 * of the list item arm.
 */
module TranslateParts {
  import opened Wrappers
  import opened Strings
  import opened XmlChunk
  import XmlChunks
  import opened TranslateText

  // ---------------------------------------------------------------------------
  // Entities

  /** The entity table after the definition of `key` with text `contents`:
      each stored value has its references "&key;" replaced by `contents`,
      and then `key` itself is stored. */
  function Redefined(e: map<string, string>, key: string, contents: string): map<string, string>
  {
    (map k | k in e :: Replace(e[k], "&" + key + ";", contents))[key := contents]
  }

  /** A definition stores its text, keeps every other key, and leaves alone a
      value that does not refer to the entity. */
  lemma RedefinedKeeps(e: map<string, string>, key: string, contents: string)
    ensures var r := Redefined(e, key, contents);
      && r.Keys == e.Keys + {key} && r[key] == contents
      && forall k :: k in e && k != key && !Contains(e[k], "&" + key + ";") ==> r[k] == e[k]
  {
    forall k | k in e && k != key && !Contains(e[k], "&" + key + ";")
      ensures Redefined(e, key, contents)[k] == e[k]
    {
      ReplaceAbsent(e[k], "&" + key + ";", contents);
    }
  }

  /** Retroactive substitution: after the definition no other stored value
      refers to the entity, provided its name holds no '&' and its text holds
      no '&' and does not start with a character of the reference. */
  lemma RedefinedResolves(e: map<string, string>, key: string, contents: string)
    requires '&' !in key && '&' !in contents && contents != []
    requires contents[0] !in key && contents[0] != ';'
    ensures var r := Redefined(e, key, contents);
      forall k :: k in r && k != key ==> !Contains(r[k], "&" + key + ";")
  {
    var pat := "&" + key + ";";
    assert forall i :: 1 <= i < |pat| ==> pat[i] == ';' || pat[i] == key[i - 1];
    forall k | k in e && k != key
      ensures !Contains(Replace(e[k], pat, contents), pat)
    {
      ReplaceRemovesAll(e[k], pat, contents);
    }
  }

  /** Every key of `m` once, in the order Go's map iteration happens to take. */
  method KeyOrder(m: map<string, string>) returns (order: seq<string>)
    ensures IsKeyOrder(order, m)
  {
    var rest := m.Keys;
    order := [];
    while rest != {}
      invariant forall k :: k in m <==> k in order || k in rest
      invariant forall k :: k in rest ==> k !in order
      invariant forall i, j :: 0 <= i < j < |order| ==> order[i] != order[j]
      decreases |rest|
    {
      var k :| k in rest;
      order := order + [k];
      rest := rest - {k};
    }
  }

  /** `d'` is the text `d` normalised, with the names of `entities` in
      some order. */
  ghost predicate NormalisedFrom(d': string, d: string, entities: map<string, string>)
  {
    exists keys :: IsKeyOrder(keys, entities) && d' == Normalised(d, keys)
  }

  /** The loop over the output files, one file per round, in no particular
      order. */
  method NormaliseAll(files: map<string, string>, entities: map<string, string>)
    returns (files': map<string, string>)
    ensures files'.Keys == files.Keys
    ensures forall f :: f in files' ==> NormalisedFrom(files'[f], files[f], entities)
    ensures forall f :: f in files' ==> TidyFile(files'[f])
  {
    files' := files;
    var names := KeyOrder(files);
    for i := 0 to |names|
      invariant files'.Keys == files.Keys
      invariant forall f :: f in files' && f in names[..i] ==> NormalisedFrom(files'[f], files[f], entities)
      invariant forall f :: f in files' && f !in names[..i] ==> files'[f] == files[f]
    {
      assert names[..i + 1] == names[..i] + [names[i]];
      files' := NormaliseOne(files', names[i], entities);
    }
    assert names[..|names|] == names;
    forall f | f in files'
      ensures TidyFile(files'[f])
    {
      NormalisedFromTidy(files'[f], files[f], entities);
    }
  }

  /** A file normalised under any order of the entity names is tidy. */
  lemma NormalisedFromTidy(d': string, d: string, entities: map<string, string>)
    requires NormalisedFrom(d', d, entities)
    ensures TidyFile(d')
  {
    var keys :| IsKeyOrder(keys, entities) && d' == Normalised(d, keys);
    NormalisedTidy(d, keys);
  }

  /** No reference "&e;" to a plain entity name is left in a file normalised
      under any order of the entity names, provided no name contains '&'. */
  lemma NormalisedFromRewrites(d': string, d: string, entities: map<string, string>, e: string)
    requires NormalisedFrom(d', d, entities)
    requires e in entities && PlainName(e)
    requires forall k :: k in entities ==> '&' !in k
    ensures !Contains(d', "&" + e + ";")
  {
    var keys :| IsKeyOrder(keys, entities) && d' == Normalised(d, keys);
    NormalisedRewritesEntities(d, keys, e);
  }

  /** One round of the loop over the output files: file `f` is replaced by
      its normalised form under a fresh order of the entity names; the other
      files are left alone. */
  method NormaliseOne(files: map<string, string>, f: string, entities: map<string, string>)
    returns (files': map<string, string>)
    requires f in files
    ensures files'.Keys == files.Keys
    ensures NormalisedFrom(files'[f], files[f], entities)
    ensures forall g :: g in files && g != f ==> files'[g] == files[g]
  {
    var keys := KeyOrder(entities);
    var d := Normalise(files[f], keys);
    files' := files[f := d];
    assert IsKeyOrder(keys, entities) && files'[f] == Normalised(files[f], keys);
  }

  /** Whether `s` contains `pre + e + suf` for some key `e` of `m`: the loops
      over `ad.Entities` that stop at the first hit. The answer does not
      depend on the order the keys are tried in. */
  method MentionsKey(s: string, m: map<string, string>, pre: string, suf: string) returns (b: bool)
    ensures b <==> exists e :: e in m && Contains(s, pre + e + suf)
  {
    var rest := m.Keys;
    while rest != {}
      invariant rest <= m.Keys
      invariant forall e :: e in m && e !in rest ==> !Contains(s, pre + e + suf)
      decreases |rest|
    {
      var e :| e in rest;
      if Contains(s, pre + e + suf) {
        return true;
      }
      rest := rest - {e};
    }
    return false;
  }

  // ---------------------------------------------------------------------------
  // Titles

  /** The text of `decorateTitle`: a blank line, an anchor when the node has
      an id, and the translated title behind `prefix` when there is one. */
  function TitleBlock(attributes: map<string, string>, prefix: string, title: string): string
  {
    "\n\n" + (if "id" in attributes then "[[" + attributes["id"] + "]]\n" else "")
    + DecorateIfNotBlank(title, prefix, "")
  }

  /** The block is never empty, so the list arm's `decorateIfNotBlank` around
      it always adds its newline; the anchor follows the blank line, and the
      title can be read back from the end of the block. */
  lemma TitleBlockParts(attributes: map<string, string>, prefix: string, title: string)
    ensures var b := TitleBlock(attributes, prefix, title);
      && b != "" && HasPrefix(b, "\n\n")
      && ("id" in attributes ==> HasPrefix(b, "\n\n[[" + attributes["id"] + "]]\n"))
      && (title != "" ==> HasSuffix(b, prefix + title))
      && (title == "" ==> HasSuffix(b, "\n"))
      && DecorateIfNotBlank(b, "", "\n") == b + "\n"
  {
    var anchor := if "id" in attributes then "[[" + attributes["id"] + "]]\n" else "";
    var b := TitleBlock(attributes, prefix, title);
    assert b == "\n\n" + anchor + DecorateIfNotBlank(title, prefix, "");
    if "id" in attributes {
      assert b[..|"\n\n" + anchor|] == "\n\n" + anchor;
    }
    if title != "" {
      assert b == ("\n\n" + anchor) + (prefix + title);
    } else {
      assert b == "\n\n" + anchor;
    }
  }

  // ---------------------------------------------------------------------------
  // Quoting

  /** The three forms of `quote`: the quoted text between empty
      passthroughs, with the kind as a role for custom kinds; an escaped
      passthrough with the "quotes" (and "attributes") substitutions; or the
      bare text. */
  datatype Quoting = Passed(tag: string) | Escaped(pass: string) | Plain

  /** The output of `quote` for trimmed text `con`, with the space runs `ls`
      and `rs` that surrounded it put back outside the quotes. */
  function QuotedText(ls: string, con: string, rs: string, quoter: string, how: Quoting): string
  {
    ls + QuoteCore(con, quoter, how) + rs
  }

  /** What `quote` puts between the space runs. */
  function QuoteCore(con: string, quoter: string, how: Quoting): string
  {
    match how
    case Passed(tag) => (Blank + tag) + (quoter + con + quoter) + Blank
    case Escaped(pass) => ("pass:" + pass + "[") + (quoter + con + quoter) + "]"
    case Plain => con
  }

  /** In every form the space runs stay outside, and the text appears between
      the quote marks unless the form is bare. */
  lemma QuotedTextParts(ls: string, con: string, rs: string, quoter: string, how: Quoting)
    ensures var q := QuotedText(ls, con, rs, quoter, how);
      && HasPrefix(q, ls) && HasSuffix(q, rs)
      && (how.Plain? ==> q == ls + con + rs)
      && (!how.Plain? ==> Contains(q, quoter + con + quoter))
  {
    var core := QuoteCore(con, quoter, how);
    Framed(ls, core, rs);
    match how
    case Passed(tag) =>
      Framed(Blank + tag, quoter + con + quoter, Blank);
      ContainedIn(ls, core, rs, quoter + con + quoter);
    case Escaped(pass) =>
      Framed("pass:" + pass + "[", quoter + con + quoter, "]");
      ContainedIn(ls, core, rs, quoter + con + quoter);
    case Plain =>
  }

  /** What the middle of a concatenation contains, the whole contains. */
  lemma ContainedIn(a: string, m: string, b: string, x: string)
    requires Contains(m, x)
    ensures Contains(a + m + b, x)
  {
    var k := IndexOf(m, x);
    var q := a + m + b;
    assert q[|a| + k..|a| + k + |x|] == m[k..k + |x|];
    assert OccursAt(q, x, |a| + k);
    assert IndexOf(q, x) >= 0;
  }

  /** The three parts of a concatenation: it starts with the first, ends
      with the last and contains the middle one. */
  lemma Framed(a: string, m: string, b: string)
    ensures HasPrefix(a + m + b, a) && HasSuffix(a + m + b, b) && Contains(a + m + b, m)
  {
    var q := a + m + b;
    assert q[..|a|] == a;
    assert q[|a|..|a| + |m|] == m;
    assert OccursAt(q, m, |a|);
    assert IndexOf(q, m) >= 0;
    assert q[|q| - |b|..] == b;
  }

  /** When the white space around `input` is made of ' ' only, the bare form
      gives the input back: the space runs and the trimmed text rebuild it. */
  lemma TrimmingsRebuild(input: string, ls: string, rs: string)
    requires forall i :: 0 <= i < |input| && IsSpace(input[i]) ==> input[i] == ' '
    requires AllOf(ls, ' ') && HasPrefix(input, ls) && (|ls| == |input| || input[|ls|] != ' ')
    requires AllOf(rs, ' ') && HasSuffix(input, rs)
    requires |rs| == |input| || input[|input| - |rs| - 1] != ' '
    requires TrimSpace(input) != ""
    ensures ls + TrimSpace(input) + rs == input
  {
    TrimSpaceParts(input);
    var r, i := TrimSpace(input), |input| - |TrimLeftSpace(input)|;
    var j := i + |r|;
    // Around the trimmed text the white space is made of ' ' only, and the
    // trimmed text starts and ends with something else: the runs end there.
    assert input[i] == r[0] && input[j - 1] == r[|r| - 1];
    assert forall k :: 0 <= k < i ==> input[k] in input[..i];
    assert forall k :: j <= k < |input| ==> input[k] in input[j..];
    assert forall k :: 0 <= k < |ls| ==> input[k] == ls[k];
    assert forall k :: |input| - |rs| <= k < |input| ==> input[k] == rs[k - (|input| - |rs|)];
    assert |ls| == i;
    assert |input| - |rs| == j;
    assert input == input[..i] + input[i..j] + input[j..];
  }

  /** The characters `quoteSafe` looks for in the text of a block. */
  const Marks := "*^#`_+"

  /** The texts of `ts` one after another: the XML of TEXT nodes. */
  function Texts(ts: seq<Chunk>): string
    reads ts
  {
    if ts == [] then "" else Texts(ts[..|ts| - 1]) + Get(ts[|ts| - 1].attributes, "TEXT")
  }

  /** A list of TEXT nodes serialises to their texts. */
  lemma {:induction false} TextsXml(ts: seq<Chunk>, choices: seq<XmlChoice>, sh: Shape)
    requires |ts| == |choices| && forall i :: 0 <= i < |ts| ==> Fits(choices[i], ts[i], sh)
    requires forall t :: t in ts ==> t.kind == "TEXT"
    ensures XmlOfAll(ts, choices, sh) == Texts(ts)
    decreases |ts|
  {
    if ts != [] {
      TextsXml(ts[..|ts| - 1], choices[..|ts| - 1], sh);
    }
  }

  // ---------------------------------------------------------------------------
  // Tables

  /** The number of entry children of a row. */
  function EntryCount(row: Chunk, sh: Shape): nat
    requires sh.Ok() && row in sh.kids
    reads sh.kids.Keys
  {
    |XmlChunks.Filter(sh.kids[row], ["entry"])|
  }

  /** `w` is the largest entry count among `rows`, or 0 when there are none. */
  ghost predicate IsWidest(rows: seq<Chunk>, w: nat, sh: Shape)
    requires sh.Ok() && forall row :: row in rows ==> row in sh.kids
    reads sh.kids.Keys
  {
    (forall row :: row in rows ==> EntryCount(row, sh) <= w)
    && (w == 0 || exists row :: row in rows && EntryCount(row, sh) == w)
  }

  /** The loop of the entry arm over the rows of the table. */
  method Widest(rows: seq<Chunk>, ghost sh: Shape) returns (maxLen: nat)
    requires sh.Ok() && Mirrors(sh) && forall row :: row in rows ==> row in sh.kids
    ensures IsWidest(rows, maxLen, sh)
  {
    maxLen := 0;
    for i := 0 to |rows|
      invariant forall j :: 0 <= j < i ==> EntryCount(rows[j], sh) <= maxLen
      invariant maxLen == 0 || exists j :: 0 <= j < i && EntryCount(rows[j], sh) == maxLen
    {
      var length := |XmlChunks.Filter(rows[i].children, ["entry"])|;
      if length > maxLen {
        maxLen := length;
      }
    }
  }

  /** The widest count is unique, and it is 0 exactly when no row has an
      entry. */
  lemma WidestUnique(rows: seq<Chunk>, v: nat, w: nat, sh: Shape)
    requires sh.Ok() && forall row :: row in rows ==> row in sh.kids
    requires IsWidest(rows, v, sh) && IsWidest(rows, w, sh)
    ensures v == w
    ensures w == 0 <==> forall row :: row in rows ==> EntryCount(row, sh) == 0
  {
    if v != 0 {
      var rv :| rv in rows && EntryCount(rv, sh) == v;
      assert v <= w;
    }
    if w != 0 {
      var rw :| rw in rows && EntryCount(rw, sh) == w;
      assert w <= v;
    }
  }

  // ---------------------------------------------------------------------------
  // Headings

  /** How many of the nodes `line` have a title among their children. */
  ghost function TitledCount(line: seq<Chunk>, sh: Shape): nat
    requires sh.Ok() && forall a :: a in line ==> a in sh.kids
    reads sh.kids.Keys
  {
    if line == [] then 0
    else
      var a := line[|line| - 1];
      TitledCount(line[..|line| - 1], sh) + if XmlChunks.Contains(sh.kids[a], ["title"]) then 1 else 0
  }

  /** Counting stops at the number of nodes. */
  lemma {:induction false} TitledCountBound(line: seq<Chunk>, sh: Shape)
    requires sh.Ok() && forall a :: a in line ==> a in sh.kids
    ensures TitledCount(line, sh) <= |line|
    decreases |line|
  {
    if line != [] {
      TitledCountBound(line[..|line| - 1], sh);
    }
  }

  // ---------------------------------------------------------------------------
  // The end of the list item arm

  /** As written: a final "+\n" is cut whenever the text is longer than two
      characters, including when the '+' is the last character of a line of
      text. */
  function CutTailAsWritten(p: string): string
  {
    if |p| > 2 && p[|p| - 2..] == "+\n" then p[..|p| - 2] else p
  }

  /** Corrected: only a last line made of a lone "+", a dangling list
      continuation, is cut. */
  function CutTail(p: string): string
  {
    if |p| > 2 && p[|p| - 3..] == "\n+\n" then p[..|p| - 2] else p
  }

  /** The corrected cut drops a lone "+" line and nothing else. */
  lemma CutTailDropsContinuation(p: string)
    ensures CutTail(p) != p <==> |p| > 2 && HasSuffix(p, "\n+\n")
    ensures CutTail(p) != p ==> CutTail(p) + "+\n" == p && HasSuffix(CutTail(p), "\n")
  {
    if |p| > 2 && HasSuffix(p, "\n+\n") {
      assert |CutTail(p)| < |p|;
      assert p == p[..|p| - 2] + "+\n";
    }
  }

  /** The written cut takes the last '+' of the text "Use C++", which the
      corrected one keeps. */
  lemma CutTailEatsPlus()
    ensures CutTailAsWritten("Use C++\n") == "Use C+"
    ensures CutTail("Use C++\n") == "Use C++\n"
  {
    assert "Use C++\n"[6..] == "+\n";
    assert "Use C++\n"[5..] != "\n+\n";
  }

  /** For the item text "C++" the written cut leaves two characters, and the
      arm then reads a third: Go panics with an index out of range. */
  lemma CutTailShortensShortItem()
    ensures |CutTailAsWritten("C++\n")| == 2
    ensures |CutTail("C++\n")| == 4
  {
    assert "C++\n"[2..] == "+\n";
    assert "C++\n"[1..] != "\n+\n";
  }

  /** The item text "C++" scans to the single line "C++", which the written
      cut shortens to "C+". */
  lemma ShortItemLines()
    ensures ItemLines("C++") == "C++\n"
    ensures CutTailAsWritten(ItemLines("C++")) == "C+"
  {
    ContainsChar("C++", '\n');
    assert Split("C++", "\n") == ["C++"];
    assert Scan(["C++"], NoFence) == "C++\n";
    assert !OccursAt("C++\n", "\n+\n+\n", 0);
    assert !Contains("C++\n", "\n+\n+\n");
    assert "C++\n"[2..] == "+\n";
  }

  /** The characters the list item arm looks for among the first three, in
      the order it tries them: digits and lower-case letters, then upper-case
      letters. */
  const ItemStarts: string := "1234567890qwertyuiopasdfghjklzxcvbnm" + "QWERTYUIOPASDFGHJKLZXCVBNM"

  /** The loop over `ItemStarts`: whether one of the first three characters
      of `p` is a letter or digit. Each candidate is compared with `p[0]`,
      then `p[1]`, then `p[2]`, so a shorter text fails with an index out of
      range unless a match comes first. */
  method StartsPlainly(p: string) returns (r: Result<bool>)
    requires |p| >= 1
    ensures |p| >= 3 ==> r == Success(p[0] in ItemStarts || p[1] in ItemStarts || p[2] in ItemStarts)
    ensures r.Success? && r.value ==> exists i :: 0 <= i < 3 && i < |p| && p[i] in ItemStarts
    ensures |p| < 3 ==> (r.Success? <==> p[0] == '1' || (|p| == 2 && p[1] == '1'))
  {
    for k := 0 to |ItemStarts|
      invariant forall j :: 0 <= j < k ==> p[0] != ItemStarts[j]
      invariant |p| >= 2 ==> forall j :: 0 <= j < k ==> p[1] != ItemStarts[j]
      invariant |p| >= 3 ==> forall j :: 0 <= j < k ==> p[2] != ItemStarts[j]
      invariant k > 0 ==> |p| >= 3
    {
      var start := ItemStarts[k];
      if p[0] == start {
        return Success(true);
      }
      if |p| < 2 {
        return Failure("index out of range");
      }
      if p[1] == start {
        return Success(true);
      }
      if |p| < 3 {
        return Failure("index out of range");
      }
      if p[2] == start {
        return Success(true);
      }
    }
    return Success(false);
  }

  /** The list item's lines after the scan and the collapse of repeated
      continuation lines. */
  function ItemLines(children: string): string
  {
    Settle(Scan(Split(children, "\n"), NoFence), "\n+\n+\n", "\n+\n")
  }

  /** The bullet of a list item: '*' under the unordered kinds of parent,
      '.' under any other. */
  function Bullet(parentKind: string): char
  {
    if parentKind in ["itemizedlist", "varlistentry", "bibliolist", "simplelist", "author"] then '*' else '.'
  }

  /** The lead of a list item: its term followed by one ':' more than the
      number of enclosing variable list entries, or one bullet more than
      the number of enclosing list items. */
  function ItemDecor(term: string, bullet: char, entries: nat, items: nat): string
  {
    if term != "" then "\n" + term + ":" + Repeat(':', entries) + " "
    else "\n" + Repeat(bullet, items + 1)
  }

  /** The lead tells the nesting depth: a term is followed by `entries + 1`
      colons, and a bullet is repeated `items + 1` times. */
  lemma ItemDecorDepth(term: string, bullet: char, entries: nat, items: nat)
    ensures var d := ItemDecor(term, bullet, entries, items);
      && HasPrefix(d, "\n")
      && (term != "" ==> d[1..1 + |term|] == term && d[1 + |term|..|d| - 1] == Repeat(':', entries + 1))
      && (term == "" ==> d[1..] == Repeat(bullet, items + 1))
  {
    var d := ItemDecor(term, bullet, entries, items);
    if term != "" {
      assert d == "\n" + term + (":" + Repeat(':', entries)) + " ";
      assert d[1 + |term|..|d| - 1] == ":" + Repeat(':', entries);
    }
  }

  /** The output of the list item arm for the text `p` of the item: the
      lead and the text, with an empty line of its own first when none of
      the first three characters is a letter or digit. */
  function ItemOutput(decor: string, p: string, plain: bool): string
  {
    if plain then decor + " " + p + "\n" else decor + " &blank;\n+\n" + p + "\n"
  }

  // ---------------------------------------------------------------------------
  // Paragraphs and literal blocks

  /** The pieces of a paragraph, one after another. */
  function Concat(parts: seq<string>): string
  {
    if parts == [] then "" else Concat(parts[..|parts| - 1]) + parts[|parts| - 1]
  }

  /** One more part is appended to the concatenation. */
  lemma ConcatSnoc(parts: seq<string>, s: string)
    ensures Concat(parts + [s]) == Concat(parts) + s
  {
    assert (parts + [s])[..|parts|] == parts;
  }

  /** What the paragraph arm does to the text of a child that is not
      literal: runs of spaces collapsed, tabs dropped, and the space at the
      start of each line dropped. */
  function Tidy(text: string): string
  {
    Replace(Replace(Settle(text, "  ", " "), "\t", ""), "\n ", "\n")
  }

  /** The tabs are dropped after the spaces are collapsed, so a tab between
      two spaces leaves a double space behind. */
  lemma TidyKeepsDoubleSpace()
    ensures Tidy(" \t ") == "  "
  {
    var t := " \t ";
    assert t[0..2][1] == '\t' && t[1..3][0] == '\t';
    assert t[1..][1..] == t[2..] && t[2..][1..] == [];
    assert !HasPrefix(t, "\t") && HasPrefix(t[1..], "\t") && !HasPrefix(t[2..], "\t");
    assert forall j :: !OccursAt(t, "  ", j);
    assert IndexOf(t, "  ") < 0;
    assert Settle(t, "  ", " ") == t;
    ReplaceUnfold(t, "\t", "");
    ReplaceUnfold(t[1..], "\t", "");
    ReplaceUnfold(t[2..], "\t", "");
    assert Replace(t, "\t", "") == "  ";
    ReplaceUnfold("  ", "\n ", "\n");
    ReplaceUnfold(" ", "\n ", "\n");
  }

  /** Corrected: the tabs are dropped before the spaces are collapsed. */
  function TidyTabsFirst(text: string): string
  {
    Replace(Settle(Replace(text, "\t", ""), "  ", " "), "\n ", "\n")
  }

  /** With the tabs dropped first, no double space is left. */
  lemma TidyTabsFirstSingleSpaced(text: string)
    ensures !Contains(TidyTabsFirst(text), "  ")
  {
    var settled := Settle(Replace(text, "\t", ""), "  ", " ");
    assert !OccursAt("\n", "  ", 0);
    assert IndexOf("\n", "  ") < 0;
    ReplaceAvoids(settled, "\n ", "\n", "  ");
  }

  /** The `subs` attribute line of a literal block, absent when there is no
      substitution to ask for. */
  function SubsLine(subs: seq<string>): string
  {
    if subs == [] then "" else "\n[subs=\"" + Join(subs, ", ") + "\"]"
  }

  /** The substitutions a literal block asks for, in the order they are
      decided: quotes, macros, attributes. */
  function SubsOf(quotes: bool, macros: bool, attributes: bool): seq<string>
  {
    (if quotes then ["quotes"] else []) + (if macros then ["macros"] else [])
      + (if attributes then ["attributes"] else [])
  }

  /** Each substitution is asked for exactly when it was decided on, and the
      `subs` line is left out exactly when none was. */
  lemma SubsOfNames(quotes: bool, macros: bool, attributes: bool)
    ensures var subs := SubsOf(quotes, macros, attributes);
      && ("quotes" in subs <==> quotes) && ("macros" in subs <==> macros)
      && ("attributes" in subs <==> attributes)
      && (SubsLine(subs) == "" <==> !quotes && !macros && !attributes)
  {
    assert "quotes"[0] != "macros"[0] && "quotes"[0] != "attributes"[0] && "macros"[0] != "attributes"[0];
  }

  /** The escaping of a literal block that asks for substitutions. */
  function EscapeAngles(s: string): string
  {
    Replace(Replace(s, "<", "&lt;"), ">", "&gt;")
  }

  /** No angle bracket survives the escaping. */
  lemma EscapeAnglesClean(s: string)
    ensures '<' !in EscapeAngles(s) && '>' !in EscapeAngles(s)
  {
    var s1 := Replace(s, "<", "&lt;");
    ReplaceRemovesAll(s, "<", "&lt;");
    ReplaceRemovesAll(s1, ">", "&gt;");
    ContainsChar("&gt;", '<');
    ReplaceAvoids(s1, ">", "&gt;", "<");
    ContainsChar(EscapeAngles(s), '<');
    ContainsChar(EscapeAngles(s), '>');
  }

  // ---------------------------------------------------------------------------
  // Authors

  /** The title line of an author's block: the name as a block title. */
  function AuthorTitle(first: string, surname: string): string
  {
    "\n." + DecorateIfNotBlank(first, "", " ") + surname + "\n"
  }

  /** The block of an author inside an author group: the name as a block
      title, then the affiliation, e-mail and contribution that are not
      empty, one per line, or the blank entity when all of them are. */
  function AuthorBlock(first: string, surname: string, parts: seq<string>): string
  {
    var content := NonBlank(parts);
    AuthorTitle(first, surname)
    + ((if content == [] then "\n&blank;" else "") + Join(content, "\n") + "\n")
  }

  /** The block opens with the name as its title. When no part is kept
      the blank entity stands alone below it; otherwise the kept parts
      follow, joined by newlines, the first of them not empty, and no blank
      entity is added. `NonBlankKeeps` tells when no part is kept: exactly
      when every part is empty. */
  lemma AuthorBlockParts(first: string, surname: string, parts: seq<string>)
    ensures HasPrefix(AuthorBlock(first, surname, parts), AuthorTitle(first, surname))
    ensures NonBlank(parts) == [] ==>
      AuthorBlock(first, surname, parts) == AuthorTitle(first, surname) + "\n&blank;\n"
    ensures NonBlank(parts) != [] ==>
      && NonBlank(parts)[0] != ""
      && AuthorBlock(first, surname, parts) == AuthorTitle(first, surname) + (Join(NonBlank(parts), "\n") + "\n")
  {
    var head := AuthorTitle(first, surname);
    var content := NonBlank(parts);
    var rest := (if content == [] then "\n&blank;" else "") + Join(content, "\n") + "\n";
    assert (head + rest)[..|head|] == head;
    if content != [] {
      NonBlankKeeps(parts);
      assert rest == Join(content, "\n") + "\n";
    }
  }

  /** The lines of an affiliation: the organisation name and division that
      are not empty, each after a newline, with a final newline; nothing
      when both are empty. */
  lemma AffiliationLines(orgname: string, orgdiv: string)
    ensures var d := DecorateIfNotBlank(orgname, "\n", "\n");
      var out := if orgdiv != "" then (if orgname == "" then d + "\n" else d) + orgdiv + "\n" else d;
      out == DecorateIfNotBlank(Join(NonBlank([orgname, orgdiv]), "\n"), "\n", "\n")
  {
    var pair := [orgname, orgdiv];
    assert pair[1..] == [orgdiv] && [orgdiv][1..] == [];
    var tail := NonBlank([orgdiv]);
    assert tail == (if orgdiv != "" then [orgdiv] else []) + NonBlank([]);
    assert NonBlank(pair) == (if orgname != "" then [orgname] else []) + tail;
    if orgname != "" && orgdiv != "" {
      assert [orgname, orgdiv][1..] == [orgdiv];
    }
  }
}
