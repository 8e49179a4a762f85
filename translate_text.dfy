/*
 * The text algorithms of the converter (translate.go): the helpers
 * `decorateIfNotBlank` and `spaceTrimmings`, the replace-until-gone loops,
 * the section heading marker, the line scan of a list item, the indexterm
 * macro, entity expansion, and the normaliser run over every output file.
 */
module TranslateText {
  import opened Strings

  // ---------------------------------------------------------------------------
  // Helpers

  /** `decorateIfNotBlank`: `s` between `pre` and `suf`, or nothing when `s`
      is empty; the text can be read back from between the decorations. */
  function DecorateIfNotBlank(s: string, pre: string, suf: string): (r: string)
    ensures r == "" <==> s == ""
    ensures s != "" ==> |r| == |pre| + |s| + |suf| && HasPrefix(r, pre) && HasSuffix(r, suf)
    ensures s != "" ==> r[|pre|..|r| - |suf|] == s
  {
    if s != "" then pre + s + suf else ""
  }

  /** `spaceTrimmings`: the run of ' ' that starts `input` and the run that
      ends it, each rebuilt one space at a time. Each run is as long as it
      can be: the character after (before) it is not a space. */
  method SpaceTrimmings(input: string) returns (ls: string, rs: string)
    ensures AllOf(ls, ' ') && HasPrefix(input, ls) && (|ls| == |input| || input[|ls|] != ' ')
    ensures AllOf(rs, ' ') && HasSuffix(input, rs)
    ensures |rs| == |input| || input[|input| - |rs| - 1] != ' '
  {
    var tlc := TrimLeftChar(input, ' ');
    ls := "";
    for x := 0 to |input| - |tlc|
      invariant |ls| == x && AllOf(ls, ' ')
    {
      ls := ls + " ";
    }
    assert ls == input[..|ls|];
    var trc := TrimRightChar(input, ' ');
    rs := "";
    for x := 0 to |input| - |trc|
      invariant |rs| == x && AllOf(rs, ' ')
    {
      rs := rs + " ";
    }
    assert rs == input[|trc|..];
  }

  // ---------------------------------------------------------------------------
  // Replacing until the pattern is gone

  /** The loops `for strings.Contains(s, pat) { s = strings.Replace(s, pat,
      rep, -1) }`: whole passes of `Replace` until `pat` no longer occurs.
      With a shorter replacement each pass shortens the text, so the loop
      ends, and it ends without `pat`. */
  function Settle(s: string, pat: string, rep: string): (r: string)
    requires |rep| < |pat|
    ensures !Contains(r, pat) && |r| <= |s|
    decreases |s|
  {
    if Contains(s, pat) then
      ReplaceShrinks(s, pat, rep);
      Settle(Replace(s, pat, rep), pat, rep)
    else s
  }

  /** The loop itself. */
  method Settled(s: string, pat: string, rep: string) returns (r: string)
    requires |rep| < |pat|
    ensures r == Settle(s, pat, rep)
  {
    r := s;
    while Contains(r, pat)
      invariant Settle(r, pat, rep) == Settle(s, pat, rep)
      decreases |r|
    {
      ReplaceShrinks(r, pat, rep);
      r := Replace(r, pat, rep);
    }
  }

  /** Settling creates no occurrence of `q` when the replacement does not
      contain `q` and neither starts nor ends with one of its characters. */
  lemma {:induction false} SettleAvoids(s: string, pat: string, rep: string, q: string)
    requires |rep| < |pat| && |rep| > 0 && |q| > 0
    requires !Contains(s, q) && !Contains(rep, q)
    requires rep[0] !in q && rep[|rep| - 1] !in q
    ensures !Contains(Settle(s, pat, rep), q)
    decreases |s|
  {
    if Contains(s, pat) {
      ReplaceShrinks(s, pat, rep);
      ReplaceAvoids(s, pat, rep, q);
      SettleAvoids(Replace(s, pat, rep), pat, rep, q);
    }
  }

  // ---------------------------------------------------------------------------
  // Section headings

  /** The heading marker of a section with `titled` ancestors that have a
      title of their own: "==" and one more '=' per such ancestor, then a
      space; a marker that would be longer than six characters is "." */
  function Marker(titled: nat): string
  {
    if titled + 2 > 6 then "." else Repeat('=', titled + 2) + " "
  }

  /** Markers tell the first five levels apart; all deeper levels share ".". */
  lemma MarkerLevels(m: nat, n: nat)
    ensures Marker(m) == Marker(n) <==> m == n || (m > 4 && n > 4)
    ensures n <= 4 ==> |Marker(n)| == n + 3 && Marker(n)[n + 2] == ' '
  {
    if Marker(m) == Marker(n) && m <= 4 {
      assert |Marker(m)| == |Marker(n)|;
    }
  }

  // ---------------------------------------------------------------------------
  // The line scan of a list item

  /** The fence a list item's text is inside: `open` is the length of the
      delimiter line that opened it (0 when none is open) and `ch` that
      line's first character (`blockDelimLength`, `blockDelimChar`). */
  datatype Fence = Fence(open: nat, ch: char)

  const NoFence := Fence(0, '\0')

  /** A delimiter line: at least four characters, all equal to the first,
      which is one of - = / . + _ * |; a line starting with '|' is compared
      against '=' instead. */
  predicate OpensFence(l: string)
  {
    |l| >= 4 && l[0] in "-=/.+_*|" && AllOf(l, if l[0] == '|' then '=' else l[0])
  }

  /** The fence after line `l`: outside a fence a delimiter line opens one;
      inside, a line as long as the opening one and starting with the same
      character closes it. Blank lines change nothing. */
  function NextFence(f: Fence, l: string): Fence
  {
    if l == "" then f
    else if f.open == 0 then (if OpensFence(l) then Fence(|l|, l[0]) else f)
    else if |l| == f.open && l[0] == f.ch then Fence(0, f.ch)
    else f
  }

  /** The fence after the lines `ls`, starting from `f`. */
  function FenceAfter(ls: seq<string>, f: Fence): Fence
  {
    if ls == [] then f else FenceAfter(ls[1..], NextFence(f, ls[0]))
  }

  /** The line the scan writes for `l` when `f` is open before it: a blank
      line outside a fence becomes "+", AsciiDoc's list continuation. */
  function Marked(f: Fence, l: string): string
  {
    if l == "" && f.open == 0 then "+" else l
  }

  /** The scan's output for the lines `ls` from fence `f` on. */
  function Scan(ls: seq<string>, f: Fence): string
  {
    if ls == [] then "" else Marked(f, ls[0]) + "\n" + Scan(ls[1..], NextFence(f, ls[0]))
  }

  /** A line starting with '|' never opens a fence. */
  lemma PipeNeverOpens(l: string)
    requires |l| >= 4 && l[0] == '|'
    ensures !OpensFence(l)
  {
    assert l[0] != '=';
  }

  /** The scan loop of the list item arm: every line followed by a newline,
      with a "+" written for each blank line while no fence is open. */
  method MarkBlankLines(lines: seq<string>) returns (p: string)
    ensures p == Scan(lines, NoFence)
  {
    p := "";
    var blockDelimLength: nat := 0;
    var blockDelimChar: char := '\0';
    for i := 0 to |lines|
      invariant p + Scan(lines[i..], Fence(blockDelimLength, blockDelimChar)) == Scan(lines, NoFence)
    {
      var l := lines[i];
      ghost var p0, f := p, Fence(blockDelimLength, blockDelimChar);
      if l == "" {
        if blockDelimLength == 0 {
          p := p + "+";
        }
        p := p + "\n";
      } else {
        p := p + l + "\n";
        if blockDelimLength == 0 {
          if |l| >= 4 && l[0] in "-=/.+_*|" {
            var delim := if l[0] == '|' then '=' else l[0];
            var k := 0;
            while k < |l| && l[k] == delim
              invariant 0 <= k <= |l| && AllOf(l[..k], delim)
            {
              k := k + 1;
            }
            if k == |l| {
              assert l[..k] == l;
              blockDelimLength := |l|;
              blockDelimChar := l[0];
            }
          }
        } else if |l| == blockDelimLength && blockDelimChar == l[0] {
          blockDelimLength := 0;
        }
      }
      assert p == p0 + (Marked(f, l) + "\n");
      assert Fence(blockDelimLength, blockDelimChar) == NextFence(f, l);
      ScanStep(lines, i, f, p0);
    }
  }

  /** One step of the scan: the output so far, the piece for line `i`, and
      the scan of the remaining lines. */
  lemma ScanStep(lines: seq<string>, i: nat, f: Fence, p: string)
    requires i < |lines|
    ensures p + Scan(lines[i..], f)
         == (p + (Marked(f, lines[i]) + "\n")) + Scan(lines[i + 1..], NextFence(f, lines[i]))
  {
    assert lines[i..][1..] == lines[i + 1..];
  }

  /** `out` holds the lines `ls` as the scan writes them from fence `f`,
      then an empty piece. */
  predicate ScannedLines(ls: seq<string>, f: Fence, out: seq<string>)
  {
    && |out| == |ls| + 1 && out[|ls|] == ""
    && forall i :: 0 <= i < |ls| ==> out[i] == Marked(FenceAfter(ls[..i], f), ls[i])
  }

  /** Splitting the scan's output at newlines gives the input lines back,
      each blank line outside a fence turned into "+", and an empty piece
      after the final newline. */
  lemma {:induction false} ScanLines(ls: seq<string>, f: Fence)
    requires forall i :: 0 <= i < |ls| ==> '\n' !in ls[i]
    ensures ScannedLines(ls, f, Split(Scan(ls, f), "\n"))
  {
    if ls == [] {
      assert IndexOf("", "\n") < 0;
    } else {
      var f' := NextFence(f, ls[0]);
      var rest := Scan(ls[1..], f');
      ScanLines(ls[1..], f');
      SplitCons(Marked(f, ls[0]), '\n', rest);
      assert Scan(ls, f) == Marked(f, ls[0]) + ['\n'] + rest;
      ScannedCons(ls, f, Split(rest, "\n"));
    }
  }

  /** Helper of ScanLines: the first line in front of the lines after it. */
  lemma ScannedCons(ls: seq<string>, f: Fence, outRest: seq<string>)
    requires ls != [] && ScannedLines(ls[1..], NextFence(f, ls[0]), outRest)
    ensures ScannedLines(ls, f, [Marked(f, ls[0])] + outRest)
  {
    var out := [Marked(f, ls[0])] + outRest;
    forall i | 1 <= i < |ls|
      ensures out[i] == Marked(FenceAfter(ls[..i], f), ls[i])
    {
      assert ls[..i][1..] == ls[1..][..i - 1];
    }
  }

  // ---------------------------------------------------------------------------
  // Index terms

  /** The non-empty strings of `parts`, in order. */
  function NonBlank(parts: seq<string>): seq<string>
  {
    if parts == [] then []
    else (if parts[0] != "" then [parts[0]] else []) + NonBlank(parts[1..])
  }

  /** What `NonBlank` keeps: only non-empty parts, and nothing exactly when
      every part is empty. */
  lemma {:induction false} NonBlankKeeps(parts: seq<string>)
    ensures var r := NonBlank(parts);
      && (forall i :: 0 <= i < |r| ==> r[i] != "" && r[i] in parts)
      && (r == [] <==> forall i :: 0 <= i < |parts| ==> parts[i] == "")
  {
    if parts != [] {
      NonBlankKeeps(parts[1..]);
      var r := NonBlank(parts);
      var rest := NonBlank(parts[1..]);
      forall i | 0 <= i < |r|
        ensures r[i] != "" && r[i] in parts
      {
        if parts[0] == "" || i > 0 {
          var j := if parts[0] == "" then i else i - 1;
          assert r[i] == rest[j];
          assert rest[j] in parts[1..];
        }
      }
      if r == [] {
        forall i | 0 <= i < |parts|
          ensures parts[i] == ""
        {
          if i > 0 {
            assert parts[i] == parts[1..][i - 1];
          }
        }
      }
    }
  }

  /** One `if s != "" { terms = append(terms, s) }` step of the indexterm
      arm: what it appends. */
  function Kept(s: string): (r: seq<string>)
    ensures r == NonBlank([s])
  {
    if s != "" then [s] else []
  }

  /** Appending one more part appends it to the non-empty parts unless it
      is empty. */
  lemma {:induction false} NonBlankSnoc(parts: seq<string>, s: string)
    ensures NonBlank(parts + [s]) == NonBlank(parts) + Kept(s)
  {
    if parts != [] {
      assert (parts + [s])[1..] == parts[1..] + [s];
      NonBlankSnoc(parts[1..], s);
    }
  }

  /** The indexterm arm's macro: the non-empty terms (primary, secondary,
      tertiary, see, seealso) joined by commas, or nothing at all. */
  function IndexTermMacro(terms: seq<string>): string
  {
    var kept := NonBlank(terms);
    if kept == [] then "" else "indexterm:[" + Join(kept, ",") + "]"
  }

  /** The macro is empty exactly when every term is, and otherwise the terms
      can be read back from it, provided none contains a comma. */
  lemma IndexTermRoundTrip(terms: seq<string>)
    requires forall i :: 0 <= i < |terms| ==> ',' !in terms[i]
    ensures var m := IndexTermMacro(terms);
      && (m == "" <==> forall i :: 0 <= i < |terms| ==> terms[i] == "")
      && (m != "" ==> HasPrefix(m, "indexterm:[") && HasSuffix(m, "]")
                      && Split(m[11..|m| - 1], ",") == NonBlank(terms))
  {
    var kept := NonBlank(terms);
    NonBlankKeeps(terms);
    if kept != [] {
      var m := IndexTermMacro(terms);
      assert m[11..|m| - 1] == Join(kept, ",");
      JoinSplit(kept, ',');
    }
  }

  // ---------------------------------------------------------------------------
  // Entities

  /** One `Replace` pass per key of `order`, in that order: each reference
      "&k;" becomes `values[k]`. */
  function Expand(s: string, order: seq<string>, values: map<string, string>): string
    requires forall k :: k in order ==> k in values
    decreases order
  {
    if order == [] then s
    else Expand(Replace(s, "&" + order[0] + ";", values[order[0]]), order[1..], values)
  }

  /** The entity loop of the ENTITY arm, taking the keys in `order`. */
  method ExpandEntities(s: string, order: seq<string>, values: map<string, string>) returns (r: string)
    requires forall k :: k in order ==> k in values
    ensures r == Expand(s, order, values)
  {
    r := s;
    for i := 0 to |order|
      invariant Expand(r, order[i..], values) == Expand(s, order, values)
    {
      assert order[i..][1..] == order[i + 1..];
      r := Replace(r, "&" + order[i] + ";", values[order[i]]);
    }
    assert order[|order|..] == [];
  }

  /** Text with no '&' holds no entity reference and is left as it is, in
      whichever order the keys are taken. */
  lemma {:induction false} ExpandPlain(s: string, order: seq<string>, values: map<string, string>)
    requires forall k :: k in order ==> k in values
    requires '&' !in s
    ensures Expand(s, order, values) == s
    decreases order
  {
    if order != [] {
      RefNeedsAmpersand(s, order[0]);
      ReplaceAbsent(s, "&" + order[0] + ";", values[order[0]]);
      ExpandPlain(s, order[1..], values);
    }
  }

  /** An entity reference starts with '&'. */
  lemma RefNeedsAmpersand(s: string, k: string)
    requires '&' !in s
    ensures !Contains(s, "&" + k + ";")
  {
    var q := "&" + k + ";";
    forall j | 0 <= j && j + |q| <= |s| ensures !OccursAt(s, q, j) {
      assert s[j..j + |q|][0] == s[j];
    }
  }

  /** The passes create no `q` when no value contains `q` or starts or ends
      with one of its characters. */
  lemma {:induction false} ExpandAvoids(s: string, order: seq<string>, values: map<string, string>, q: string)
    requires forall k :: k in order ==> k in values
    requires |q| > 0 && !Contains(s, q)
    requires forall k :: k in order ==> SafeValue(values[k], q)
    ensures !Contains(Expand(s, order, values), q)
    decreases order
  {
    if order != [] {
      ReplaceAvoids(s, "&" + order[0] + ";", values[order[0]], q);
      ExpandAvoids(Replace(s, "&" + order[0] + ";", values[order[0]]), order[1..], values, q);
    }
  }

  /** `v` is non-empty, contains no `q`, and neither starts nor ends with a
      character of `q`. */
  predicate SafeValue(v: string, q: string)
  {
    |v| > 0 && !Contains(v, q) && v[0] !in q && v[|v| - 1] !in q
  }

  // ---------------------------------------------------------------------------
  // The normaliser

  /** The empty passthrough the quoting arms put around a quote. */
  const Blank := "pass:attributes[{blank}]"

  /** The characters next to which the passthrough is dropped. */
  const Delimiters := " ,.!?-\n()|"

  /** For each delimiter in turn, the passthrough is dropped before it and
      then after it. */
  function DropBlanks(d: string, delims: string): string
    decreases delims
  {
    if delims == [] then d
    else
      var c := [delims[0]];
      DropBlanks(Replace(Replace(d, Blank + c, c), c + Blank, c), delims[1..])
  }

  /** Entity `k` becomes the attribute reference "{k}". */
  function Braces(keys: seq<string>): map<string, string>
  {
    map k | k in keys :: "{" + k + "}"
  }

  /** One output file after the normaliser, with the entity keys taken in
      `keys`: "``" split apart, the passthrough dropped next to delimiters
      and before ':', entity references turned into attribute references,
      runs of blank lines cut to one, and white space trimmed. */
  function Normalised(d: string, keys: seq<string>): string
  {
    TrimSpace(Settle(Expand(Unblanked(d), keys, Braces(keys)), "\n\n\n", "\n\n"))
  }

  /** The passes before entities are rewritten. */
  function Unblanked(d: string): string
  {
    Replace(DropBlanks(Replace(d, "``", "` `"), Delimiters), Blank + ":", ":")
  }

  /** The normaliser's loops for one file. */
  method Normalise(d: string, keys: seq<string>) returns (r: string)
    ensures r == Normalised(d, keys)
  {
    r := Replace(d, "``", "` `");
    ghost var ticks := r;
    for i := 0 to |Delimiters|
      invariant DropBlanks(r, Delimiters[i..]) == DropBlanks(ticks, Delimiters)
    {
      assert Delimiters[i..][1..] == Delimiters[i + 1..];
      var c := [Delimiters[i]];
      r := Replace(r, Blank + c, c);
      r := Replace(r, c + Blank, c);
    }
    assert Delimiters[|Delimiters|..] == [];
    r := Replace(r, Blank + ":", ":");
    r := ExpandEntities(r, keys, Braces(keys));
    r := Settled(r, "\n\n\n", "\n\n");
    r := TrimSpace(r);
  }

  /** No run of three newlines and no white space at either end. */
  predicate TidyFile(r: string)
  {
    && !Contains(r, "\n\n\n")
    && (r == "" || (!IsSpace(r[0]) && !IsSpace(r[|r| - 1])))
  }

  /** A normalised file is tidy. */
  lemma NormalisedTidy(d: string, keys: seq<string>)
    ensures TidyFile(Normalised(d, keys))
  {
    var s := Settle(Expand(Unblanked(d), keys, Braces(keys)), "\n\n\n", "\n\n");
    TrimAvoids(s, "\n\n\n");
    TrimSpaceParts(s);
  }

  /** Trimming creates no occurrence of `q`. */
  lemma TrimAvoids(s: string, q: string)
    requires !Contains(s, q)
    ensures !Contains(TrimSpace(s), q)
  {
    TrimSpaceParts(s);
    var r, i := TrimSpace(s), |s| - |TrimLeftSpace(s)|;
    SliceAvoids(s, q, i, i + |r|);
  }

  /** An entity name with none of the characters that could hide or forge
      a reference to it. */
  predicate PlainName(e: string)
  {
    '&' !in e && '{' !in e && '}' !in e && '\n' !in e
  }

  /** Every reference "&e;" to an entity key `e` is gone from a normalised
      file, whichever order the keys are taken in, provided `e` is a plain
      name and no key contains '&'. */
  lemma NormalisedRewritesEntities(d: string, keys: seq<string>, e: string)
    requires e in keys && PlainName(e)
    requires forall k :: k in keys ==> '&' !in k
    ensures !Contains(Normalised(d, keys), "&" + e + ";")
  {
    ExpandedRemoves(Unblanked(d), keys, e);
    TidyAvoids(Expand(Unblanked(d), keys, Braces(keys)), e);
  }

  /** Helper of NormalisedRewritesEntities: the entity passes. */
  lemma ExpandedRemoves(u: string, keys: seq<string>, e: string)
    requires e in keys && PlainName(e)
    requires forall k :: k in keys ==> '&' !in k
    ensures !Contains(Expand(u, keys, Braces(keys)), "&" + e + ";")
  {
    var values := Braces(keys);
    assert forall k :: k in keys ==> k in values && values[k] == "{" + k + "}";
    ExpandRemoves(u, keys, values, e);
  }



  /** Helper of NormalisedRewritesEntities: cutting runs of blank lines and
      trimming create no reference to `e`. */
  lemma TidyAvoids(x: string, e: string)
    requires PlainName(e) && !Contains(x, "&" + e + ";")
    ensures !Contains(TrimSpace(Settle(x, "\n\n\n", "\n\n")), "&" + e + ";")
  {
    var q := "&" + e + ";";
    MissingChar("\n\n", q, 0);
    SettleAvoids(x, "\n\n\n", "\n\n", q);
    TrimAvoids(Settle(x, "\n\n\n", "\n\n"), q);
  }


  /** Helper of NormalisedRewritesEntities: the pass for `e` removes every
      "&e;" and the passes after it create none. */
  lemma {:induction false} ExpandRemoves(s: string, keys: seq<string>, values: map<string, string>, e: string)
    requires e in keys && PlainName(e)
    requires forall k :: k in keys ==> '&' !in k && k in values && values[k] == "{" + k + "}"
    ensures !Contains(Expand(s, keys, values), "&" + e + ";")
    decreases keys
  {
    var q := "&" + e + ";";
    var s' := Replace(s, "&" + keys[0] + ";", values[keys[0]]);
    if keys[0] == e {
      ReplaceRemovesAll(s, q, values[e]);
      forall k | k in keys[1..] ensures SafeValue(values[k], q) {
        RefNeedsAmpersand(values[k], e);
      }
      ExpandAvoids(s', keys[1..], values, q);
    } else {
      ExpandRemoves(s', keys[1..], values, e);
    }
  }

  /** The normaliser is not idempotent: "```" becomes "` ``", which a second
      run would turn into "` ` `". */
  lemma NormaliserNotIdempotent()
    ensures Normalised("```", []) == "` ``"
    ensures Normalised("` ``", []) == "` ` `"
  {
    FirstRun();
    SecondRun();
  }

  /** Helper of NormaliserNotIdempotent: the first run. */
  lemma FirstRun()
    ensures Normalised("```", []) == "` ``"
  {
    var pat, rep := "``", "` `";
    ReplaceUnfold("`", pat, rep);
    ReplaceUnfold("```", pat, rep);
    assert "```"[2..] == "`";
    NormalisedLiteral("```", "` ``");
  }

  /** Helper of NormaliserNotIdempotent: the second run. */
  lemma SecondRun()
    ensures Normalised("` ``", []) == "` ` `"
  {
    var pat, rep := "``", "` `";
    ReplaceUnfold("``", pat, rep);
    ReplaceUnfold(" ``", pat, rep);
    ReplaceUnfold("` ``", pat, rep);
    assert "` ``"[1..] == " ``" && " ``"[1..] == "``" && "``"[2..] == "";
    NormalisedLiteral("` ``", "` ` `");
  }

  /** Helper of NormaliserNotIdempotent: one step of `Replace`. */
  lemma ReplaceUnfold(s: string, pat: string, rep: string)
    requires |pat| > 0 && s != []
    ensures HasPrefix(s, pat) ==> Replace(s, pat, rep) == rep + Replace(s[|pat|..], pat, rep)
    ensures !HasPrefix(s, pat) ==> Replace(s, pat, rep) == [s[0]] + Replace(s[1..], pat, rep)
  {
  }

  /** Helper of NormaliserNotIdempotent: a text without 'p' or newlines and
      with no space at its ends is only touched by the first pass. */
  lemma NormalisedLiteral(d: string, t: string)
    requires t == Replace(d, "``", "` `")
    requires 'p' !in t && '\n' !in t
    requires t != [] && !IsSpace(t[0]) && !IsSpace(t[|t| - 1])
    ensures Normalised(d, []) == t
  {
    DropBlanksPlain(t, Delimiters);
    MissingChar(t, Blank + ":", 0);
    ReplaceAbsent(t, Blank + ":", ":");
    MissingChar(t, "\n\n\n", 0);
    assert Settle(t, "\n\n\n", "\n\n") == t;
    TrimmedKept(t);
  }

  /** A text with no white space at either end is its own trimming. */
  lemma TrimmedKept(t: string)
    requires t != [] && !IsSpace(t[0]) && !IsSpace(t[|t| - 1])
    ensures TrimSpace(t) == t
  {
    assert TrimLeftSpace(t) == t;
  }

  /** Text without 'p' holds no passthrough, so dropping it changes nothing. */
  lemma {:induction false} DropBlanksPlain(d: string, delims: string)
    requires 'p' !in d
    ensures DropBlanks(d, delims) == d
    decreases delims
  {
    if delims != [] {
      var c := [delims[0]];
      MissingChar(d, Blank + c, 0);
      ReplaceAbsent(d, Blank + c, c);
      MissingChar(d, c + Blank, 1);
      ReplaceAbsent(d, c + Blank, c);
      DropBlanksPlain(d, delims[1..]);
    }
  }

  /** A text lacking one of the pattern's characters does not contain it. */
  lemma MissingChar(s: string, pat: string, i: int)
    requires 0 <= i < |pat| && pat[i] !in s
    ensures !Contains(s, pat)
  {
    forall j | 0 <= j && j + |pat| <= |s| ensures !OccursAt(s, pat, j) {
      assert s[j..j + |pat|][i] == s[j + i];
    }
  }
}
