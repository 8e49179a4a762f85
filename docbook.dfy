/*
 * The string helpers of the DocBook reader (docBook/docbook.go):
 * `findBetween`, the `condition` attribute test `ConditionsMatch`, and the
 * line loop of `NewFromPublicanCfg` that turns the text of a publican.cfg
 * file into a key/value map.
 */
module DocBook {
  import opened Strings
  import opened Wrappers

  // ---------------------------------------------------------------------------
  // findBetween

  /** The text between the first occurrence of `a` and the first occurrence of
      `b` after it; "" when either is missing. */
  function FindBetween(s: string, a: string, b: string): string
    requires |a| > 0 && |b| > 0
  {
    var aSplit := SplitFirst(s, a);
    if |aSplit| == 2 then
      var bSplit := SplitFirst(aSplit[1], b);
      if |bSplit| == 2 then bSplit[0] else ""
    else ""
  }

  /** No occurrence of `sub` starts before position `n` of `s`. */
  predicate NoneBefore(s: string, sub: string, n: int) {
    forall j :: 0 <= j < n ==> !OccursAt(s, sub, j)
  }

  /** Where `a` occurs at all, the part of `s` after its first occurrence. */
  function AfterFirst(s: string, a: string): string
    requires |a| > 0 && Contains(s, a)
  {
    SplitFirst(s, a)[1]
  }

  /** The result is "" unless `a` occurs in `s` and `b` occurs after that first
      `a`. */
  lemma FindBetweenMissing(s: string, a: string, b: string)
    requires |a| > 0 && |b| > 0
    requires !Contains(s, a) || !Contains(AfterFirst(s, a), b)
    ensures FindBetween(s, a, b) == ""
  {
  }

  /** `s` is `x + a + r + b + y` where `a` first occurs right after `x` and
      `b` first occurs (in what follows that `a`) right after `r`. */
  predicate Between(s: string, x: string, a: string, r: string, b: string, y: string) {
    s == x + a + r + b + y && !Contains(x, a) && !Contains(r, b)
    && NoneBefore(s, a, |x|) && NoneBefore(r + b + y, b, |r|)
  }

  /** When both delimiters are found, the result is what lies between them. */
  lemma FindBetweenDecomposes(s: string, a: string, b: string)
    requires |a| > 0 && |b| > 0
    requires Contains(s, a) && Contains(AfterFirst(s, a), b)
    ensures exists x, y :: Between(s, x, a, FindBetween(s, a, b), b, y)
  {
    var x, rest := FirstCut(s, a);
    var r, y := FirstCut(rest, b);
    assert FindBetween(s, a, b) == r;
    Regroup(x, a, r, b, y);
    assert Between(s, x, a, r, b, y);
  }

  /** Concatenation regrouped. */
  lemma Regroup(x: string, a: string, r: string, b: string, y: string)
    ensures x + a + (r + b + y) == x + a + r + b + y
  {
  }

  /** Cutting `s` at the first occurrence of `sub`: what comes before it
      holds no occurrence, and no occurrence starts earlier. */
  lemma FirstCut(s: string, sub: string) returns (before: string, after: string)
    requires |sub| > 0 && Contains(s, sub)
    ensures SplitFirst(s, sub) == [before, after]
    ensures s == before + sub + after
    ensures !Contains(before, sub) && NoneBefore(s, sub, |before|)
  {
    var i := IndexOf(s, sub);
    before, after := s[..i], s[i + |sub|..];
    CutAround(s, i, |sub|);
    NoneBeforeFirst(s, sub, i);
  }

  /** Conversely, any such decomposition of `s` determines the result. */
  lemma FindBetweenOfParts(s: string, x: string, a: string, m: string, b: string, y: string)
    requires |a| > 0 && |b| > 0
    requires Between(s, x, a, m, b, y)
    ensures FindBetween(s, a, b) == m
  {
    var rest := m + b + y;
    assert s == x + a + rest;
    FirstAt(x, a, rest, s);
    FirstAt(m, b, y, rest);
    assert s[|x| + |a|..] == rest;
    assert rest[..|m|] == m;
  }

  /** The first occurrence of `sub` in `s == x + sub + y` is right after `x`
      when none starts earlier. */
  lemma FirstAt(x: string, sub: string, y: string, s: string)
    requires s == x + sub + y && NoneBefore(s, sub, |x|)
    ensures IndexOf(s, sub) == |x|
  {
    assert s[|x|..|x| + |sub|] == sub;
    assert OccursAt(s, sub, |x|);
  }

  // ---------------------------------------------------------------------------
  // ConditionsMatch

  /** The whitespace-trimmed `;`-separated tokens of a condition list. */
  function Tokens(conditions: string): seq<string>
  {
    Trimmed(Split(conditions, ";"))
  }

  /** Every piece with its surrounding white space removed. */
  function Trimmed(parts: seq<string>): (r: seq<string>)
    ensures |r| == |parts|
    ensures forall i :: 0 <= i < |parts| ==> r[i] == TrimSpace(parts[i])
  {
    seq(|parts|, i requires 0 <= i < |parts| => TrimSpace(parts[i]))
  }

  /** A chunk condition matches when it is empty or shares a token with the
      document's conditions (compared exactly, case included). */
  predicate Matches(docConditions: string, chunkCondition: string) {
    chunkCondition == "" || exists t :: t in Tokens(docConditions) && t in Tokens(chunkCondition)
  }

  /** The nested token loops of `ConditionsMatch`. */
  method ConditionsMatch(docConditions: string, chunkCondition: string) returns (r: bool)
    ensures r <==> Matches(docConditions, chunkCondition)
  {
    if chunkCondition == "" {
      return true;
    }
    var ds := Split(docConditions, ";");
    ghost var dts, cts := Trimmed(ds), Tokens(chunkCondition);
    for i := 0 to |ds|
      invariant forall k :: 0 <= k < i ==> dts[k] !in cts
    {
      var d := TrimSpace(ds[i]);
      var cs := Split(chunkCondition, ";");
      for j := 0 to |cs|
        invariant forall k :: 0 <= k < j ==> cts[k] != d
      {
        var c := TrimSpace(cs[j]);
        if c == d {
          assert dts[i] in dts && cts[j] in cts;
          return true;
        }
      }
    }
    return false;
  }

  /** An empty chunk condition always matches. */
  lemma EmptyConditionMatches(docConditions: string)
    ensures Matches(docConditions, "")
  {
  }

  /** Every condition list matches itself: it has at least one token. */
  lemma {:induction false} MatchesItself(c: string)
    ensures Matches(c, c)
  {
    var t := Tokens(c);
    assert t[0] in t;
  }

  /** Apart from the empty-condition case the test is symmetric. */
  lemma MatchesSymmetric(d: string, c: string)
    requires d != "" && c != ""
    ensures Matches(d, c) <==> Matches(c, d)
  {
  }

  /** A document condition without `;` is a single token, so the chunk
      matches exactly when one of its tokens is that condition trimmed. */
  lemma SingleDocCondition(d: string, c: string)
    requires c != "" && !Contains(d, ";")
    ensures Matches(d, c) <==> TrimSpace(d) in Tokens(c)
  {
    assert Split(d, ";") == [d] by { assert IndexOf(d, ";") < 0; }
    assert Tokens(d) == [TrimSpace(d)];
  }

  /** A chunk condition list with an empty entry, such as "a;", matches every
      document whose conditions are not set. */
  lemma EmptyTokenMatchesUnset(c: string)
    requires c != "" && "" in Tokens(c)
    ensures Matches("", c)
  {
    assert Split("", ";") == [""] by { assert IndexOf("", ";") < 0; }
    assert Tokens("") == [""];
  }

  // ---------------------------------------------------------------------------
  // publican.cfg

  /** The line with every double quote removed. */
  function Unquote(line: string): string {
    Replace(line, "\"", "")
  }

  /** The key/value pair a line contributes, if it has a colon (after quotes
      are removed): both halves of the first split at ':' trimmed. */
  function Entry(line: string): Option<(string, string)> {
    var parts := SplitFirst(Unquote(line), ":");
    if |parts| == 2 then Some((TrimSpace(parts[0]), TrimSpace(parts[1]))) else None
  }

  /** The entries the lines contribute, line by line. */
  function EntriesOf(lines: seq<string>): (r: seq<Option<(string, string)>>)
    ensures |r| == |lines|
  {
    seq(|lines|, i requires 0 <= i < |lines| => Entry(lines[i]))
  }

  /** The map a sequence of entries builds, each later entry overriding
      earlier ones for the same key. */
  function Assign(es: seq<Option<(string, string)>>): map<string, string>
  {
    if es == [] then map[]
    else
      var m := Assign(es[..|es| - 1]);
      match es[|es| - 1]
      case Some(kv) => m[kv.0 := kv.1]
      case None => m
  }

  /** The map the lines of a publican.cfg file build. */
  function ConfigOf(lines: seq<string>): map<string, string>
  {
    Assign(EntriesOf(lines))
  }

  /** The line loop over the file text: `None` (Go's nil document) when no
      `xml_lang` key was read, otherwise the map read. */
  method ParsePublicanCfg(text: string) returns (cfg: Option<map<string, string>>)
    ensures cfg.None? <==> "xml_lang" !in ConfigOf(Split(text, "\n"))
    ensures cfg.Some? ==> cfg.value == ConfigOf(Split(text, "\n"))
  {
    var lines := Split(text, "\n");
    ghost var es := EntriesOf(lines);
    var m: map<string, string> := map[];
    for i := 0 to |lines|
      invariant m == Assign(es[..i])
    {
      ghost var before := m;
      var l := Replace(lines[i], "\"", "");
      var lSplit := SplitFirst(l, ":");
      if |lSplit| == 2 {
        m := m[TrimSpace(lSplit[0]) := TrimSpace(lSplit[1])];
      }
      AssignStep(es, i, before, m);
    }
    assert es[..|lines|] == es;
    if "xml_lang" !in m {
      return None;
    }
    return Some(m);
  }

  /** One step of the line loop. */
  lemma AssignStep(es: seq<Option<(string, string)>>, i: int, before: map<string, string>, after: map<string, string>)
    requires 0 <= i < |es| && before == Assign(es[..i])
    requires es[i].None? ==> after == before
    requires es[i].Some? ==> after == before[es[i].value.0 := es[i].value.1]
    ensures after == Assign(es[..i + 1])
  {
    assert es[..i + 1][..i] == es[..i];
  }

  /** The entry gives key `k`. */
  predicate Gives(e: Option<(string, string)>, k: string) {
    e.Some? && e.value.0 == k
  }

  /** What the last entry does to key `k`. */
  lemma AssignLast(es: seq<Option<(string, string)>>, k: string)
    requires es != []
    ensures var init, last := Assign(es[..|es| - 1]), es[|es| - 1];
      && (k in Assign(es) <==> k in init || Gives(last, k))
      && (Gives(last, k) ==> Assign(es)[k] == last.value.1)
      && (!Gives(last, k) && k in init ==> Assign(es)[k] == init[k])
  {
  }

  /** A key is assigned exactly when some entry gives it. */
  lemma {:induction false} AssignKeys(es: seq<Option<(string, string)>>, k: string)
    ensures k in Assign(es) <==> exists i :: 0 <= i < |es| && Gives(es[i], k)
    decreases |es|
  {
    if es != [] {
      var n := |es| - 1;
      AssignKeys(es[..n], k);
      AssignLast(es, k);
      assert forall i :: 0 <= i < n ==> es[..n][i] == es[i];
    }
  }

  /** The value assigned to a key is the one of the last entry giving it. */
  lemma {:induction false} AssignLastWins(es: seq<Option<(string, string)>>, i: int, k: string)
    requires 0 <= i < |es| && Gives(es[i], k)
    requires forall j :: i < j < |es| ==> !Gives(es[j], k)
    ensures k in Assign(es) && Assign(es)[k] == es[i].value.1
    decreases |es|
  {
    var n := |es| - 1;
    AssignLast(es, k);
    if i < n {
      AssignLastWins(es[..n], i, k);
    }
  }

  /** Every assigned value comes from an entry for its key. */
  lemma {:induction false} AssignFromEntries(es: seq<Option<(string, string)>>, k: string)
    requires k in Assign(es)
    ensures exists i :: 0 <= i < |es| && es[i] == Some((k, Assign(es)[k]))
    decreases |es|
  {
    var n := |es| - 1;
    AssignLast(es, k);
    if !Gives(es[n], k) {
      AssignFromEntries(es[..n], k);
      var i :| 0 <= i < n && es[..n][i] == Some((k, Assign(es[..n])[k]));
      assert es[i] == Some((k, Assign(es)[k]));
    }
  }

  /** A line without a colon leaves the map as it was. */
  lemma LineWithoutColonIgnored(lines: seq<string>, line: string)
    requires !Contains(Unquote(line), ":")
    ensures ConfigOf(lines + [line]) == ConfigOf(lines)
  {
    assert EntriesOf(lines + [line])[..|lines|] == EntriesOf(lines);
  }

  /** A key is read exactly when some line contributes it. */
  lemma ConfigKeys(lines: seq<string>, k: string)
    ensures k in ConfigOf(lines) <==> exists i :: 0 <= i < |lines| && Gives(Entry(lines[i]), k)
  {
    var es := EntriesOf(lines);
    AssignKeys(es, k);
    assert forall i :: 0 <= i < |lines| ==> (Gives(es[i], k) <==> Gives(Entry(lines[i]), k));
  }

  /** The value read for a key is the one given by the last line that
      contributes that key: later lines override earlier ones. */
  lemma ConfigLastWins(lines: seq<string>, i: int, k: string)
    requires 0 <= i < |lines| && Gives(Entry(lines[i]), k)
    requires forall j :: i < j < |lines| ==> !Gives(Entry(lines[j]), k)
    ensures k in ConfigOf(lines) && ConfigOf(lines)[k] == Entry(lines[i]).value.1
  {
    AssignLastWins(EntriesOf(lines), i, k);
  }

  /** Read keys and values never hold a double quote. */
  lemma ConfigUnquoted(lines: seq<string>, k: string)
    requires k in ConfigOf(lines)
    ensures '"' !in k && '"' !in ConfigOf(lines)[k]
  {
    AssignFromEntries(EntriesOf(lines), k);
    var i :| 0 <= i < |lines| && EntriesOf(lines)[i] == Some((k, ConfigOf(lines)[k]));
    EntryUnquoted(lines[i]);
  }

  /** A line's key and value hold no double quote. */
  lemma EntryUnquoted(line: string)
    requires Entry(line).Some?
    ensures '"' !in Entry(line).value.0 && '"' !in Entry(line).value.1
  {
    var u := Unquote(line);
    UnquoteRemoves(line);
    var parts := SplitFirst(u, ":");
    SplitFirstParts(u, ":");
    assert u == parts[0] + ":" + parts[1];
    TrimmedWithin(parts[0], '"');
    TrimmedWithin(parts[1], '"');
  }

  /** Removing every double quote leaves none. */
  lemma {:induction false} UnquoteRemoves(line: string)
    ensures '"' !in Unquote(line)
    decreases |line|
  {
    if line != [] {
      UnquoteRemoves(line[1..]);
      if !HasPrefix(line, "\"") {
        assert line[..1] == [line[0]];
      }
    }
  }

  /** Trimming only drops characters. */
  lemma TrimmedWithin(s: string, ch: char)
    ensures ch in TrimSpace(s) ==> ch in s
  {
    TrimSpaceParts(s);
    var r, i := TrimSpace(s), |s| - |TrimLeftSpace(s)|;
    if ch in r {
      var k :| 0 <= k < |r| && r[k] == ch;
      assert s[i + k] == ch;
    }
  }
}
