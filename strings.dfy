/**
 * The parts of Go's `strings` and `strconv` packages the converter relies on,
 * written as functions over `string` (a sequence of Unicode scalar values).
 * Each is specified by what it computes, independently of how it scans.
 */
module Strings {

  /** Go's `unicode.IsSpace`: the ASCII white space characters, NEL, NBSP
      and the Unicode space separators. */
  predicate IsSpace(ch: char) {
    ch == ' ' || ('\t' <= ch <= '\r') || ch == '\U{85}' || ch == '\U{A0}' ||
    ch == '\U{1680}' || ('\U{2000}' <= ch <= '\U{200A}') || ch == '\U{2028}' ||
    ch == '\U{2029}' || ch == '\U{202F}' || ch == '\U{205F}' || ch == '\U{3000}'
  }

  predicate AllSpace(s: string) {
    forall i :: 0 <= i < |s| ==> IsSpace(s[i])
  }

  /** `s` consists of `n` copies of the character `ch`. */
  predicate AllOf(s: string, ch: char) {
    forall i :: 0 <= i < |s| ==> s[i] == ch
  }

  // ---------------------------------------------------------------------------
  // Searching

  /** `sub` occurs in `s` starting at index `i`. */
  predicate OccursAt(s: string, sub: string, i: int) {
    0 <= i && i + |sub| <= |s| && s[i..i + |sub|] == sub
  }

  predicate HasPrefix(s: string, prefix: string) {
    |prefix| <= |s| && s[..|prefix|] == prefix
  }

  predicate HasSuffix(s: string, suffix: string) {
    |suffix| <= |s| && s[|s| - |suffix|..] == suffix
  }

  lemma OccursShift(s: string, sub: string, j: int)
    requires |s| > 0 && 0 <= j
    ensures OccursAt(s[1..], sub, j) <==> OccursAt(s, sub, j + 1)
  {
    if j + |sub| <= |s| - 1 {
      assert s[1..][j..j + |sub|] == s[j + 1..j + 1 + |sub|];
    }
  }

  /** Go's `strings.Index`: the first index at which `sub` occurs, or -1. */
  function IndexOf(s: string, sub: string): (r: int)
    ensures -1 <= r <= |s|
    ensures r >= 0 ==> OccursAt(s, sub, r)
    ensures r >= 0 ==> forall j :: 0 <= j < r ==> !OccursAt(s, sub, j)
    ensures r < 0 ==> forall j :: !OccursAt(s, sub, j)
    decreases |s|
  {
    if HasPrefix(s, sub) then
      assert s[0..|sub|] == sub;
      0
    else if s == [] then
      -1
    else
      var k := IndexOf(s[1..], sub);
      assert !OccursAt(s, sub, 0);
      forall j | 1 <= j ensures OccursAt(s, sub, j) <==> OccursAt(s[1..], sub, j - 1) {
        OccursShift(s, sub, j - 1);
      }
      if k < 0 then -1 else k + 1
  }

  /** Go's `strings.Contains`. */
  predicate Contains(s: string, sub: string) {
    IndexOf(s, sub) >= 0
  }

  lemma ContainsIff(s: string, sub: string)
    ensures Contains(s, sub) <==> exists j :: OccursAt(s, sub, j)
  {
  }

  // ---------------------------------------------------------------------------
  // Trimming

  /** Go's `strings.TrimLeft(s, cut)` for a one-character cutset. */
  function TrimLeftChar(s: string, ch: char): (r: string)
    ensures |r| <= |s| && r == s[|s| - |r|..]
    ensures AllOf(s[..|s| - |r|], ch)
    ensures r == [] || r[0] != ch
    decreases |s|
  {
    if s != [] && s[0] == ch then
      var r := TrimLeftChar(s[1..], ch);
      assert s[..|s| - |r|] == [s[0]] + s[1..][..|s| - 1 - |r|];
      r
    else s
  }

  /** Go's `strings.TrimRight(s, cut)` for a one-character cutset. */
  function TrimRightChar(s: string, ch: char): (r: string)
    ensures |r| <= |s| && r == s[..|r|]
    ensures AllOf(s[|r|..], ch)
    ensures r == [] || r[|r| - 1] != ch
    decreases |s|
  {
    if s != [] && s[|s| - 1] == ch then
      var r := TrimRightChar(s[..|s| - 1], ch);
      assert s[|r|..] == s[..|s| - 1][|r|..] + [s[|s| - 1]];
      r
    else s
  }

  /** `s` without its leading white space. */
  function TrimLeftSpace(s: string): string
    decreases |s|
  {
    if s != [] && IsSpace(s[0]) then TrimLeftSpace(s[1..]) else s
  }

  /** `s` without its trailing white space. */
  function TrimRightSpace(s: string): string
    decreases |s|
  {
    if s != [] && IsSpace(s[|s| - 1]) then TrimRightSpace(s[..|s| - 1]) else s
  }

  /** Left trimming drops a white-space prefix and stops at a non-space. */
  lemma {:induction false} TrimLeftSpaceParts(s: string)
    ensures var r := TrimLeftSpace(s);
      && |r| <= |s| && r == s[|s| - |r|..]
      && AllSpace(s[..|s| - |r|])
      && (r == [] || !IsSpace(r[0]))
    decreases |s|
  {
    if s != [] && IsSpace(s[0]) {
      TrimLeftSpaceParts(s[1..]);
      var r := TrimLeftSpace(s[1..]);
      assert s[..|s| - |r|] == [s[0]] + s[1..][..|s| - 1 - |r|];
    }
  }

  /** Right trimming drops a white-space suffix and stops at a non-space. */
  lemma {:induction false} TrimRightSpaceParts(s: string)
    ensures var r := TrimRightSpace(s);
      && |r| <= |s| && r == s[..|r|]
      && AllSpace(s[|r|..])
      && (r == [] || !IsSpace(r[|r| - 1]))
    decreases |s|
  {
    if s != [] && IsSpace(s[|s| - 1]) {
      TrimRightSpaceParts(s[..|s| - 1]);
      var r := TrimRightSpace(s[..|s| - 1]);
      assert s[|r|..] == s[..|s| - 1][|r|..] + [s[|s| - 1]];
    }
  }

  /** Go's `strings.TrimSpace`: `s` without its leading and trailing white
      space (see `TrimSpaceParts`). */
  function TrimSpace(s: string): string
  {
    TrimRightSpace(TrimLeftSpace(s))
  }

  /** `s` is white space, then the trimmed string, then white space, and the
      trimmed string neither starts nor ends with white space. */
  lemma {:induction false} TrimSpaceParts(s: string)
    ensures var r, i := TrimSpace(s), |s| - |TrimLeftSpace(s)|;
      && 0 <= i && i + |r| <= |s| && r == s[i..i + |r|]
      && AllSpace(s[..i]) && AllSpace(s[i + |r|..])
      && (r == [] || (!IsSpace(r[0]) && !IsSpace(r[|r| - 1])))
  {
    var l := TrimLeftSpace(s);
    var r := TrimRightSpace(l);
    var i := |s| - |l|;
    assert r == TrimSpace(s);
    TrimLeftSpaceParts(s);
    TrimRightSpaceParts(l);
    assert l == s[i..];
    assert r == l[..|r|];
    assert r == s[i..i + |r|];
    assert s[i + |r|..] == l[|r|..];
  }

  // ---------------------------------------------------------------------------
  // Replacing

  /** Go's `strings.Replace(s, pat, rep, -1)` for a non-empty pattern:
      occurrences are replaced left to right, without overlapping. */
  function Replace(s: string, pat: string, rep: string): (r: string)
    requires |pat| > 0
    decreases |s|
  {
    if s == [] then []
    else if HasPrefix(s, pat) then rep + Replace(s[|pat|..], pat, rep)
    else [s[0]] + Replace(s[1..], pat, rep)
  }

  /** A string without the pattern comes back unchanged. */
  lemma {:induction false} ReplaceAbsent(s: string, pat: string, rep: string)
    requires |pat| > 0
    requires !Contains(s, pat)
    ensures Replace(s, pat, rep) == s
    decreases |s|
  {
    if s != [] {
      assert !OccursAt(s, pat, 0);
      assert !HasPrefix(s, pat);
      forall j | 0 <= j ensures !OccursAt(s[1..], pat, j) {
        OccursShift(s, pat, j);
      }
      ReplaceAbsent(s[1..], pat, rep);
    }
  }

  /** The text kept in front of the first replacement: when the replaced
      text starts with `w`, and no character of `w` can start the
      replacement, the original text starts with `w`. */
  lemma {:induction false} KeptPrefix(t: string, pat: string, rep: string, w: string)
    requires |pat| > 0 && |rep| > 0
    requires forall i :: 0 <= i < |w| ==> w[i] != rep[0]
    requires HasPrefix(Replace(t, pat, rep), w)
    ensures HasPrefix(t, w)
    decreases |w|
  {
    if w != [] {
      var r := Replace(t, pat, rep);
      assert r[0] == w[0];
      assert t != [] && !HasPrefix(t, pat);
      assert r == [t[0]] + Replace(t[1..], pat, rep);
      assert Replace(t[1..], pat, rep)[..|w| - 1] == r[1..|w|];
      KeptPrefix(t[1..], pat, rep, w[1..]);
    }
  }

  /** A pass of `Replace` leaves no occurrence of its pattern, provided the
      pattern's first character does not recur in the pattern or in the
      (non-empty) replacement, and the replacement's first character is not
      in the pattern: with `pat == "&" + e + ";"` and `rep == "{" + e + "}"`
      this holds whenever `e` has neither '&' nor '{'. */
  lemma {:induction false} ReplaceRemovesAll(s: string, pat: string, rep: string)
    requires |pat| > 0 && |rep| > 0
    requires forall i :: 1 <= i < |pat| ==> pat[i] != pat[0]
    requires forall i :: 0 <= i < |rep| ==> rep[i] != pat[0]
    requires forall i :: 0 <= i < |pat| ==> pat[i] != rep[0]
    ensures !Contains(Replace(s, pat, rep), pat)
    decreases |s|
  {
    var r := Replace(s, pat, rep);
    if s == [] {
      assert !OccursAt(r, pat, 0);
    } else if HasPrefix(s, pat) {
      var tail := Replace(s[|pat|..], pat, rep);
      ReplaceRemovesAll(s[|pat|..], pat, rep);
      assert r == rep + tail;
      forall j | 0 <= j ensures !OccursAt(r, pat, j) {
        if j < |rep| {
          assert r[j] != pat[0];
        } else if j + |pat| <= |r| {
          assert r[j..j + |pat|] == tail[j - |rep|..j - |rep| + |pat|];
          assert !OccursAt(tail, pat, j - |rep|);
        }
      }
    } else {
      var tail := Replace(s[1..], pat, rep);
      ReplaceRemovesAll(s[1..], pat, rep);
      assert r == [s[0]] + tail;
      forall j | 0 <= j ensures !OccursAt(r, pat, j) {
        if j == 0 {
          NoOccurrenceAtStart(s, pat, rep);
        } else if j + |pat| <= |r| {
          assert r[j..j + |pat|] == tail[j - 1..j - 1 + |pat|];
          assert !OccursAt(tail, pat, j - 1);
        }
      }
    }
  }

  /** Helper of ReplaceRemovesAll: a text that does not start with the
      pattern is not turned into one that does. */
  lemma NoOccurrenceAtStart(s: string, pat: string, rep: string)
    requires |pat| > 0 && |rep| > 0 && s != [] && !HasPrefix(s, pat)
    requires forall i :: 0 <= i < |pat| ==> pat[i] != rep[0]
    ensures !OccursAt(Replace(s, pat, rep), pat, 0)
  {
    var r := Replace(s, pat, rep);
    var tail := Replace(s[1..], pat, rep);
    assert r == [s[0]] + tail;
    if HasPrefix(tail, pat[1..]) {
      KeptPrefix(s[1..], pat, rep, pat[1..]);
    }
    if |s| >= |pat| {
      assert s[..|pat|] == [s[0]] + s[1..][..|pat| - 1];
    }
    if |r| >= |pat| {
      assert r[..|pat|] != pat by {
        if s[0] != pat[0] {
          assert r[0] != pat[0];
        } else {
          assert tail[..|pat| - 1] == r[1..|pat|];
          assert pat[1..] == pat[1..|pat|];
        }
      }
    }
  }

  /** Replacing by something no longer never lengthens the text, and it
      shortens the text when the pattern occurs and the replacement is
      strictly shorter. */
  lemma {:induction false} ReplaceShrinks(s: string, pat: string, rep: string)
    requires |pat| > 0 && |rep| <= |pat|
    ensures |Replace(s, pat, rep)| <= |s|
    ensures Contains(s, pat) && |rep| < |pat| ==> |Replace(s, pat, rep)| < |s|
    decreases |s|
  {
    if s != [] {
      if HasPrefix(s, pat) {
        ReplaceShrinks(s[|pat|..], pat, rep);
      } else {
        ReplaceShrinks(s[1..], pat, rep);
        if Contains(s, pat) {
          var j := IndexOf(s, pat);
          assert j != 0;
          OccursShift(s, pat, j - 1);
          assert OccursAt(s[1..], pat, j - 1);
        }
      }
    }
  }

  /** A piece of a text without `q` has no `q` either. */
  lemma SliceAvoids(s: string, q: string, i: int, j: int)
    requires 0 <= i <= j <= |s| && !Contains(s, q)
    ensures !Contains(s[i..j], q)
  {
    assert IndexOf(s, q) < 0;
    forall k | 0 <= k && k + |q| <= j - i ensures !OccursAt(s[i..j], q, k) {
      var a, b := s[i..j][k..k + |q|], s[i + k..i + k + |q|];
      forall m | 0 <= m < |q| ensures a[m] == b[m] {
      }
      assert a == b;
      assert !OccursAt(s, q, i + k);
    }
  }

  /** A pass of `Replace` creates no occurrence of `q` when the replacement
      contains none and neither starts nor ends with a character of `q`. */
  lemma {:induction false} ReplaceAvoids(s: string, pat: string, rep: string, q: string)
    requires |pat| > 0 && |rep| > 0 && |q| > 0
    requires !Contains(s, q) && !Contains(rep, q)
    requires rep[0] !in q && rep[|rep| - 1] !in q
    ensures !Contains(Replace(s, pat, rep), q)
    decreases |s|
  {
    var r := Replace(s, pat, rep);
    if s != [] {
      if HasPrefix(s, pat) {
        var tail := Replace(s[|pat|..], pat, rep);
        SliceAvoids(s, q, |pat|, |s|);
        assert s[|pat|..|s|] == s[|pat|..];
        ReplaceAvoids(s[|pat|..], pat, rep, q);
        assert r == rep + tail;
        ReplacedAt(r, rep, tail, q);
      } else {
        var tail := Replace(s[1..], pat, rep);
        SliceAvoids(s, q, 1, |s|);
        assert s[1..|s|] == s[1..];
        ReplaceAvoids(s[1..], pat, rep, q);
        assert r == [s[0]] + tail;
        KeptAt(s, pat, rep, q, tail);
        forall j | 1 <= j && j + |q| <= |r| ensures !OccursAt(r, q, j) {
          assert r[j..j + |q|] == tail[j - 1..j - 1 + |q|];
          assert !OccursAt(tail, q, j - 1);
        }
      }
    }
  }

  /** Helper of ReplaceAvoids: when the first character is kept, `q` does
      not start the result unless it starts `s`. */
  lemma KeptAt(s: string, pat: string, rep: string, q: string, tail: string)
    requires |pat| > 0 && |rep| > 0 && |q| > 0 && s != []
    requires tail == Replace(s[1..], pat, rep)
    requires !Contains(s, q) && rep[0] !in q
    ensures !OccursAt([s[0]] + tail, q, 0)
  {
    var r := [s[0]] + tail;
    if HasPrefix(tail, q[1..]) {
      KeptPrefix(s[1..], pat, rep, q[1..]);
    }
    if |s| >= |q| {
      assert s[..|q|] == [s[0]] + s[1..][..|q| - 1];
      assert !OccursAt(s, q, 0);
    }
    if |r| >= |q| {
      assert r[..|q|] != q by {
        if s[0] == q[0] {
          assert tail[..|q| - 1] == r[1..|q|];
          assert q[1..] == q[1..|q|];
        }
      }
    }
  }

  /** Helper of ReplaceAvoids: an occurrence of `q` in `rep + tail` would lie
      in `rep`, straddle its last character, or lie in `tail`. */
  lemma ReplacedAt(r: string, rep: string, tail: string, q: string)
    requires r == rep + tail && |rep| > 0 && |q| > 0
    requires !Contains(rep, q) && !Contains(tail, q) && rep[|rep| - 1] !in q
    ensures !Contains(r, q)
  {
    forall j | 0 <= j && j + |q| <= |r| ensures !OccursAt(r, q, j) {
      if j + |q| <= |rep| {
        assert r[j..j + |q|] == rep[j..j + |q|];
        assert !OccursAt(rep, q, j);
      } else if j < |rep| {
        assert r[j..j + |q|][|rep| - 1 - j] == rep[|rep| - 1];
      } else {
        assert r[j..j + |q|] == tail[j - |rep|..j - |rep| + |q|];
        assert !OccursAt(tail, q, j - |rep|);
      }
    }
  }

  // ---------------------------------------------------------------------------
  // Splitting and joining

  /** Go's `strings.Join`. */
  function Join(parts: seq<string>, sep: string): string
  {
    if |parts| == 0 then ""
    else if |parts| == 1 then parts[0]
    else parts[0] + sep + Join(parts[1..], sep)
  }

  /** Nothing before the first occurrence is an occurrence. */
  lemma NoneBeforeFirst(s: string, sub: string, i: int)
    requires |sub| > 0 && 0 <= i <= |s|
    requires forall j :: 0 <= j < i ==> !OccursAt(s, sub, j)
    ensures !Contains(s[..i], sub)
  {
    forall j | 0 <= j ensures !OccursAt(s[..i], sub, j) {
      if j + |sub| <= i {
        assert j < i && !OccursAt(s, sub, j);
        assert s[..i][j..j + |sub|] == s[j..j + |sub|];
        assert !OccursAt(s[..i], sub, j);
      }
    }
  }

  /** Go's `strings.Split` for a non-empty separator: the pieces between the
      occurrences of `sep` (see `SplitJoin`). */
  function Split(s: string, sep: string): (r: seq<string>)
    requires |sep| > 0
    ensures |r| >= 1
    decreases |s|
  {
    var i := IndexOf(s, sep);
    if i < 0 then [s] else [s[..i]] + Split(s[i + |sep|..], sep)
  }

  /** Joining the pieces with `sep` gives `s` back. */
  lemma {:induction false} SplitJoin(s: string, sep: string)
    requires |sep| > 0
    ensures Join(Split(s, sep), sep) == s
    decreases |s|
  {
    var i := IndexOf(s, sep);
    SplitStep(s, sep);
    if i >= 0 {
      var rest := s[i + |sep|..];
      SplitJoin(rest, sep);
      JoinCons(s[..i], Split(rest, sep), sep);
    }
  }

  /** One step of `Split`: the first piece ends where `sep` first occurs,
      and `s` is that piece, `sep` and the rest. */
  lemma SplitStep(s: string, sep: string)
    requires |sep| > 0
    ensures var i := IndexOf(s, sep);
      && (i < 0 ==> Split(s, sep) == [s])
      && (i >= 0 ==>
            && i + |sep| <= |s|
            && Split(s, sep) == [s[..i]] + Split(s[i + |sep|..], sep)
            && s == s[..i] + sep + s[i + |sep|..])
  {
    var i := IndexOf(s, sep);
    if i >= 0 {
      assert OccursAt(s, sep, i);
      CutAround(s, i, |sep|);
    }
  }

  /** A piece put in front of at least one other is followed by `sep`. */
  lemma JoinCons(p: string, r: seq<string>, sep: string)
    requires |r| >= 1
    ensures Join([p] + r, sep) == p + sep + Join(r, sep)
  {
    assert ([p] + r)[1..] == r;
  }

  /** A string is its prefix, a middle piece and its suffix. */
  lemma CutAround(s: string, i: int, n: int)
    requires 0 <= i && 0 <= n && i + n <= |s|
    ensures s == s[..i] + s[i..i + n] + s[i + n..]
  {
  }

  /** No piece contains `sep`. */
  lemma {:induction false} SplitPieces(s: string, sep: string)
    requires |sep| > 0
    ensures forall i :: 0 <= i < |Split(s, sep)| ==> !Contains(Split(s, sep)[i], sep)
    decreases |s|
  {
    var i := IndexOf(s, sep);
    if i >= 0 {
      NoneBeforeFirst(s, sep, i);
      var rest := s[i + |sep|..];
      SplitPieces(rest, sep);
      var r := Split(rest, sep);
      assert Split(s, sep) == [s[..i]] + r;
      forall k | 0 <= k < |Split(s, sep)| ensures !Contains(Split(s, sep)[k], sep) {
        if k > 0 {
          assert Split(s, sep)[k] == r[k - 1];
        }
      }
    }
  }

  /** Go's `strings.SplitN(s, sep, 2)`: `s` cut at the first occurrence of
      `sep`, or `[s]` when there is none (see `SplitFirstParts`). */
  function SplitFirst(s: string, sep: string): (r: seq<string>)
    requires |sep| > 0
    ensures |r| == 1 || |r| == 2
  {
    var i := IndexOf(s, sep);
    if i < 0 then [s] else [s[..i], s[i + |sep|..]]
  }

  /** `s` is cut only when it contains `sep`, and then at its first
      occurrence. */
  lemma SplitFirstParts(s: string, sep: string)
    requires |sep| > 0
    ensures var r := SplitFirst(s, sep);
      && (|r| == 1 <==> !Contains(s, sep))
      && (|r| == 1 ==> r[0] == s)
      && (|r| == 2 ==> s == r[0] + sep + r[1] && !Contains(r[0], sep))
  {
    var i := IndexOf(s, sep);
    if i >= 0 {
      NoneBeforeFirst(s, sep, i);
      CutAround(s, i, |sep|);
    }
  }

  /** Go's `strings.Contains(s, string(c))` tests membership of `c`. */
  lemma ContainsChar(s: string, c: char)
    ensures Contains(s, [c]) <==> c in s
  {
    if Contains(s, [c]) {
      var r := IndexOf(s, [c]);
      assert s[r..r + 1] == [c] && s[r] == c;
    }
    if c in s {
      var i :| 0 <= i < |s| && s[i] == c;
      assert s[i..i + 1] == [c];
      assert OccursAt(s, [c], i);
      assert IndexOf(s, [c]) >= 0;
    }
  }

  /** Cutting at a one-character separator that does not occur in the
      first piece. */
  lemma SplitCons(x: string, c: char, t: string)
    requires c !in x
    ensures Split(x + [c] + t, [c]) == [x] + Split(t, [c])
  {
    var s := x + [c] + t;
    assert OccursAt(s, [c], |x|);
    forall k | 0 <= k < |x| ensures !OccursAt(s, [c], k) {
      assert s[k..k + 1][0] == x[k];
    }
    assert s[..|x|] == x && s[|x| + 1..] == t;
  }

  /** Splitting what was joined with a one-character separator that no
      piece contains gives the pieces back. */
  lemma {:induction false} JoinSplit(xs: seq<string>, c: char)
    requires |xs| >= 1 && forall i :: 0 <= i < |xs| ==> c !in xs[i]
    ensures Split(Join(xs, [c]), [c]) == xs
  {
    if |xs| == 1 {
      ContainsChar(xs[0], c);
    } else {
      JoinSplit(xs[1..], c);
      SplitCons(xs[0], c, Join(xs[1..], [c]));
    }
  }

  // ---------------------------------------------------------------------------
  // Numbers and case

  function DigitChar(d: nat): char
    requires d < 10
  {
    "0123456789"[d]
  }

  function DigitValue(ch: char): nat
  {
    if '0' <= ch <= '9' then (ch as int - '0' as int) as nat else 0
  }

  /** Go's `strconv.Itoa` for a non-negative number. */
  function Itoa(n: nat): (r: string)
    ensures |r| >= 1
    ensures forall i :: 0 <= i < |r| ==> '0' <= r[i] <= '9'
    decreases n
  {
    if n < 10 then [DigitChar(n)] else Itoa(n / 10) + [DigitChar(n % 10)]
  }

  /** Reads a string of decimal digits back as a number. */
  function ParseDecimal(s: string): nat
  {
    if s == [] then 0 else ParseDecimal(s[..|s| - 1]) * 10 + DigitValue(s[|s| - 1])
  }

  lemma {:induction false} ItoaRoundTrip(n: nat)
    ensures ParseDecimal(Itoa(n)) == n
    decreases n
  {
    if n >= 10 {
      var s := Itoa(n);
      assert s[..|s| - 1] == Itoa(n / 10);
      ItoaRoundTrip(n / 10);
    }
  }

  /** Different numbers are written differently. */
  lemma ItoaInjective(m: nat, n: nat)
    requires Itoa(m) == Itoa(n)
    ensures m == n
  {
    ItoaRoundTrip(m);
    ItoaRoundTrip(n);
  }

  function UpperChar(ch: char): char
  {
    if 'a' <= ch <= 'z' then (ch as int - 32) as char else ch
  }

  /** Go's `strings.ToUpper`, for the ASCII letters. */
  function ToUpper(s: string): (r: string)
    ensures |r| == |s|
    ensures forall i :: 0 <= i < |s| ==> r[i] == UpperChar(s[i])
  {
    seq(|s|, i requires 0 <= i < |s| => UpperChar(s[i]))
  }

  /** `n` copies of `ch`. */
  function Repeat(ch: char, n: nat): (r: string)
    ensures |r| == n && AllOf(r, ch)
  {
    seq(n, _ => ch)
  }

  /** Reading a Go `map[string]string`: a missing key reads as "". */
  function Get(m: map<string, string>, k: string): string
  {
    if k in m then m[k] else ""
  }
}
