/** JavaScript string primitives that the quiz code relies on: the `\s`
    character class, `trim()`, `replace(/\s+/g, " ")`, global and first-only
    literal replacement, `includes` and ASCII case folding. */
module Strings {

  /** JavaScript's `\s` class: the WhiteSpace and LineTerminator code points.
      `String.prototype.trim` removes exactly these. */
  predicate IsSpace(c: char) {
    || c == ' ' || c == '\t' || c == '\n' || c == '\r'
    || c == '\U{000B}' || c == '\U{000C}' || c == '\U{00A0}' || c == '\U{1680}'
    || ('\U{2000}' <= c <= '\U{200A}')
    || c == '\U{2028}' || c == '\U{2029}' || c == '\U{202F}' || c == '\U{205F}'
    || c == '\U{3000}' || c == '\U{FEFF}'
  }

  predicate AllSpace(s: string) {
    forall i :: 0 <= i < |s| ==> IsSpace(s[i])
  }

  /** No leading and no trailing whitespace. */
  predicate IsTrimmed(s: string) {
    s == [] || (!IsSpace(s[0]) && !IsSpace(s[|s| - 1]))
  }

  /** No two adjacent whitespace characters. */
  predicate SingleSpaced(s: string) {
    forall i :: 0 <= i < |s| - 1 ==> !(IsSpace(s[i]) && IsSpace(s[i + 1]))
  }

  /** Every whitespace character is a plain space. */
  predicate PlainSpaces(s: string) {
    forall i :: 0 <= i < |s| ==> IsSpace(s[i]) ==> s[i] == ' '
  }

  /** What `s.replace(/\s+/g, " ").trim()` always yields. */
  predicate IsClean(s: string) {
    IsTrimmed(s) && SingleSpaced(s) && PlainSpaces(s)
  }

  function TrimStart(s: string): (r: string)
    ensures |r| <= |s|
    ensures r == [] || !IsSpace(r[0])
  {
    if s != [] && IsSpace(s[0]) then TrimStart(s[1..]) else s
  }

  /** `TrimStart` keeps a suffix. */
  lemma {:induction false} TrimStartIsSuffix(s: string)
    ensures TrimStart(s) == s[|s| - |TrimStart(s)|..]
  {
    if s != [] && IsSpace(s[0]) {
      TrimStartIsSuffix(s[1..]);
    }
  }

  /** `TrimStart` removes only whitespace. */
  lemma {:induction false} TrimStartSpaces(s: string)
    ensures forall i :: 0 <= i < |s| - |TrimStart(s)| ==> IsSpace(s[i])
  {
    if s != [] && IsSpace(s[0]) {
      TrimStartSpaces(s[1..]);
      assert forall i :: 1 <= i < |s| ==> s[i] == s[1..][i - 1];
    }
  }

  function TrimEnd(s: string): (r: string)
    ensures |r| <= |s|
    ensures r == [] || !IsSpace(r[|r| - 1])
  {
    if s != [] && IsSpace(s[|s| - 1]) then TrimEnd(s[..|s| - 1]) else s
  }

  /** `TrimEnd` keeps a prefix. */
  lemma {:induction false} TrimEndIsPrefix(s: string)
    ensures TrimEnd(s) == s[..|TrimEnd(s)|]
  {
    if s != [] && IsSpace(s[|s| - 1]) {
      TrimEndIsPrefix(s[..|s| - 1]);
    }
  }

  /** `TrimEnd` removes only whitespace. */
  lemma {:induction false} TrimEndSpaces(s: string)
    ensures forall i :: |TrimEnd(s)| <= i < |s| ==> IsSpace(s[i])
  {
    if s != [] && IsSpace(s[|s| - 1]) {
      TrimEndSpaces(s[..|s| - 1]);
      assert forall i :: 0 <= i < |s| - 1 ==> s[i] == s[..|s| - 1][i];
    }
  }

  /** `String.prototype.trim`. */
  function Trim(s: string): (r: string)
    ensures IsTrimmed(r)
    ensures |r| <= |s|
  {
    var t := TrimStart(s);
    var r := TrimEnd(t);
    TrimEndIsPrefix(t);
    assert r != [] ==> r[0] == t[0];
    r
  }

  /** Trimming keeps a contiguous slice of the input. */
  lemma TrimIsSlice(s: string)
    ensures var off := |s| - |TrimStart(s)|;
      off + |Trim(s)| <= |s| && Trim(s) == s[off..off + |Trim(s)|]
  {
    TrimStartIsSuffix(s);
    TrimEndIsPrefix(TrimStart(s));
  }

  /** Each character of the trimmed text is the input's character at the
      same position after the leading whitespace. */
  lemma TrimAt(s: string, off: nat, i: nat)
    requires off == |s| - |TrimStart(s)| && i < |Trim(s)|
    ensures off + i < |s| && Trim(s)[i] == s[off + i]
  {
    TrimIsSlice(s);
  }

  lemma TrimStartOfTrimmed(s: string)
    requires IsTrimmed(s)
    ensures TrimStart(s) == s
  {
  }

  /** A string with no leading or trailing whitespace is its own trim. */
  lemma TrimOfTrimmed(s: string)
    requires IsTrimmed(s)
    ensures Trim(s) == s
  {
  }

  /** Trimming removes exactly the whitespace padding around a trimmed core. */
  lemma {:induction false} TrimOfPadded(pre: string, t: string, post: string)
    requires AllSpace(pre) && AllSpace(post) && IsTrimmed(t) && t != []
    ensures Trim(pre + t + post) == t
  {
    var u := t + post;
    assert pre + t + post == pre + u;
    TrimStartOfPadded(pre, u);
    TrimEndOfPadded(t, post);
  }

  lemma {:induction false} TrimStartOfPadded(pre: string, u: string)
    requires AllSpace(pre) && u != [] && !IsSpace(u[0])
    ensures TrimStart(pre + u) == u
  {
    if pre == [] {
      assert pre + u == u;
    } else {
      assert (pre + u)[1..] == pre[1..] + u;
      TrimStartOfPadded(pre[1..], u);
    }
  }

  lemma {:induction false} TrimEndOfPadded(u: string, post: string)
    requires AllSpace(post) && u != [] && !IsSpace(u[|u| - 1])
    ensures TrimEnd(u + post) == u
  {
    if post == [] {
      assert u + post == u;
    } else {
      assert (u + post)[..|u + post| - 1] == u + post[..|post| - 1];
      TrimEndOfPadded(u, post[..|post| - 1]);
    }
  }

  /** `s` has no occurrence of the character `c`. */
  predicate Lacks(s: string, c: char) {
    forall i :: 0 <= i < |s| ==> s[i] != c
  }

  lemma LacksConcat(a: string, b: string, c: char)
    ensures Lacks(a + b, c) <==> Lacks(a, c) && Lacks(b, c)
  {
    if Lacks(a, c) && Lacks(b, c) {
      forall i | 0 <= i < |a + b| ensures (a + b)[i] != c {
        if i >= |a| {
          assert (a + b)[i] == b[i - |a|];
        }
      }
    }
    if Lacks(a + b, c) {
      assert forall i :: 0 <= i < |a| ==> (a + b)[i] == a[i];
      assert forall i :: 0 <= i < |b| ==> (a + b)[|a| + i] == b[i];
    }
  }

  lemma TrimLacks(s: string, c: char)
    requires Lacks(s, c)
    ensures Lacks(Trim(s), c)
  {
    var off := |s| - |TrimStart(s)|;
    var r := Trim(s);
    forall i | 0 <= i < |r| ensures r[i] != c {
      TrimAt(s, off, i);
    }
  }

  /** `s.replace(/\s+/g, " ")`: every maximal whitespace run becomes one space. */
  function CollapseSpaces(s: string): (r: string)
    ensures r == [] <==> s == []
    ensures r != [] ==> (IsSpace(r[0]) <==> IsSpace(s[0]))
    decreases |s|
  {
    if s == [] then []
    else if IsSpace(s[0]) then " " + CollapseSpaces(TrimStart(s[1..]))
    else [s[0]] + CollapseSpaces(s[1..])
  }

  /** The collapsed text has single plain spaces. */
  lemma {:induction false} CollapseShape(s: string)
    ensures SingleSpaced(CollapseSpaces(s)) && PlainSpaces(CollapseSpaces(s))
    decreases |s|
  {
    if s != [] {
      var rest := if IsSpace(s[0]) then TrimStart(s[1..]) else s[1..];
      CollapseShape(rest);
      var r := CollapseSpaces(s);
      assert r[1..] == CollapseSpaces(rest);
    }
  }

  /** Collapsing brings in no character other than a space. */
  lemma {:induction false} CollapseLacks(s: string, c: char)
    requires Lacks(s, c) && c != ' '
    ensures Lacks(CollapseSpaces(s), c)
    decreases |s|
  {
    if s != [] {
      var rest := if IsSpace(s[0]) then TrimStart(s[1..]) else s[1..];
      TrimStartIsSuffix(s[1..]);
      assert Lacks(rest, c) by {
        forall i | 0 <= i < |rest| ensures rest[i] != c {
          assert rest[i] == s[|s| - |rest| + i];
        }
      }
      CollapseLacks(rest, c);
      var r := CollapseSpaces(s);
      assert r[1..] == CollapseSpaces(rest);
    }
  }

  /** A string that already has single plain spaces is left as it is. */
  lemma {:induction false} CollapseOfSingleSpaced(s: string)
    requires SingleSpaced(s) && PlainSpaces(s)
    ensures CollapseSpaces(s) == s
    decreases |s|
  {
    if s != [] {
      if IsSpace(s[0]) && |s| > 1 {
        assert !IsSpace(s[1]);
      }
      assert TrimStart(s[1..]) == s[1..] || !IsSpace(s[0]);
      assert SingleSpaced(s[1..]) && PlainSpaces(s[1..]);
      CollapseOfSingleSpaced(s[1..]);
    }
  }

  /** A non-space character of `s` survives the collapse. */
  lemma {:induction false} CollapseKeeps(s: string, k: nat)
    requires k < |s| && !IsSpace(s[k])
    ensures !AllSpace(CollapseSpaces(s))
    decreases |s|
  {
    var c := CollapseSpaces(s);
    if IsSpace(s[0]) {
      var t := TrimStart(s[1..]);
      var d := |s| - 1 - |t|;
      TrimStartSpaces(s[1..]);
      TrimStartIsSuffix(s[1..]);
      assert s[1..][k - 1] == s[k];
      assert t[k - 1 - d] == s[k];
      CollapseKeeps(t, k - 1 - d);
      var ct := CollapseSpaces(t);
      var j :| 0 <= j < |ct| && !IsSpace(ct[j]);
      assert c == " " + ct;
      assert c[j + 1] == ct[j];
    } else {
      assert c[0] == s[0];
    }
  }

  lemma TrimStartOfAllSpace(s: string)
    requires AllSpace(s)
    ensures TrimStart(s) == []
  {
    if s != [] {
      TrimStartOfAllSpace(s[1..]);
    }
  }

  /** Whitespace-only text collapses to whitespace-only text. */
  lemma CollapseOfAllSpace(s: string)
    requires AllSpace(s)
    ensures CollapseSpaces(s) == [] || CollapseSpaces(s) == " "
  {
    if s != [] {
      TrimStartOfAllSpace(s[1..]);
    }
  }

  /** Trimming a single-spaced, plain-spaced string keeps both properties. */
  lemma TrimKeepsShape(c: string)
    requires SingleSpaced(c) && PlainSpaces(c)
    ensures SingleSpaced(Trim(c)) && PlainSpaces(Trim(c))
  {
    TrimKeepsSingleSpaced(c);
    TrimKeepsPlainSpaces(c);
  }

  lemma TrimKeepsSingleSpaced(c: string)
    requires SingleSpaced(c)
    ensures SingleSpaced(Trim(c))
  {
    var off := |c| - |TrimStart(c)|;
    var r := Trim(c);
    forall i | 0 <= i < |r| - 1 ensures !(IsSpace(r[i]) && IsSpace(r[i + 1])) {
      TrimAt(c, off, i);
      TrimAt(c, off, i + 1);
    }
  }

  lemma TrimKeepsPlainSpaces(c: string)
    requires PlainSpaces(c)
    ensures PlainSpaces(Trim(c))
  {
    var off := |c| - |TrimStart(c)|;
    var r := Trim(c);
    forall i | 0 <= i < |r| ensures IsSpace(r[i]) ==> r[i] == ' ' {
      TrimAt(c, off, i);
    }
  }

  /** Trimming leaves something exactly when there is a non-space character. */
  lemma {:induction false} TrimEmptyIff(c: string)
    ensures Trim(c) == [] <==> AllSpace(c)
  {
    var t := TrimStart(c);
    var off := |c| - |t|;
    if !AllSpace(c) {
      var k :| 0 <= k < |c| && !IsSpace(c[k]);
      TrimStartSpaces(c);
      TrimEndSpaces(t);
      TrimStartIsSuffix(c);
      assert k >= off;
      assert t[k - off] == c[k];
      assert k - off < |TrimEnd(t)|;
    } else {
      TrimStartOfAllSpace(c);
    }
  }

  /** `s.replace(/\s+/g, " ").trim()`. */
  function CleanSpaces(s: string): (r: string)
    ensures IsClean(r)
    ensures r == [] <==> AllSpace(s)
  {
    var c := CollapseSpaces(s);
    CollapseShape(s);
    TrimKeepsShape(c);
    TrimEmptyIff(c);
    if AllSpace(s) then
      CollapseOfAllSpace(s);
      Trim(c)
    else
      var k :| 0 <= k < |s| && !IsSpace(s[k]);
      CollapseKeeps(s, k);
      Trim(c)
  }

  lemma CleanLacks(s: string, c: char)
    requires Lacks(s, c) && c != ' '
    ensures Lacks(CleanSpaces(s), c)
  {
    CollapseLacks(s, c);
    TrimLacks(CollapseSpaces(s), c);
  }

  /** A clean string is a fixpoint of space cleaning. */
  lemma CleanOfClean(s: string)
    requires IsClean(s)
    ensures CleanSpaces(s) == s
  {
    CollapseOfSingleSpaced(s);
    TrimOfTrimmed(s);
  }

  /** `s` has `p` at position `i`. */
  predicate OccursAt(s: string, i: int, p: string) {
    0 <= i && i + |p| <= |s| && s[i..i + |p|] == p
  }

  /** `s.includes(p)`: `p` occurs at some position of `s`. */
  predicate Contains(s: string, p: string) {
    exists i :: 0 <= i <= |s| - |p| && OccursAt(s, i, p)
  }

  /** Without an occurrence at the front, any occurrence is one in the tail. */
  lemma ContainsTail(s: string, p: string)
    requires Contains(s, p) && !OccursAt(s, 0, p)
    ensures Contains(s[1..], p)
  {
    var k :| 0 <= k <= |s| - |p| && OccursAt(s, k, p);
    assert s[1..][k - 1..k - 1 + |p|] == s[k..k + |p|];
    assert OccursAt(s[1..], k - 1, p);
  }

  /** An occurrence in the tail is one in the whole text. */
  lemma ContainsOfTail(s: string, p: string)
    requires s != [] && Contains(s[1..], p)
    ensures Contains(s, p)
  {
    var k :| 0 <= k <= |s| - 1 - |p| && OccursAt(s[1..], k, p);
    assert s[1..][k..k + |p|] == s[k + 1..k + 1 + |p|];
    assert OccursAt(s, k + 1, p);
  }

  /** One occurrence is enough for `Contains`. */
  lemma ContainsAt(s: string, i: nat, p: string)
    requires OccursAt(s, i, p)
    ensures Contains(s, p)
  {
  }

  /** An occurrence that ends by `k` is one in the prefix up to `k`. */
  lemma OccursInPrefix(s: string, k: nat, j: nat, t: string)
    requires OccursAt(s, j, t) && j + |t| <= k <= |s|
    ensures OccursAt(s[..k], j, t)
  {
    assert s[..k][j..j + |t|] == s[j..j + |t|];
  }

  /** An occurrence that starts at or after `k` is one in the suffix from `k`. */
  lemma OccursInSuffix(s: string, k: nat, j: nat, t: string)
    requires OccursAt(s, j, t) && k <= j
    ensures OccursAt(s[k..], j - k, t)
  {
    assert s[k..][j - k..j - k + |t|] == s[j..j + |t|];
  }

  /** An occurrence in the left part of a concatenation is one in the whole. */
  lemma OccursInLeft(a: string, b: string, j: nat, t: string)
    requires OccursAt(a, j, t)
    ensures OccursAt(a + b, j, t)
  {
    forall m | 0 <= m < |t| ensures (a + b)[j + m] == t[m] {
      assert a[j..j + |t|][m] == t[m];
    }
    assert (a + b)[j..j + |t|] == t;
  }

  /** An occurrence in the right part, shifted by the left part's length. */
  lemma OccursInRight(a: string, b: string, j: nat, t: string)
    requires OccursAt(b, j, t)
    ensures OccursAt(a + b, |a| + j, t)
  {
    forall m | 0 <= m < |t| ensures (a + b)[|a| + j + m] == t[m] {
      assert b[j..j + |t|][m] == t[m];
    }
    assert (a + b)[|a| + j..|a| + j + |t|] == t;
  }

  /** An occurrence in the middle part, shifted by the left part's length. */
  lemma OccursInMiddle(a: string, m: string, b: string, j: nat, t: string)
    requires OccursAt(m, j, t)
    ensures OccursAt(a + m + b, |a| + j, t)
  {
    OccursInRight(a, m, j, t);
    OccursInLeft(a + m, b, |a| + j, t);
  }

  /** First position at or after `from` that holds `c`, or `|s|` when there is none. */
  function Find(s: string, c: char, from: nat): (i: nat)
    requires from <= |s|
    ensures from <= i <= |s| && (i < |s| ==> s[i] == c)
    ensures forall k :: from <= k < i ==> s[k] != c
    decreases |s| - from
  {
    if from == |s| || s[from] == c then from
    else Find(s, c, from + 1)
  }

  /** First position of `p` in `s`. */
  function IndexOf(s: string, p: string): (i: nat)
    requires Contains(s, p)
    ensures OccursAt(s, i, p)
    decreases |s|
  {
    if s[..|p|] == p then 0
    else
      ContainsTail(s, p);
      var j := IndexOf(s[1..], p);
      assert s[1..][j..j + |p|] == s[j + 1..j + 1 + |p|];
      j + 1
  }

  /** `IndexOf` finds the first occurrence. */
  lemma {:induction false} IndexOfFirst(s: string, p: string)
    requires Contains(s, p)
    ensures forall k :: 0 <= k < IndexOf(s, p) ==> !OccursAt(s, k, p)
    decreases |s|
  {
    if s[..|p|] != p {
      ContainsTail(s, p);
      var j := IndexOf(s[1..], p);
      IndexOfFirst(s[1..], p);
      forall k | 0 <= k < j + 1 ensures !OccursAt(s, k, p) {
        if k > 0 && OccursAt(s, k, p) {
          assert s[1..][k - 1..k - 1 + |p|] == s[k..k + |p|];
          assert OccursAt(s[1..], k - 1, p);
        }
      }
    }
  }

  /** `s.replace(pat, rep)` with a string pattern: only the first occurrence is replaced. */
  function ReplaceFirst(s: string, pat: string, rep: string): (r: string)
    ensures !Contains(s, pat) ==> r == s
    ensures Contains(s, pat) ==>
      var i := IndexOf(s, pat); r == s[..i] + rep + s[i + |pat|..]
  {
    if Contains(s, pat) then
      var i := IndexOf(s, pat);
      s[..i] + rep + s[i + |pat|..]
    else s
  }

  /** A non-empty search pattern. */
  type Pattern = p: string | |p| > 0 witness "?"

  /** `s.replace(/pat/g, rep)` for a pattern without metacharacters:
      matches are found left to right and never overlap. */
  function ReplaceAll(s: string, pat: string, rep: string): string
    requires pat != []
    decreases |s|
  {
    if |s| < |pat| then s
    else if s[..|pat|] == pat then rep + ReplaceAll(s[|pat|..], pat, rep)
    else [s[0]] + ReplaceAll(s[1..], pat, rep)
  }

  /** Text in which the pattern cannot start is copied unchanged. */
  lemma {:induction false} ReplaceAllNoStart(s: string, pat: string, rep: string)
    requires pat != [] && pat[0] !in s
    ensures ReplaceAll(s, pat, rep) == s
    decreases |s|
  {
    if |s| >= |pat| {
      assert s[..|pat|][0] == s[0];
      ReplaceAllNoStart(s[1..], pat, rep);
    }
  }

  /** Text that does not start with the pattern, and in which the pattern
      cannot start anywhere later, is copied unchanged. */
  lemma ReplaceAllMissAtHead(s: string, pat: string, rep: string)
    requires pat != [] && s != [] && Lacks(s[1..], pat[0])
    requires !(|pat| <= |s| && s[..|pat|] == pat)
    ensures ReplaceAll(s, pat, rep) == s
  {
    if |s| >= |pat| {
      ReplaceAllNoStart(s[1..], pat, rep);
      assert [s[0]] + s[1..] == s;
    }
  }

  /** Text that does not contain the pattern is copied unchanged. */
  lemma {:induction false} ReplaceAllAbsent(s: string, pat: string, rep: string)
    requires pat != [] && !Contains(s, pat)
    ensures ReplaceAll(s, pat, rep) == s
    decreases |s|
  {
    if |s| >= |pat| {
      assert !OccursAt(s, 0, pat);
      if Contains(s[1..], pat) {
        ContainsOfTail(s, pat);
      }
      ReplaceAllAbsent(s[1..], pat, rep);
      assert [s[0]] + s[1..] == s;
    }
  }

  /** An occurrence after pattern-free text is replaced, and the scan goes on after it. */
  lemma {:induction false} ReplaceAllSplice(a: string, pat: string, b: string, rep: string)
    requires pat != [] && pat[0] !in a
    ensures ReplaceAll(a + pat + b, pat, rep) == a + rep + ReplaceAll(b, pat, rep)
    decreases |a|
  {
    var s := a + pat + b;
    if a == [] {
      assert s == pat + b;
      assert s[..|pat|] == pat && s[|pat|..] == b;
    } else {
      assert s[0] == a[0];
      assert s[..|pat|] != pat by {
        assert s[..|pat|][0] == a[0];
      }
      assert s[1..] == a[1..] + pat + b;
      calc {
        ReplaceAll(s, pat, rep);
        [s[0]] + ReplaceAll(s[1..], pat, rep);
        { ReplaceAllSplice(a[1..], pat, b, rep); }
        [a[0]] + (a[1..] + rep + ReplaceAll(b, pat, rep));
        { assert [a[0]] + a[1..] == a; }
        a + rep + ReplaceAll(b, pat, rep);
      }
    }
  }

  /** Where the pattern does not match at the head, the head is copied. */
  lemma ReplaceAllHeadMiss(s: string, pat: string, rep: string)
    requires pat != [] && s != [] && !(|pat| <= |s| && s[..|pat|] == pat)
    ensures ReplaceAll(s, pat, rep) == [s[0]] + ReplaceAll(s[1..], pat, rep)
  {
    if |s| < |pat| {
      assert ReplaceAll(s[1..], pat, rep) == s[1..];
      assert [s[0]] + s[1..] == s;
    }
  }

  /** A prefix in which the pattern cannot start is copied unchanged. */
  lemma {:induction false} ReplaceAllKeepPrefix(a: string, b: string, pat: string, rep: string)
    requires pat != [] && Lacks(a, pat[0])
    ensures ReplaceAll(a + b, pat, rep) == a + ReplaceAll(b, pat, rep)
    decreases |a|
  {
    var s := a + b;
    if a == [] {
      assert s == b;
    } else {
      assert s[0] == a[0] && s[1..] == a[1..] + b;
      assert !(|pat| <= |s| && s[..|pat|] == pat) by {
        if |pat| <= |s| {
          assert s[..|pat|][0] == a[0];
        }
      }
      ReplaceAllHeadMiss(s, pat, rep);
      ReplaceAllKeepPrefix(a[1..], b, pat, rep);
      assert [a[0]] + a[1..] == a;
    }
  }

  /** A character absent from the text and from the replacement stays absent. */
  lemma {:induction false} ReplaceAllLacks(s: string, pat: string, rep: string, c: char)
    requires pat != [] && Lacks(s, c) && Lacks(rep, c)
    ensures Lacks(ReplaceAll(s, pat, rep), c)
    decreases |s|
  {
    if |s| >= |pat| {
      if s[..|pat|] == pat {
        ReplaceAllLacks(s[|pat|..], pat, rep, c);
        assert forall i :: 0 <= i < |s[|pat|..]| ==> s[|pat|..][i] == s[|pat| + i];
      } else {
        ReplaceAllLacks(s[1..], pat, rep, c);
      }
    }
  }

  /** Replacing a one-character pattern by text without it leaves none of it. */
  lemma {:induction false} ReplaceAllRemovesChar(s: string, c: char, rep: string)
    requires c !in rep
    ensures c !in ReplaceAll(s, [c], rep)
    ensures forall i :: 0 <= i < |ReplaceAll(s, [c], rep)| ==>
      ReplaceAll(s, [c], rep)[i] in s || ReplaceAll(s, [c], rep)[i] in rep
    decreases |s|
  {
    if |s| >= 1 {
      ReplaceAllRemovesChar(s[1..], c, rep);
    }
  }

  /** ASCII part of `toLowerCase`. */
  function LowerChar(c: char): char {
    if 'A' <= c <= 'Z' then (c as int + 32) as char else c
  }

  function ToLower(s: string): (r: string)
    ensures |r| == |s| && forall i :: 0 <= i < |s| ==> r[i] == LowerChar(s[i])
  {
    seq(|s|, i requires 0 <= i < |s| => LowerChar(s[i]))
  }

  /** JavaScript's `length`: the number of UTF-16 code units, two for a
      character outside the Basic Multilingual Plane. */
  function Utf16Length(s: string): (n: nat)
    ensures |s| <= n <= 2 * |s|
    ensures (forall i :: 0 <= i < |s| ==> s[i] < '\U{10000}') ==> n == |s|
    ensures (forall i :: 0 <= i < |s| ==> s[i] >= '\U{10000}') ==> n == 2 * |s|
  {
    if s == [] then 0
    else (if s[0] < '\U{10000}' then 1 else 2) + Utf16Length(s[1..])
  }

  /** Code units add up over concatenation. */
  lemma {:induction false} Utf16LengthAppend(a: string, b: string)
    ensures Utf16Length(a + b) == Utf16Length(a) + Utf16Length(b)
  {
    if a != [] {
      assert (a + b)[1..] == a[1..] + b;
      Utf16LengthAppend(a[1..], b);
    } else {
      assert a + b == b;
    }
  }

  predicate IsDigit(c: char) {
    '0' <= c <= '9'
  }

  predicate AllDigits(s: string) {
    forall i :: 0 <= i < |s| ==> IsDigit(s[i])
  }

  /** Value of a string of decimal digits. */
  function DigitsValue(s: string): (n: nat)
    requires AllDigits(s)
    decreases |s|
  {
    if s == [] then 0
    else DigitsValue(s[..|s| - 1]) * 10 + (s[|s| - 1] as int - '0' as int)
  }

  function Pow10(k: nat): (p: nat)
    ensures p >= 1
  {
    if k == 0 then 1 else 10 * Pow10(k - 1)
  }

  /** Decimal digits of `n`, most significant first (`String(n)`). */
  function NatToDigits(n: nat): (s: string)
    ensures s != [] && AllDigits(s) && DigitsValue(s) == n
    decreases n
  {
    var last := [('0' as int + n % 10) as char];
    if n < 10 then
      assert DigitsValue(last) == DigitsValue([]) * 10 + n;
      last
    else
      var r := NatToDigits(n / 10) + last;
      assert r[..|r| - 1] == NatToDigits(n / 10);
      r
  }
}
