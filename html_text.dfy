/** The markup helpers that quizText.ts and latexUtils.ts each define in the
    same way: tag replacement with `/<[^>]*>/g`, the fallback entity decoder
    used when no DOM is present, and removal of the inline math wrappers
    `\(`, `\)`, `\[` and `\]`. */
module HtmlText {
  import opened Strings

  /** A tag starts at position 0: `<` followed later by `>`, with at least one
      character between them when `nonEmpty` (the `/<[^>]+>/` form). */
  predicate TagAt(s: string, nonEmpty: bool) {
    |s| >= 2 && s[0] == '<' && Find(s, '>', 1) < |s| && (!nonEmpty || s[1] != '>')
  }

  /** `s.replace(/<[^>]*>/g, rep)`, or `s.replace(/<[^>]+>/g, rep)` when
      `nonEmpty`: a tag runs from `<` to the first `>` after it. */
  function ReplaceTags(s: string, rep: string, nonEmpty: bool): string
    decreases |s|
  {
    if s == [] then []
    else if TagAt(s, nonEmpty) then
      rep + ReplaceTags(s[Find(s, '>', 1) + 1..], rep, nonEmpty)
    else [s[0]] + ReplaceTags(s[1..], rep, nonEmpty)
  }

  /** Text without `<` holds no tag and is copied unchanged. */
  lemma {:induction false} ReplaceTagsNoTag(s: string, rep: string, nonEmpty: bool)
    requires Lacks(s, '<')
    ensures ReplaceTags(s, rep, nonEmpty) == s
    decreases |s|
  {
    if s != [] {
      ReplaceTagsNoTag(s[1..], rep, nonEmpty);
    }
  }

  /** A tag after tag-free text becomes `rep`, and the scan resumes after its `>`. */
  lemma ReplaceTagsSplice(a: string, inner: string, b: string, rep: string, nonEmpty: bool)
    requires Lacks(a, '<') && Lacks(inner, '>') && (nonEmpty ==> inner != [])
    ensures ReplaceTags(a + ("<" + inner + ">" + b), rep, nonEmpty) == a + (rep + ReplaceTags(b, rep, nonEmpty))
  {
    ReplaceTagsPrefix(a, "<" + inner + ">" + b, rep, nonEmpty);
    ReplaceTagsAtHead(inner, b, rep, nonEmpty);
  }

  /** A tag at the very start becomes `rep`. */
  lemma ReplaceTagsAtHead(inner: string, b: string, rep: string, nonEmpty: bool)
    requires Lacks(inner, '>') && (nonEmpty ==> inner != [])
    ensures ReplaceTags("<" + inner + ">" + b, rep, nonEmpty) == rep + ReplaceTags(b, rep, nonEmpty)
  {
    var s := "<" + inner + ">" + b;
    assert s[1..][|inner|] == '>';
    assert forall k :: 1 <= k <= |inner| ==> s[k] == inner[k - 1];
    assert Find(s, '>', 1) == |inner| + 1;
    assert s[|inner| + 2..] == b;
  }

  /** Text without `<` before the rest is copied, and the scan goes on with the rest. */
  lemma {:induction false} ReplaceTagsPrefix(a: string, t: string, rep: string, nonEmpty: bool)
    requires Lacks(a, '<')
    ensures ReplaceTags(a + t, rep, nonEmpty) == a + ReplaceTags(t, rep, nonEmpty)
    decreases |a|
  {
    if a == [] {
      assert a + t == t;
    } else {
      var s := a + t;
      assert s[0] == a[0] && s[1..] == a[1..] + t;
      ReplaceTagsPrefix(a[1..], t, rep, nonEmpty);
      assert [a[0]] + a[1..] == a;
    }
  }

  lemma {:induction false} ReplaceTagsLacks(s: string, rep: string, nonEmpty: bool, c: char)
    requires Lacks(s, c) && Lacks(rep, c)
    ensures Lacks(ReplaceTags(s, rep, nonEmpty), c)
    decreases |s|
  {
    if s != [] {
      if TagAt(s, nonEmpty) {
        var rest := s[Find(s, '>', 1) + 1..];
        assert Lacks(rest, c) by {
          forall i | 0 <= i < |rest| ensures rest[i] != c {
            assert rest[i] == s[Find(s, '>', 1) + 1 + i];
          }
        }
        ReplaceTagsLacks(rest, rep, nonEmpty, c);
      } else {
        ReplaceTagsLacks(s[1..], rep, nonEmpty, c);
      }
    }
  }

  /** No `<` is followed anywhere later by a `>`. */
  predicate NoTagLeft(r: string) {
    forall i, j :: 0 <= i < j < |r| && r[i] == '<' ==> r[j] != '>'
  }

  /** After `/<[^>]*>/g` replacement by text without angle brackets, no `<`
      is followed anywhere later by a `>`: every tag of the input is gone. */
  lemma {:induction false} ReplaceTagsLeavesNoTag(s: string, rep: string)
    requires Lacks(rep, '<') && Lacks(rep, '>')
    ensures NoTagLeft(ReplaceTags(s, rep, false))
    decreases |s|
  {
    if s != [] {
      var r := ReplaceTags(s, rep, false);
      if TagAt(s, false) {
        var rest := s[Find(s, '>', 1) + 1..];
        ReplaceTagsLeavesNoTag(rest, rep);
        var tail := ReplaceTags(rest, rep, false);
        assert NoTagLeft(tail);
        assert r == rep + tail;
        assert forall k :: 0 <= k < |rep| ==> r[k] == rep[k];
        forall i, j | 0 <= i < j < |r| && r[i] == '<' ensures r[j] != '>' {
          assert i >= |rep|;
          assert r[i] == tail[i - |rep|];
          assert r[j] == tail[j - |rep|];
        }
      } else {
        var tail := ReplaceTags(s[1..], rep, false);
        ReplaceTagsLeavesNoTag(s[1..], rep);
        assert NoTagLeft(tail);
        assert r == [s[0]] + tail;
        forall i, j | 0 <= i < j < |r| && r[i] == '<' ensures r[j] != '>' {
          assert r[j] == tail[j - 1];
          if i > 0 {
            assert r[i] == tail[i - 1];
          } else {
            assert s[0] == '<';
            assert '>' !in s[1..];
            ReplaceTagsLacks(s[1..], rep, false, '>');
          }
        }
      }
    }
  }

  /** The fallback entity decoder: six global replacements in a fixed order,
      `&amp;` second, so a double-escaped `&amp;lt;` decodes all the way to `<`. */
  function DecodeHtmlEntities(s: string): string {
    var t1 := ReplaceAll(s, "&nbsp;", " ");
    var t2 := ReplaceAll(t1, "&amp;", "&");
    var t3 := ReplaceAll(t2, "&lt;", "<");
    var t4 := ReplaceAll(t3, "&gt;", ">");
    var t5 := ReplaceAll(t4, "&quot;", "\"");
    ReplaceAll(t5, "&#39;", "'")
  }

  /** Text without `&` holds no entity and is decoded to itself. */
  lemma DecodeNoEntity(s: string)
    requires Lacks(s, '&')
    ensures DecodeHtmlEntities(s) == s
  {
    ReplaceAllNoStart(s, "&nbsp;", " ");
    ReplaceAllNoStart(s, "&amp;", "&");
    ReplaceAllNoStart(s, "&lt;", "<");
    ReplaceAllNoStart(s, "&gt;", ">");
    ReplaceAllNoStart(s, "&quot;", "\"");
    ReplaceAllNoStart(s, "&#39;", "'");
  }

  /** Decoding never brings in a backslash. */
  lemma DecodeLacks(s: string, c: char)
    requires Lacks(s, c) && c !in " &<>\"'"
    ensures Lacks(DecodeHtmlEntities(s), c)
  {
    ReplaceAllLacks(s, "&nbsp;", " ", c);
    var t1 := ReplaceAll(s, "&nbsp;", " ");
    ReplaceAllLacks(t1, "&amp;", "&", c);
    var t2 := ReplaceAll(t1, "&amp;", "&");
    ReplaceAllLacks(t2, "&lt;", "<", c);
    var t3 := ReplaceAll(t2, "&lt;", "<");
    ReplaceAllLacks(t3, "&gt;", ">", c);
    var t4 := ReplaceAll(t3, "&gt;", ">");
    ReplaceAllLacks(t4, "&quot;", "\"", c);
    var t5 := ReplaceAll(t4, "&quot;", "\"");
    ReplaceAllLacks(t5, "&#39;", "'", c);
  }

  /** `&nbsp;` does not occur in `&amp;lt;x` when `x` has no `&`. */
  lemma DoubleEscapedNbspStep(x: string)
    requires Lacks(x, '&')
    ensures ReplaceAll("&amp;lt;" + x, "&nbsp;", " ") == "&amp;lt;" + x
  {
    var s := "&amp;lt;" + x;
    assert s[..6][1] == 'a';
    ReplaceAllHeadMiss(s, "&nbsp;", " ");
    assert s[1..] == "amp;lt;" + x;
    LacksConcat("amp;lt;", x, '&');
    ReplaceAllNoStart(s[1..], "&nbsp;", " ");
    assert [s[0]] + s[1..] == s;
  }

  /** `&amp;` at the head of `&amp;lt;x` is decoded, and nothing after it. */
  lemma DoubleEscapedAmpStep(x: string)
    requires Lacks(x, '&')
    ensures ReplaceAll("&amp;lt;" + x, "&amp;", "&") == "&lt;" + x
  {
    assert "&amp;lt;" + x == "" + "&amp;" + ("lt;" + x);
    ReplaceAllSplice("", "&amp;", "lt;" + x, "&");
    LacksConcat("lt;", x, '&');
    ReplaceAllNoStart("lt;" + x, "&amp;", "&");
    assert "" + "&" + ("lt;" + x) == "&lt;" + x;
  }

  /** The `&lt;` that the `&amp;` step produced is decoded in turn. */
  lemma DoubleEscapedLtStep(x: string)
    requires Lacks(x, '&')
    ensures ReplaceAll("&lt;" + x, "&lt;", "<") == "<" + x
  {
    assert "&lt;" + x == "" + "&lt;" + x;
    ReplaceAllSplice("", "&lt;", x, "<");
    ReplaceAllNoStart(x, "&lt;", "<");
    assert "" + "<" + x == "<" + x;
  }

  /** `&amp;` is decoded before `&lt;`, so a double-escaped `&amp;lt;`
      becomes `<`. */
  lemma DoubleEscapedLessThan(x: string)
    requires Lacks(x, '&')
    ensures DecodeHtmlEntities("&amp;lt;" + x) == "<" + x
  {
    DoubleEscapedNbspStep(x);
    DoubleEscapedAmpStep(x);
    DoubleEscapedLtStep(x);
    LacksConcat("<", x, '&');
    ReplaceAllNoStart("<" + x, "&gt;", ">");
    ReplaceAllNoStart("<" + x, "&quot;", "\"");
    ReplaceAllNoStart("<" + x, "&#39;", "'");
  }

  /** An entity longer than `&gt;` whose second character is not `l` does not
      occur in `&lt;x&gt;` when `x` has no `&`. */
  lemma EscapedMissesEntity(x: string, pat: string, rep: string)
    requires Lacks(x, '&') && |pat| >= 5 && pat[0] == '&' && pat[1] != 'l'
    ensures ReplaceAll("&lt;" + x + "&gt;", pat, rep) == "&lt;" + x + "&gt;"
  {
    var s := "&lt;" + x + "&gt;";
    assert s[1] == 'l';
    assert !(|pat| <= |s| && s[..|pat|] == pat) by {
      if |pat| <= |s| {
        assert s[..|pat|][1] == s[1];
      }
    }
    ReplaceAllHeadMiss(s, pat, rep);
    assert s[1..] == ("lt;" + x) + "&gt;";
    LacksConcat("lt;", x, '&');
    ReplaceAllKeepPrefix("lt;" + x, "&gt;", pat, rep);
    assert ReplaceAll("&gt;", pat, rep) == "&gt;";
    assert [s[0]] + (("lt;" + x) + "&gt;") == s;
  }

  /** `&lt;` at the head of `&lt;x&gt;` is decoded, and nothing after it. */
  lemma EscapedLessThanStep(x: string)
    requires Lacks(x, '&')
    ensures ReplaceAll("&lt;" + x + "&gt;", "&lt;", "<") == "<" + x + "&gt;"
  {
    assert "&lt;" + x + "&gt;" == "" + "&lt;" + (x + "&gt;");
    ReplaceAllSplice("", "&lt;", x + "&gt;", "<");
    ReplaceAllKeepPrefix(x, "&gt;", "&lt;", "<");
    assert "&gt;"[..4] != "&lt;" by {
      assert "&gt;"[..4][1] == 'g';
    }
    ReplaceAllMissAtHead("&gt;", "&lt;", "<");
  }

  /** The trailing `&gt;` of `<x&gt;` is decoded. */
  lemma EscapedGreaterThanStep(x: string)
    requires Lacks(x, '&')
    ensures ReplaceAll("<" + x + "&gt;", "&gt;", ">") == "<" + x + ">"
  {
    assert "<" + x + "&gt;" == ("<" + x) + "&gt;" + "";
    LacksConcat("<", x, '&');
    ReplaceAllSplice("<" + x, "&gt;", "", ">");
  }

  /** `&lt;x&gt;` decodes to `<x>` when `x` holds no `&`. */
  lemma EscapedAngleBrackets(x: string)
    requires Lacks(x, '&')
    ensures DecodeHtmlEntities("&lt;" + x + "&gt;") == "<" + x + ">"
  {
    EscapedMissesEntity(x, "&nbsp;", " ");
    EscapedMissesEntity(x, "&amp;", "&");
    EscapedLessThanStep(x);
    EscapedGreaterThanStep(x);
    var u := "<" + x + ">";
    LacksConcat("<", x, '&');
    LacksConcat("<" + x, ">", '&');
    ReplaceAllNoStart(u, "&quot;", "\"");
    ReplaceAllNoStart(u, "&#39;", "'");
  }

  /** An inline math wrapper starts at position 0: a backslash followed by one
      of `(`, `)`, `[`, `]`. */
  predicate WrapperAt(s: string) {
    |s| >= 2 && s[0] == '\\' && s[1] in "()[]"
  }

  /** `s.replace(/\\\(|\\\)|\\\[|\\\]/g, "")`: the wrappers are deleted in one
      left-to-right scan, so the backslash of a deleted wrapper cannot pair
      with a later character. */
  function RemoveInlineWrappers(s: string): string
    decreases |s|
  {
    if s == [] then []
    else if WrapperAt(s) then RemoveInlineWrappers(s[2..])
    else [s[0]] + RemoveInlineWrappers(s[1..])
  }

  /** Text without a backslash holds no wrapper and is copied unchanged. */
  lemma {:induction false} RemoveWrappersNoStart(s: string)
    requires Lacks(s, '\\')
    ensures RemoveInlineWrappers(s) == s
    decreases |s|
  {
    if s != [] {
      RemoveWrappersNoStart(s[1..]);
    }
  }

  /** A wrapper after backslash-free text is deleted, and the scan goes on after it. */
  lemma {:induction false} RemoveWrappersSplice(a: string, w: string, b: string)
    requires Lacks(a, '\\') && |w| == 2 && w[0] == '\\' && w[1] in "()[]"
    ensures RemoveInlineWrappers(a + w + b) == a + RemoveInlineWrappers(b)
    decreases |a|
  {
    var s := a + w + b;
    if a == [] {
      assert s == w + b && s[2..] == b;
    } else {
      assert s[0] == a[0];
      assert s[1..] == a[1..] + w + b;
      RemoveWrappersSplice(a[1..], w, b);
      assert [a[0]] + a[1..] == a;
    }
  }

  /** A backslash never followed by a wrapper character is kept. */
  lemma {:induction false} RemoveWrappersKeepsBareBackslash(s: string)
    requires forall i :: 0 <= i < |s| - 1 && s[i] == '\\' ==> s[i + 1] !in "()[]"
    ensures RemoveInlineWrappers(s) == s
    decreases |s|
  {
    if s != [] {
      assert !WrapperAt(s);
      RemoveWrappersKeepsBareBackslash(s[1..]);
    }
  }

  lemma {:induction false} RemoveWrappersLacks(s: string, c: char)
    requires Lacks(s, c)
    ensures Lacks(RemoveInlineWrappers(s), c)
    decreases |s|
  {
    if s != [] {
      if WrapperAt(s) {
        RemoveWrappersLacks(s[2..], c);
      } else {
        RemoveWrappersLacks(s[1..], c);
      }
    }
  }
}
