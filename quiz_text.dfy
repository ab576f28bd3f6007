/** quizText.ts: turning question and option markup into the plain text that
    the canvas text elements show. */
module QuizText {
  import opened Strings
  import opened Wrappers
  import opened HtmlText

  /** A fraction `\frac{x}{y}` starts at position 0; each argument runs to
      the first `}` after its `{`. */
  predicate FracAt(s: string) {
    && |s| >= 6 && s[0] == '\\' && s[1] == 'f' && s[2] == 'r' && s[3] == 'a'
    && s[4] == 'c' && s[5] == '{'
    && var j := Find(s, '}', 6);
       j + 1 < |s| && s[j + 1] == '{' && Find(s, '}', j + 2) < |s|
  }

  /** One step of the fraction scan at a non-empty position: the text it
      emits and the number of characters it consumes. */
  function FracStep(s: string): (r: (string, nat))
    requires s != []
    ensures 1 <= r.1 <= |s|
  {
    if FracAt(s) then
      var j := Find(s, '}', 6);
      var k := Find(s, '}', j + 2);
      (s[6..j] + "/" + s[j + 2..k], k + 1)
    else ([s[0]], 1)
  }

  /** `\frac{x}{y}` becomes `x/y`, scanning left to right. */
  function RewriteFractions(s: string): string
    decreases |s|
  {
    if s == [] then []
    else
      var (out, n) := FracStep(s);
      out + RewriteFractions(s[n..])
  }

  /** A group `open x }` starts at position 0, `x` running to the first `}`. */
  predicate GroupAt(s: string, open: Pattern) {
    |open| <= |s| && s[0] == open[0] && s[..|open|] == open && Find(s, '}', |open|) < |s|
  }

  /** Each `open x }` becomes `x`, scanning left to right (the five
      formatting commands and bare braces). */
  function UnwrapGroups(s: string, open: Pattern): string
    decreases |s|
  {
    if s == [] then []
    else if GroupAt(s, open) then
      var j := Find(s, '}', |open|);
      s[|open|..j] + UnwrapGroups(s[j + 1..], open)
    else [s[0]] + UnwrapGroups(s[1..], open)
  }

  /** The six symbol commands, in the order they are replaced. */
  const SymbolCommands: seq<(Pattern, char)> := [
    ("\\times", '×'), ("\\cdot", '·'), ("\\leq", '≤'),
    ("\\geq", '≥'), ("\\neq", '≠'), ("\\pm", '±')
  ]

  /** The group openers that are unwrapped, in order: five formatting
      commands, then bare braces. */
  const GroupOpeners: seq<Pattern> := [
    "\\mathrm{", "\\text{", "\\mathbf{", "\\mathit{", "\\mathsf{", "{"
  ]

  /** Global replacement of each command by its symbol, in table order. */
  function ReplaceSymbols(s: string, table: seq<(Pattern, char)>): string
    decreases |table|
  {
    if table == [] then s
    else ReplaceSymbols(ReplaceAll(s, table[0].0, [table[0].1]), table[1..])
  }

  /** Unwrapping of each opener's groups, in list order. */
  function UnwrapAll(s: string, openers: seq<Pattern>): string
    decreases |openers|
  {
    if openers == [] then s
    else UnwrapAll(UnwrapGroups(s, openers[0]), openers[1..])
  }

  /** The LaTeX-to-text stage: wrappers removed, fractions rewritten, symbols
      replaced, groups unwrapped, then every remaining backslash deleted. */
  function SanitizeLatexToText(s: string): (r: string)
    ensures Lacks(r, '\\')
  {
    var t1 := RemoveInlineWrappers(s);
    var t2 := RewriteFractions(t1);
    var t3 := ReplaceSymbols(t2, SymbolCommands);
    var t4 := UnwrapAll(t3, GroupOpeners);
    var r := ReplaceAll(t4, "\\", "");
    ReplaceAllRemovesChar(t4, '\\', "");
    r
  }

  /** Plain text for a question or option: empty for a missing or empty value;
      otherwise tags become spaces, entities are decoded, LaTeX is reduced to
      text and white space is collapsed and trimmed. */
  function SanitizeQuizText(value: Option<string>): (r: string)
    ensures value == None || value == Some("") ==> r == ""
    ensures IsClean(r)
    ensures Lacks(r, '\\')
  {
    if value == None || value == Some("") then ""
    else
      var withoutTags := ReplaceTags(value.value, " ", false);
      var decoded := DecodeHtmlEntities(withoutTags);
      var t := SanitizeLatexToText(decoded);
      CleanLacks(t, '\\');
      CleanSpaces(t)
  }

  // ---------------------------------------------------------------------
  // Scanning lemmas for the two scanners defined here.

  lemma {:induction false} RewriteFractionsNoStart(s: string)
    requires Lacks(s, '\\')
    ensures RewriteFractions(s) == s
    decreases |s|
  {
    if s != [] {
      RewriteFractionsNoStart(s[1..]);
    }
  }

  /** A fraction at the head, located by the positions of its two closing braces. */
  lemma RewriteFractionsAt(s: string, j: nat, k: nat)
    requires |s| >= 6 && s[..6] == "\\frac{"
    requires 6 <= j && j + 2 <= k < |s| && s[j] == '}' && s[j + 1] == '{' && s[k] == '}'
    requires forall i :: 6 <= i < j ==> s[i] != '}'
    requires forall i :: j + 2 <= i < k ==> s[i] != '}'
    ensures RewriteFractions(s) == s[6..j] + "/" + s[j + 2..k] + RewriteFractions(s[k + 1..])
  {
    FracAtBraces(s, j, k);
    FracStepAt(s, j, k);
    RewriteFractionsUnfold(s, s[6..j] + "/" + s[j + 2..k], k + 1);
  }

  /** One step of the scan followed by the scan of the rest. */
  lemma RewriteFractionsUnfold(s: string, out: string, n: nat)
    requires s != [] && FracStep(s) == (out, n)
    ensures RewriteFractions(s) == out + RewriteFractions(s[n..])
  {
  }

  /** Elsewhere the step copies one character. */
  lemma FracStepMiss(s: string)
    requires s != [] && !FracAt(s)
    ensures FracStep(s) == ([s[0]], 1)
  {
  }

  /** A fraction starts with `\frac{`. */
  lemma FracAtStartsWith(s: string)
    ensures FracAt(s) ==> StartsWith(s, "\\frac{")
  {
    if FracAt(s) {
      assert s[..6] == "\\frac{";
    }
  }

  /** The step at a fraction emits `x/y` and consumes through the second `}`. */
  lemma FracStepAt(s: string, j: nat, k: nat)
    requires FracAt(s) && Find(s, '}', 6) == j && Find(s, '}', j + 2) == k
    ensures FracStep(s) == (s[6..j] + "/" + s[j + 2..k], k + 1)
  {
  }

  /** The braces that `RewriteFractionsAt` is given are the ones the scan finds. */
  lemma FracAtBraces(s: string, j: nat, k: nat)
    requires |s| >= 6 && s[..6] == "\\frac{"
    requires 6 <= j && j + 2 <= k < |s| && s[j] == '}' && s[j + 1] == '{' && s[k] == '}'
    requires forall i :: 6 <= i < j ==> s[i] != '}'
    requires forall i :: j + 2 <= i < k ==> s[i] != '}'
    ensures FracAt(s) && Find(s, '}', 6) == j && Find(s, '}', j + 2) == k
  {
    assert forall i :: 0 <= i < 6 ==> s[i] == s[..6][i];
  }

  /** A fraction at the very start becomes `x/y`. */
  lemma RewriteFractionsAtHead(x: string, y: string, b: string)
    requires Lacks(x, '}') && Lacks(y, '}')
    ensures RewriteFractions("\\frac{" + x + "}{" + y + "}" + b) == x + "/" + y + RewriteFractions(b)
  {
    var s := "\\frac{" + x + "}{" + y + "}" + b;
    var j := 6 + |x|;
    var k := j + 2 + |y|;
    assert s[..6] == "\\frac{";
    assert s[6..j] == x;
    assert s[j] == '}' && s[j + 1] == '{';
    assert s[j + 2..k] == y;
    assert s[k] == '}';
    assert s[k + 1..] == b;
    assert forall i :: 6 <= i < j ==> s[i] == x[i - 6];
    assert forall i :: j + 2 <= i < k ==> s[i] == y[i - j - 2];
    RewriteFractionsAt(s, j, k);
  }

  /** A fraction after backslash-free text becomes `x/y`. */
  lemma RewriteFractionsSplice(a: string, x: string, y: string, b: string)
    requires Lacks(a, '\\') && Lacks(x, '}') && Lacks(y, '}')
    ensures RewriteFractions(a + ("\\frac{" + x + "}{" + y + "}" + b))
         == a + (x + "/" + y + RewriteFractions(b))
  {
    RewriteFractionsPrefix(a, "\\frac{" + x + "}{" + y + "}" + b);
    RewriteFractionsAtHead(x, y, b);
  }

  /** No fraction can start inside backslash-free text. */
  lemma {:induction false} RewriteFractionsPrefix(a: string, t: string)
    requires Lacks(a, '\\')
    ensures RewriteFractions(a + t) == a + RewriteFractions(t)
    decreases |a|
  {
    if a != [] {
      var s := a + t;
      assert s[0] == a[0];
      assert !FracAt(s) by {
        assert |s| >= 6 ==> s[..6][0] == s[0];
      }
      assert s[1..] == a[1..] + t;
      calc {
        RewriteFractions(s);
        [s[0]] + RewriteFractions(s[1..]);
        { RewriteFractionsPrefix(a[1..], t); }
        [a[0]] + (a[1..] + RewriteFractions(t));
        { assert [a[0]] + a[1..] == a; }
        a + RewriteFractions(t);
      }
    } else {
      assert a + t == t;
    }
  }

  lemma {:induction false} UnwrapGroupsNoStart(s: string, open: Pattern)
    requires Lacks(s, open[0])
    ensures UnwrapGroups(s, open) == s
    decreases |s|
  {
    if s != [] {
      assert |open| <= |s| ==> s[..|open|][0] == s[0];
      UnwrapGroupsNoStart(s[1..], open);
    }
  }

  /** A group at the very start is unwrapped. */
  lemma UnwrapGroupsAtHead(open: Pattern, x: string, b: string)
    requires Lacks(x, '}')
    ensures UnwrapGroups(open + x + "}" + b, open) == x + UnwrapGroups(b, open)
  {
    var s := open + x + "}" + b;
    var j := |open| + |x|;
    assert s[..|open|] == open;
    assert forall i :: |open| <= i < j ==> s[i] == x[i - |open|];
    assert s[j] == '}';
    assert Find(s, '}', |open|) == j;
    assert s[|open|..j] == x && s[j + 1..] == b;
  }

  /** No group can start inside text that lacks the opener's first character. */
  lemma {:induction false} UnwrapGroupsPrefix(a: string, t: string, open: Pattern)
    requires Lacks(a, open[0])
    ensures UnwrapGroups(a + t, open) == a + UnwrapGroups(t, open)
    decreases |a|
  {
    if a != [] {
      var s := a + t;
      assert s[0] == a[0];
      assert !GroupAt(s, open) by {
        assert |open| <= |s| ==> s[..|open|][0] == s[0];
      }
      assert s[1..] == a[1..] + t;
      calc {
        UnwrapGroups(s, open);
        [s[0]] + UnwrapGroups(s[1..], open);
        { UnwrapGroupsPrefix(a[1..], t, open); }
        [a[0]] + (a[1..] + UnwrapGroups(t, open));
        { assert [a[0]] + a[1..] == a; }
        a + UnwrapGroups(t, open);
      }
    } else {
      assert a + t == t;
    }
  }

  /** A group after text in which the opener cannot start is unwrapped. */
  lemma UnwrapGroupsSplice(a: string, open: Pattern, x: string, b: string)
    requires Lacks(a, open[0]) && Lacks(x, '}')
    ensures UnwrapGroups(a + open + x + "}" + b, open) == a + x + UnwrapGroups(b, open)
  {
    var t := open + x + "}" + b;
    calc {
      UnwrapGroups(a + open + x + "}" + b, open);
      { assert a + open + x + "}" + b == a + t; }
      UnwrapGroups(a + t, open);
      { UnwrapGroupsPrefix(a, t, open); }
      a + UnwrapGroups(t, open);
      { UnwrapGroupsAtHead(open, x, b); }
      a + (x + UnwrapGroups(b, open));
      a + x + UnwrapGroups(b, open);
    }
  }

  lemma {:induction false} UnwrapGroupsMissAtHead(s: string, open: Pattern)
    requires s != [] && Lacks(s[1..], open[0]) && !StartsWith(s, open)
    ensures UnwrapGroups(s, open) == s
  {
    UnwrapGroupsNoStart(s[1..], open);
    assert [s[0]] + s[1..] == s;
  }

  // ---------------------------------------------------------------------
  // The two tables and the stages built from them.

  /** The pattern `p` is a prefix of `s`. */
  predicate StartsWith(s: string, p: string) {
    |p| <= |s| && s[..|p|] == p
  }

  lemma StartsWithPrefix(s: string, p: string, n: nat)
    requires StartsWith(s, p) && n <= |p|
    ensures s[..n] == p[..n]
  {
    assert s[..n] == s[..|p|][..n];
  }

  /** Strings whose first `n` characters differ do not start with each other. */
  lemma NotStartsWith(s: string, p: string, n: nat)
    requires n <= |s| && n <= |p| && s[..n] != p[..n]
    ensures !StartsWith(s, p)
  {
    if |p| <= |s| {
      assert s[..n] == s[..|p|][..n];
      assert p[..n] == p[..n];
    }
  }

  /** A backslash followed by at least two lower-case letters. */
  predicate Command(c: string) {
    |c| >= 3 && c[0] == '\\' && forall i :: 1 <= i < |c| ==> 'a' <= c[i] <= 'z'
  }

  /** `\name{` for a lower-case name of at least two letters, not `\frac{`. */
  predicate FormattingOpener(o: string) {
    |o| >= 6 && o[..6] != "\\frac{" && Command(o[..|o| - 1]) && o[|o| - 1] == '{'
  }

  lemma SymbolTableFacts()
    ensures forall k :: 0 <= k < |SymbolCommands| ==> Command(SymbolCommands[k].0)
    ensures forall k :: 0 <= k < |SymbolCommands| ==>
      !IsSpace(SymbolCommands[k].1) && SymbolCommands[k].1 !in "\\{<&"
    ensures forall j, k :: 0 <= j < |SymbolCommands| && 0 <= k < |SymbolCommands| && j != k ==>
      SymbolCommands[j].0[1] != SymbolCommands[k].0[1]
  {
  }

  lemma OpenerTableFacts()
    ensures |GroupOpeners| == 6 && GroupOpeners[5] == "{"
    ensures forall k :: 0 <= k < 5 ==> FormattingOpener(GroupOpeners[k])
    ensures forall j, k :: 0 <= j < 5 && 0 <= k < 5 && j != k ==>
      GroupOpeners[j][..6] != GroupOpeners[k][..6]
  {
    assert GroupOpeners[0][..6] == "\\mathr";
    assert GroupOpeners[1][..6] == "\\text{";
    assert GroupOpeners[2][..6] == "\\mathb";
    assert GroupOpeners[3][..6] == "\\mathi";
    assert GroupOpeners[4][..6] == "\\maths";
    forall k | 0 <= k < 5 ensures FormattingOpener(GroupOpeners[k]) {
      var o := GroupOpeners[k];
      assert o[..|o| - 1] == o[..|o| - 1];
    }
  }

  /** No symbol command shares its first three characters with a formatting opener. */
  lemma TablesDisjoint()
    ensures forall j, k :: 0 <= j < |SymbolCommands| && 0 <= k < 5 ==>
      SymbolCommands[j].0[..3] != GroupOpeners[k][..3]
  {
    assert GroupOpeners[0][..3] == "\\ma" && GroupOpeners[1][..3] == "\\te";
    assert GroupOpeners[2][..3] == "\\ma" && GroupOpeners[3][..3] == "\\ma";
    assert GroupOpeners[4][..3] == "\\ma";
    assert SymbolCommands[0].0[..3] == "\\ti";
    assert SymbolCommands[1].0[..3] == "\\cd";
    assert SymbolCommands[2].0[..3] == "\\le";
    assert SymbolCommands[3].0[..3] == "\\ge";
    assert SymbolCommands[4].0[..3] == "\\ne";
    assert SymbolCommands[5].0[..3] == "\\pm";
  }

  lemma {:induction false} ReplaceSymbolsNoStart(s: string, table: seq<(Pattern, char)>)
    requires forall k :: 0 <= k < |table| ==> table[k].0[0] == '\\'
    requires Lacks(s, '\\')
    ensures ReplaceSymbols(s, table) == s
    decreases |table|
  {
    if table != [] {
      ReplaceAllNoStart(s, table[0].0, [table[0].1]);
      ReplaceSymbolsNoStart(s, table[1..]);
    }
  }

  lemma {:induction false} ReplaceSymbolsMissAtHead(s: string, table: seq<(Pattern, char)>)
    requires s != [] && Lacks(s[1..], '\\')
    requires forall k :: 0 <= k < |table| ==> table[k].0[0] == '\\' && !StartsWith(s, table[k].0)
    ensures ReplaceSymbols(s, table) == s
    decreases |table|
  {
    if table != [] {
      ReplaceAllMissAtHead(s, table[0].0, [table[0].1]);
      ReplaceSymbolsMissAtHead(s, table[1..]);
    }
  }

  lemma {:induction false} ReplaceSymbolsAppend(s: string, a: seq<(Pattern, char)>, b: seq<(Pattern, char)>)
    ensures ReplaceSymbols(s, a + b) == ReplaceSymbols(ReplaceSymbols(s, a), b)
    decreases |a|
  {
    if a != [] {
      assert (a + b)[0] == a[0] && (a + b)[1..] == a[1..] + b;
      ReplaceSymbolsAppend(ReplaceAll(s, a[0].0, [a[0].1]), a[1..], b);
    } else {
      assert a + b == b;
    }
  }

  lemma {:induction false} UnwrapAllNoStart(s: string, openers: seq<Pattern>)
    requires forall k :: 0 <= k < |openers| ==> Lacks(s, openers[k][0])
    ensures UnwrapAll(s, openers) == s
    decreases |openers|
  {
    if openers != [] {
      UnwrapGroupsNoStart(s, openers[0]);
      UnwrapAllNoStart(s, openers[1..]);
    }
  }

  lemma {:induction false} UnwrapAllMissAtHead(s: string, openers: seq<Pattern>)
    requires s != [] && Lacks(s[1..], '\\')
    requires forall k :: 0 <= k < |openers| ==> openers[k][0] == '\\' && !StartsWith(s, openers[k])
    ensures UnwrapAll(s, openers) == s
    decreases |openers|
  {
    if openers != [] {
      UnwrapGroupsMissAtHead(s, openers[0]);
      UnwrapAllMissAtHead(s, openers[1..]);
    }
  }

  /** Running a list of openers is running a prefix of it, then the rest. */
  lemma UnwrapAllSplit(s: string, openers: seq<Pattern>, k: nat)
    requires k <= |openers|
    ensures UnwrapAll(s, openers) == UnwrapAll(UnwrapAll(s, openers[..k]), openers[k..])
  {
    assert openers == openers[..k] + openers[k..];
    UnwrapAllAppend(s, openers[..k], openers[k..]);
  }

  /** Running a symbol table is running a prefix of it, then the rest. */
  lemma ReplaceSymbolsSplit(s: string, table: seq<(Pattern, char)>, k: nat)
    requires k <= |table|
    ensures ReplaceSymbols(s, table) == ReplaceSymbols(ReplaceSymbols(s, table[..k]), table[k..])
  {
    assert table == table[..k] + table[k..];
    ReplaceSymbolsAppend(s, table[..k], table[k..]);
  }

  lemma {:induction false} UnwrapAllAppend(s: string, a: seq<Pattern>, b: seq<Pattern>)
    ensures UnwrapAll(s, a + b) == UnwrapAll(UnwrapAll(s, a), b)
    decreases |a|
  {
    if a != [] {
      assert (a + b)[0] == a[0] && (a + b)[1..] == a[1..] + b;
      UnwrapAllAppend(UnwrapGroups(s, a[0]), a[1..], b);
    } else {
      assert a + b == b;
    }
  }

  /** Text without backslash or `{` passes the command steps unchanged. */
  lemma CommandStepsKeep(s: string)
    requires Lacks(s, '\\') && Lacks(s, '{')
    ensures ReplaceSymbols(s, SymbolCommands) == s
    ensures UnwrapAll(s, GroupOpeners) == s
  {
    ReplaceSymbolsNoStart(s, SymbolCommands);
    UnwrapAllNoStart(s, GroupOpeners);
  }

  // ---------------------------------------------------------------------
  // What the whole pipeline does with common inputs.

  /** No `<` and no `&`: nothing for the tag and entity steps to change. */
  predicate MarkupFree(s: string) {
    Lacks(s, '<') && Lacks(s, '&')
  }

  /** No markup and no LaTeX: no `<`, `&`, backslash or `{`. */
  predicate Plain(s: string) {
    MarkupFree(s) && Lacks(s, '\\') && Lacks(s, '{')
  }

  lemma MarkupFreeConcat(a: string, b: string)
    ensures MarkupFree(a + b) <==> MarkupFree(a) && MarkupFree(b)
  {
    LacksConcat(a, b, '<');
    LacksConcat(a, b, '&');
  }

  lemma PlainConcat(a: string, b: string)
    ensures Plain(a + b) <==> Plain(a) && Plain(b)
  {
    MarkupFreeConcat(a, b);
    LacksConcat(a, b, '\\');
    LacksConcat(a, b, '{');
  }

  /** The markup steps leave markup-free text alone. */
  lemma MarkupStepsKeep(s: string)
    requires MarkupFree(s)
    ensures DecodeHtmlEntities(ReplaceTags(s, " ", false)) == s
  {
    ReplaceTagsNoTag(s, " ", false);
    DecodeNoEntity(s);
  }

  /** `SanitizeQuizText` on a non-empty string, stage by stage. */
  lemma SanitizeStages(s: string, decoded: string, latex: string)
    requires s != []
    requires DecodeHtmlEntities(ReplaceTags(s, " ", false)) == decoded
    requires SanitizeLatexToText(decoded) == latex
    ensures SanitizeQuizText(Some(s)) == CleanSpaces(latex)
  {
  }

  /** `SanitizeLatexToText`, stage by stage, when no backslash is left for
      the last step. */
  lemma LatexStages(s: string, t2: string, t3: string, t4: string)
    requires RewriteFractions(RemoveInlineWrappers(s)) == t2
    requires ReplaceSymbols(t2, SymbolCommands) == t3
    requires UnwrapAll(t3, GroupOpeners) == t4
    requires Lacks(t4, '\\')
    ensures SanitizeLatexToText(s) == t4
  {
    ReplaceAllNoStart(t4, "\\", "");
  }

  /** Text without backslash or `{` passes the LaTeX stage unchanged. */
  lemma LatexStageKeepsPlain(s: string)
    requires Lacks(s, '\\') && Lacks(s, '{')
    ensures SanitizeLatexToText(s) == s
  {
    RemoveWrappersNoStart(s);
    RewriteFractionsNoStart(s);
    CommandStepsKeep(s);
    LatexStages(s, s, s, s);
  }

  /** Plain text only has its white space collapsed and trimmed. */
  lemma PlainTextKept(s: string)
    requires s != [] && Plain(s)
    ensures SanitizeQuizText(Some(s)) == CleanSpaces(s)
  {
    MarkupStepsKeep(s);
    LatexStageKeepsPlain(s);
    SanitizeStages(s, s, s);
  }

  /** Text that is already clean and plain comes back unchanged. */
  lemma CleanPlainTextIsFixed(s: string)
    requires s != [] && Plain(s) && IsClean(s)
    ensures SanitizeQuizText(Some(s)) == s
  {
    PlainTextKept(s);
    CleanOfClean(s);
  }

  /** A tag between plain words becomes a space between them. */
  lemma TagReplacedBySpace(a: string, inner: string, b: string)
    requires Plain(a) && Plain(b) && Lacks(inner, '>')
    ensures ReplaceTags(a + "<" + inner + ">" + b, " ", false) == a + " " + b
  {
    assert a + "<" + inner + ">" + b == a + ("<" + inner + ">" + b);
    ReplaceTagsSplice(a, inner, b, " ", false);
    ReplaceTagsNoTag(b, " ", false);
    assert a + (" " + b) == a + " " + b;
  }

  lemma TagBecomesSpace(a: string, inner: string, b: string)
    requires Plain(a) && Plain(b) && Lacks(inner, '>')
    ensures SanitizeQuizText(Some(a + "<" + inner + ">" + b)) == CleanSpaces(a + " " + b)
  {
    var s := a + "<" + inner + ">" + b;
    var t := a + " " + b;
    TagReplacedBySpace(a, inner, b);
    assert Plain(t) by {
      PlainConcat(a, " ");
      PlainConcat(a + " ", b);
    }
    DecodeNoEntity(t);
    LatexStageKeepsPlain(t);
    assert |s| > |a|;
    SanitizeStages(s, t, t);
  }

  /** A backslash command that is not `\frac{` passes the wrapper and
      fraction steps unchanged. */
  lemma CommandHeadKept(s: string)
    requires |s| >= 2 && s[0] == '\\' && 'a' <= s[1] <= 'z' && Lacks(s[1..], '\\')
    requires !StartsWith(s, "\\frac{")
    ensures RewriteFractions(RemoveInlineWrappers(s)) == s
  {
    CommandKeepsWrappers(s);
    CommandKeepsFractions(s);
  }

  lemma CommandKeepsWrappers(s: string)
    requires |s| >= 2 && s[0] == '\\' && 'a' <= s[1] <= 'z' && Lacks(s[1..], '\\')
    ensures RemoveInlineWrappers(s) == s
  {
    assert !WrapperAt(s);
    RemoveWrappersNoStart(s[1..]);
    assert [s[0]] + s[1..] == s;
  }

  lemma CommandKeepsFractions(s: string)
    requires |s| >= 2 && Lacks(s[1..], '\\') && !StartsWith(s, "\\frac{")
    ensures RewriteFractions(s) == s
  {
    FracAtStartsWith(s);
    FracStepMiss(s);
    RewriteFractionsUnfold(s, [s[0]], 1);
    RewriteFractionsNoStart(s[1..]);
    assert [s[0]] + s[1..] == s;
  }

  /** What the steps before the symbol step see in a command name. */
  lemma CommandFacts(c: string)
    requires Command(c)
    ensures Lacks(c[1..], '\\') && MarkupFree(c) && !StartsWith(c, "\\frac{")
  {
    assert forall i :: 0 <= i < |c| - 1 ==> c[1..][i] == c[i + 1];
    if |c| >= 6 {
      assert c[..6][5] == c[5];
      NotStartsWith(c, "\\frac{", 6);
    }
  }

  lemma FractionWrappersKept(x: string, y: string)
    requires Plain(x) && Plain(y)
    ensures RemoveInlineWrappers("\\frac{" + x + "}{" + y + "}") == "\\frac{" + x + "}{" + y + "}"
  {
    var rest := "frac{" + x + "}{" + y + "}";
    var s := "\\frac{" + x + "}{" + y + "}";
    LacksConcat("frac{", x, '\\');
    LacksConcat("frac{" + x, "}{", '\\');
    LacksConcat("frac{" + x + "}{", y, '\\');
    LacksConcat("frac{" + x + "}{" + y, "}", '\\');
    assert s == "\\" + rest && s[1..] == rest;
    assert !WrapperAt(s);
    RemoveWrappersNoStart(rest);
  }

  lemma FractionRewritten(x: string, y: string)
    requires Lacks(x, '}') && Lacks(y, '}')
    ensures RewriteFractions("\\frac{" + x + "}{" + y + "}") == x + "/" + y
  {
    var s := "\\frac{" + x + "}{" + y + "}";
    RewriteFractionsAtHead(x, y, "");
    assert s + "" == s;
    assert x + "/" + y + "" == x + "/" + y;
  }

  lemma SlashJoinPlain(x: string, y: string)
    requires Plain(x) && Plain(y)
    ensures Plain(x + "/" + y)
  {
    PlainConcat(x, "/");
    PlainConcat(x + "/", y);
  }

  /** The LaTeX stage turns `\frac{x}{y}` of plain arguments into `x/y`. */
  lemma FractionLatexStage(x: string, y: string)
    requires Plain(x) && Plain(y) && Lacks(x, '}') && Lacks(y, '}')
    ensures SanitizeLatexToText("\\frac{" + x + "}{" + y + "}") == x + "/" + y
  {
    var s := "\\frac{" + x + "}{" + y + "}";
    var t := x + "/" + y;
    FractionWrappersKept(x, y);
    FractionRewritten(x, y);
    SlashJoinPlain(x, y);
    CommandStepsKeep(t);
    LatexStages(s, t, t, t);
  }

  /** A fraction of plain arguments becomes `x/y`. */
  lemma FractionBecomesSlash(x: string, y: string)
    requires Plain(x) && Plain(y) && Lacks(x, '}') && Lacks(y, '}')
    ensures SanitizeQuizText(Some("\\frac{" + x + "}{" + y + "}")) == CleanSpaces(x + "/" + y)
  {
    var s := "\\frac{" + x + "}{" + y + "}";
    assert MarkupFree(s) by {
      MarkupFreeConcat("\\frac{", x);
      MarkupFreeConcat("\\frac{" + x, "}{");
      MarkupFreeConcat("\\frac{" + x + "}{", y);
      MarkupFreeConcat("\\frac{" + x + "}{" + y, "}");
    }
    MarkupStepsKeep(s);
    FractionLatexStage(x, y);
    SanitizeStages(s, s, x + "/" + y);
  }

  /** The symbol commands before the k-th leave it alone. */
  lemma SymbolsBeforeMiss(k: nat)
    requires k < |SymbolCommands|
    ensures ReplaceSymbols(SymbolCommands[k].0, SymbolCommands[..k]) == SymbolCommands[k].0
  {
    SymbolTableFacts();
    var table := SymbolCommands;
    var s := table[k].0;
    CommandFacts(s);
    forall j | 0 <= j < k ensures !StartsWith(s, table[..k][j].0) {
      var p := table[j].0;
      assert s[..2] != p[..2] by {
        assert s[..2][1] == s[1] && p[..2][1] == p[1];
      }
      NotStartsWith(s, p, 2);
    }
    ReplaceSymbolsMissAtHead(s, table[..k]);
  }

  /** The k-th symbol command and those after it turn it into its symbol. */
  lemma SymbolsFromHit(k: nat)
    requires k < |SymbolCommands|
    ensures ReplaceSymbols(SymbolCommands[k].0, SymbolCommands[k..]) == [SymbolCommands[k].1]
  {
    SymbolTableFacts();
    var table := SymbolCommands;
    var s := table[k].0;
    var sym := [table[k].1];
    ReplaceAllSplice("", s, "", sym);
    assert "" + s + "" == s && "" + sym + "" == sym;
    assert ReplaceAll(s, s, sym) == sym;
    assert table[k..][1..] == table[k + 1..];
    ReplaceSymbolsNoStart(sym, table[k + 1..]);
  }

  /** The symbol stage turns the k-th command into its symbol. */
  lemma SymbolStage(k: nat)
    requires k < |SymbolCommands|
    ensures ReplaceSymbols(SymbolCommands[k].0, SymbolCommands) == [SymbolCommands[k].1]
  {
    var table := SymbolCommands;
    SymbolsBeforeMiss(k);
    SymbolsFromHit(k);
    ReplaceSymbolsSplit(table[k].0, table, k);
  }

  /** The LaTeX stage turns the k-th symbol command into its symbol. */
  lemma SymbolLatexStage(k: nat)
    requires k < |SymbolCommands|
    ensures SanitizeLatexToText(SymbolCommands[k].0) == [SymbolCommands[k].1]
  {
    SymbolTableFacts();
    var s := SymbolCommands[k].0;
    var sym := [SymbolCommands[k].1];
    CommandFacts(s);
    CommandHeadKept(s);
    SymbolStage(k);
    SymbolUnwrapKeeps(SymbolCommands[k].1);
    LatexStages(s, s, sym, sym);
  }

  /** A symbol that is neither a backslash nor a brace leaves the unwrap step alone. */
  lemma SymbolUnwrapKeeps(c: char)
    requires c != '\\' && c != '{'
    ensures UnwrapAll([c], GroupOpeners) == [c] && Lacks([c], '\\')
  {
    assert forall k :: 0 <= k < |GroupOpeners| ==> GroupOpeners[k][0] in "\\{";
    UnwrapAllNoStart([c], GroupOpeners);
  }

  /** Each of the six symbol commands becomes its Unicode symbol. */
  lemma SymbolBecomesCharacter(k: nat)
    requires k < |SymbolCommands|
    ensures SanitizeQuizText(Some(SymbolCommands[k].0)) == [SymbolCommands[k].1]
  {
    SymbolTableFacts();
    var s := SymbolCommands[k].0;
    var sym := [SymbolCommands[k].1];
    CommandFacts(s);
    MarkupStepsKeep(s);
    SymbolLatexStage(k);
    SanitizeStages(s, s, sym);
    CleanOfClean(sym);
  }

  /** What the steps before the unwrap step see in a formatting group. */
  lemma FormattingGroupFacts(k: nat, x: string)
    requires k < 5 && Plain(x)
    ensures var s := GroupOpeners[k] + x + "}";
      && StartsWith(s, GroupOpeners[k]) && |s| >= 6
      && Lacks(s[1..], '\\') && MarkupFree(s) && !StartsWith(s, "\\frac{")
      && 'a' <= s[1] <= 'z'
  {
    var open := GroupOpeners[k];
    var s := open + x + "}";
    FormattingOpenerFacts(k);
    GroupTextFacts(open, x);
    StartsWithPrefix(s, open, 6);
    NotStartsWith(s, "\\frac{", 6);
  }

  /** What the earlier steps see in each formatting opener. */
  lemma FormattingOpenerFacts(k: nat)
    requires k < 5
    ensures var o := GroupOpeners[k];
      && |o| >= 6 && o[..6] != "\\frac{" && Lacks(o[1..], '\\') && MarkupFree(o)
      && 'a' <= o[1] <= 'z'
  {
    OpenerTableFacts();
    var open := GroupOpeners[k];
    var name := open[..|open| - 1];
    assert open == name + "{";
    CommandFacts(name);
    assert open[1..] == name[1..] + "{";
    LacksConcat(name[1..], "{", '\\');
    MarkupFreeConcat(name, "{");
    assert open[1] == name[1];
  }

  /** A group `open x }` around plain text keeps the opener's facts. */
  lemma GroupTextFacts(open: string, x: string)
    requires |open| >= 2 && Lacks(open[1..], '\\') && MarkupFree(open) && Plain(x)
    ensures var s := open + x + "}";
      && Lacks(s[1..], '\\') && MarkupFree(s) && s[1] == open[1] && s[..|open|] == open
  {
    var s := open + x + "}";
    assert s[1..] == open[1..] + x + "}";
    LacksConcat(open[1..], x, '\\');
    LacksConcat(open[1..] + x, "}", '\\');
    MarkupFreeConcat(open, x);
    MarkupFreeConcat(open + x, "}");
  }

  /** No symbol command matches at the head of a formatting group. */
  lemma FormattingSymbolsMiss(k: nat, x: string)
    requires k < 5 && Plain(x)
    ensures ReplaceSymbols(GroupOpeners[k] + x + "}", SymbolCommands) == GroupOpeners[k] + x + "}"
  {
    SymbolTableFacts();
    OpenerTableFacts();
    TablesDisjoint();
    FormattingGroupFacts(k, x);
    var open := GroupOpeners[k];
    var s := open + x + "}";
    StartsWithPrefix(s, open, 3);
    forall j | 0 <= j < |SymbolCommands| ensures !StartsWith(s, SymbolCommands[j].0) {
      NotStartsWith(s, SymbolCommands[j].0, 3);
    }
    ReplaceSymbolsMissAtHead(s, SymbolCommands);
  }

  /** The openers before the k-th leave its group alone. */
  lemma OpenersBeforeMiss(k: nat, x: string)
    requires k < 5 && Plain(x)
    ensures UnwrapAll(GroupOpeners[k] + x + "}", GroupOpeners[..k]) == GroupOpeners[k] + x + "}"
  {
    OpenerTableFacts();
    FormattingGroupFacts(k, x);
    var open := GroupOpeners[k];
    var s := open + x + "}";
    var openers := GroupOpeners;
    StartsWithPrefix(s, open, 6);
    forall j | 0 <= j < k ensures !StartsWith(s, openers[..k][j]) {
      NotStartsWith(s, openers[j], 6);
    }
    UnwrapAllMissAtHead(s, openers[..k]);
  }

  /** The k-th opener unwraps its group, and later ones find nothing. */
  lemma OpenersFromHit(k: nat, x: string)
    requires k < 5 && Plain(x) && Lacks(x, '}')
    ensures UnwrapAll(GroupOpeners[k] + x + "}", GroupOpeners[k..]) == x
  {
    OpenerTableFacts();
    var open := GroupOpeners[k];
    var s := open + x + "}";
    var openers := GroupOpeners;
    UnwrapGroupsAtHead(open, x, "");
    assert open + x + "}" + "" == s && x + "" == x;
    assert UnwrapGroups(s, open) == x;
    assert openers[k..][1..] == openers[k + 1..];
    UnwrapAllNoStart(x, openers[k + 1..]);
  }

  /** The LaTeX stage drops the k-th formatting command around plain text. */
  lemma FormattingLatexStage(k: nat, x: string)
    requires k < 5 && Plain(x) && Lacks(x, '}')
    ensures SanitizeLatexToText(GroupOpeners[k] + x + "}") == x
  {
    var s := GroupOpeners[k] + x + "}";
    FormattingGroupFacts(k, x);
    CommandHeadKept(s);
    FormattingSymbolsMiss(k, x);
    FormattingUnwrapStage(k, x);
    LatexStages(s, s, s, x);
  }

  /** The unwrap step turns the k-th formatting group around plain text into the text. */
  lemma FormattingUnwrapStage(k: nat, x: string)
    requires k < 5 && Plain(x) && Lacks(x, '}')
    ensures UnwrapAll(GroupOpeners[k] + x + "}", GroupOpeners) == x
  {
    var s := GroupOpeners[k] + x + "}";
    var openers := GroupOpeners;
    OpenersBeforeMiss(k, x);
    OpenersFromHit(k, x);
    UnwrapAllSplit(s, openers, k);
  }

  /** A formatting command (`\mathrm`, `\text`, `\mathbf`, `\mathit`,
      `\mathsf`) around plain text is dropped, keeping the text. */
  lemma FormattingUnwrapped(k: nat, x: string)
    requires k < 5 && Plain(x) && Lacks(x, '}')
    ensures SanitizeQuizText(Some(GroupOpeners[k] + x + "}")) == CleanSpaces(x)
  {
    var s := GroupOpeners[k] + x + "}";
    FormattingGroupFacts(k, x);
    MarkupStepsKeep(s);
    FormattingLatexStage(k, x);
    SanitizeStages(s, s, x);
  }

  /** Only the last opener, bare `{`, unwraps bare braces. */
  lemma BracesUnwrapStage(x: string)
    requires Plain(x) && Lacks(x, '}')
    ensures UnwrapAll("{" + x + "}", GroupOpeners) == x
  {
    OpenerTableFacts();
    var s := "{" + x + "}";
    var openers := GroupOpeners;
    assert Lacks(s, '\\') by {
      LacksConcat("{", x, '\\');
      LacksConcat("{" + x, "}", '\\');
    }
    UnwrapAllNoStart(s, openers[..5]);
    UnwrapAllSplit(s, openers, 5);
    assert openers[5..] == [openers[5]];
    UnwrapGroupsAtHead("{", x, "");
    assert "{" + x + "}" + "" == s && x + "" == x;
  }

  /** The LaTeX stage drops bare braces around plain text. */
  lemma BracesLatexStage(x: string)
    requires Plain(x) && Lacks(x, '}')
    ensures SanitizeLatexToText("{" + x + "}") == x
  {
    var s := "{" + x + "}";
    assert Lacks(s, '\\') by {
      LacksConcat("{", x, '\\');
      LacksConcat("{" + x, "}", '\\');
    }
    RemoveWrappersNoStart(s);
    RewriteFractionsNoStart(s);
    ReplaceSymbolsNoStart(s, SymbolCommands);
    BracesUnwrapStage(x);
    LatexStages(s, s, s, x);
  }

  /** Bare braces around plain text are dropped. */
  lemma BracesUnwrapped(x: string)
    requires Plain(x) && Lacks(x, '}')
    ensures SanitizeQuizText(Some("{" + x + "}")) == CleanSpaces(x)
  {
    var s := "{" + x + "}";
    assert MarkupFree(s) by {
      MarkupFreeConcat("{", x);
      MarkupFreeConcat("{" + x, "}");
    }
    MarkupStepsKeep(s);
    BracesLatexStage(x);
    SanitizeStages(s, s, x);
  }

  /** Both inline wrappers around plain text are deleted. */
  lemma WrappersAroundRemoved(open: string, x: string, close: string)
    requires (open == "\\(" && close == "\\)") || (open == "\\[" && close == "\\]")
    requires Plain(x)
    ensures RemoveInlineWrappers(open + x + close) == x
  {
    var s := open + x + close;
    RemoveWrappersSplice("", open, x + close);
    assert "" + open + (x + close) == s;
    RemoveWrappersSplice(x, close, "");
    assert x + close + "" == x + close;
    RemoveWrappersNoStart("");
    assert x + "" == x;
  }

  /** Plain text between an opening and a closing inline wrapper (`\(`…`\)`
      or `\[`…`\]`) loses the wrappers. */
  lemma InlineMathUnwrapped(open: string, x: string, close: string)
    requires (open == "\\(" && close == "\\)") || (open == "\\[" && close == "\\]")
    requires Plain(x)
    ensures SanitizeQuizText(Some(open + x + close)) == CleanSpaces(x)
  {
    var s := open + x + close;
    assert MarkupFree(s) by {
      MarkupFreeConcat(open, x);
      MarkupFreeConcat(open + x, close);
    }
    MarkupStepsKeep(s);
    WrappersAroundRemoved(open, x, close);
    RewriteFractionsNoStart(x);
    CommandStepsKeep(x);
    LatexStages(s, x, x, x);
    SanitizeStages(s, s, x);
  }

  /** What the tag step sees in an escaped tag `&lt;x&gt;`: no `<`. */
  lemma EscapedTagHasNoTag(x: string)
    requires Plain(x)
    ensures ReplaceTags("&lt;" + x + "&gt;", " ", false) == "&lt;" + x + "&gt;"
  {
    LacksConcat("&lt;", x, '<');
    LacksConcat("&lt;" + x, "&gt;", '<');
    ReplaceTagsNoTag("&lt;" + x + "&gt;", " ", false);
  }

  /** The decoded tag `<x>` passes the LaTeX stage unchanged. */
  lemma DecodedTagLatexStage(x: string)
    requires Plain(x)
    ensures SanitizeLatexToText("<" + x + ">") == "<" + x + ">"
  {
    LacksConcat("<", x, '\\');
    LacksConcat("<" + x, ">", '\\');
    LacksConcat("<", x, '{');
    LacksConcat("<" + x, ">", '{');
    LatexStageKeepsPlain("<" + x + ">");
  }

  /** Tags are replaced before entities are decoded, so an escaped tag
      `&lt;x&gt;` survives as the visible text `<x>`. */
  lemma EscapedTagSurvives(x: string)
    requires Plain(x)
    ensures SanitizeQuizText(Some("&lt;" + x + "&gt;")) == CleanSpaces("<" + x + ">")
  {
    var s := "&lt;" + x + "&gt;";
    EscapedTagHasNoTag(x);
    EscapedAngleBrackets(x);
    DecodedTagLatexStage(x);
    SanitizeStages(s, "<" + x + ">", "<" + x + ">");
  }
}
