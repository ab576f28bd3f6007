/** The string rules of latexUtils.ts: input normalisation, delimiter
    stripping, LaTeX detection and the left-to-right segment scanner. */
module LatexUtils {
  import opened Strings
  import opened HtmlText
  import opened Wrappers

  // ---------------------------------------------------------------------
  // Normalisation

  /** `normalizeLatexInput`: every `<…>` tag becomes a space, entities are
      decoded, whitespace runs collapse to one space, and the ends are trimmed. */
  function NormalizeLatexInput(value: string): (r: string)
    ensures IsClean(r)
    ensures r == [] <==> AllSpace(DecodeHtmlEntities(ReplaceTags(value, " ", false)))
  {
    CleanSpaces(DecodeHtmlEntities(ReplaceTags(value, " ", false)))
  }

  /** Text without markup is only space-cleaned. */
  lemma NormalizeMarkupFree(s: string)
    requires Lacks(s, '<') && Lacks(s, '&')
    ensures NormalizeLatexInput(s) == CleanSpaces(s)
  {
    ReplaceTagsNoTag(s, " ", false);
    DecodeNoEntity(s);
  }

  /** Normalising already normalised markup-free text changes nothing. */
  lemma NormalizeOfClean(s: string)
    requires Lacks(s, '<') && Lacks(s, '&') && IsClean(s)
    ensures NormalizeLatexInput(s) == s
  {
    NormalizeMarkupFree(s);
    CleanOfClean(s);
  }

  /** Tags are removed before entities are decoded, so an escaped tag
      survives as literal angle brackets. */
  lemma NormalizeEscapedTag(x: string)
    requires Lacks(x, '<') && Lacks(x, '&')
    ensures NormalizeLatexInput("&lt;" + x + "&gt;") == CleanSpaces("<" + x + ">")
  {
    var s := "&lt;" + x + "&gt;";
    LacksConcat("&lt;", x, '<');
    LacksConcat("&lt;" + x, "&gt;", '<');
    ReplaceTagsNoTag(s, " ", false);
    EscapedAngleBrackets(x);
  }

  // ---------------------------------------------------------------------
  // Delimiter stripping

  /** Drops the maximal run of `$` at the front. */
  function DropLeadingDollars(s: string): string {
    if s != [] && s[0] == '$' then DropLeadingDollars(s[1..]) else s
  }

  /** Drops the maximal run of `$` at the back. */
  function DropTrailingDollars(s: string): string {
    if s != [] && s[|s| - 1] == '$' then DropTrailingDollars(s[..|s| - 1]) else s
  }

  /** `s.replace(/^\s*\$+/, "")`: leading whitespace and the `$` run after it
      go, but only when such a run is there. */
  function StripLeadingDollars(s: string): string {
    var u := TrimStart(s);
    if u != [] && u[0] == '$' then DropLeadingDollars(u) else s
  }

  /** `s.replace(/\$+\s*$/, "")`: the leftmost match is the whole `$` run
      that precedes the trailing whitespace. */
  function StripTrailingDollars(s: string): string {
    var u := TrimEnd(s);
    if u != [] && u[|u| - 1] == '$' then DropTrailingDollars(u) else s
  }

  /** `stripLatexDelimiters`. */
  function StripLatexDelimiters(value: string): (r: string)
    ensures IsTrimmed(r)
  {
    Trim(StripTrailingDollars(StripLeadingDollars(RemoveInlineWrappers(value))))
  }

  /** Without a dollar sign the two dollar rules change nothing. */
  lemma DollarRulesSkip(x: string)
    requires Lacks(x, '$')
    ensures StripTrailingDollars(StripLeadingDollars(x)) == x
  {
    var u := TrimStart(x);
    TrimStartIsSuffix(x);
    assert u != [] ==> u[0] == x[|x| - |u|];
    var v := TrimEnd(x);
    TrimEndIsPrefix(x);
    assert v != [] ==> v[|v| - 1] == x[|v| - 1];
  }

  /** Text with neither a backslash nor a dollar sign is only trimmed. */
  lemma StripPlain(x: string)
    requires Lacks(x, '\\') && Lacks(x, '$')
    ensures StripLatexDelimiters(x) == Trim(x)
  {
    RemoveWrappersNoStart(x);
    DollarRulesSkip(x);
  }

  lemma RemoveWrappersAround(open: string, x: string, close: string)
    requires |open| == 2 && open[0] == '\\' && open[1] in "()[]"
    requires |close| == 2 && close[0] == '\\' && close[1] in "()[]"
    requires Lacks(x, '\\')
    ensures RemoveInlineWrappers(open + x + close) == x
  {
    RemoveWrappersSplice([], open, x + close);
    assert [] + open + (x + close) == open + x + close;
    RemoveWrappersSplice(x, close, []);
    assert x + close + [] == x + close;
    assert RemoveInlineWrappers([]) == [];
  }

  /** `\(x\)` and `\[x\]` lose their wrappers. */
  lemma StripWrapped(open: string, x: string, close: string)
    requires open == "\\(" || open == "\\["
    requires close == "\\)" || close == "\\]"
    requires Lacks(x, '\\') && Lacks(x, '$')
    ensures StripLatexDelimiters(open + x + close) == Trim(x)
  {
    RemoveWrappersAround(open, x, close);
    DollarRulesSkip(x);
  }

  /** Every character of a run of dollar signs. */
  predicate AllDollars(d: string) {
    forall i :: 0 <= i < |d| ==> d[i] == '$'
  }

  lemma DropLeadingRun(d: string, t: string)
    requires AllDollars(d) && (t == [] || t[0] != '$')
    ensures DropLeadingDollars(d + t) == t
    decreases |d|
  {
    if d != [] {
      assert (d + t)[1..] == d[1..] + t;
      DropLeadingRun(d[1..], t);
    } else {
      assert d + t == t;
    }
  }

  lemma DropTrailingRun(t: string, d: string)
    requires AllDollars(d) && (t == [] || t[|t| - 1] != '$')
    ensures DropTrailingDollars(t + d) == t
    decreases |d|
  {
    if d != [] {
      assert (t + d)[..|t + d| - 1] == t + d[..|d| - 1];
      DropTrailingRun(t, d[..|d| - 1]);
    } else {
      assert t + d == t;
    }
  }

  /** `$x$` and `$$x$$` (any runs of dollars) lose their delimiters. */
  lemma StripDollars(d1: string, x: string, d2: string)
    requires d1 != [] && d2 != [] && AllDollars(d1) && AllDollars(d2)
    requires Lacks(x, '\\') && Lacks(x, '$')
    ensures StripLatexDelimiters(d1 + x + d2) == Trim(x)
  {
    var s := d1 + (x + d2);
    assert d1 + x + d2 == s;
    LacksConcat(x, d2, '\\');
    LacksConcat(d1, x + d2, '\\');
    RemoveWrappersNoStart(s);
    assert TrimStart(s) == s;
    if x == [] {
      assert x + d2 == d2 && s == d1 + d2;
      assert AllDollars(d1 + d2);
      DropLeadingRun(d1 + d2, []);
      assert d1 + d2 + [] == d1 + d2;
      assert StripLeadingDollars(s) == [];
      assert StripTrailingDollars([]) == [];
    } else {
      DropLeadingRun(d1, x + d2);
      assert StripLeadingDollars(s) == x + d2;
      assert TrimEnd(x + d2) == x + d2;
      DropTrailingRun(x, d2);
      assert StripTrailingDollars(x + d2) == x;
    }
  }

  /** The wrappers go in one left-to-right scan: a backslash kept because it
      starts no wrapper can meet the character after a deleted wrapper. */
  lemma WrapperRemovalIsSinglePass()
    ensures RemoveInlineWrappers("\\\\((") == "\\("
  {
    var s := "\\\\((";
    assert !WrapperAt(s);
    assert WrapperAt(s[1..]);
    assert s[1..][2..] == "(";
    assert !WrapperAt("(");
  }

  // ---------------------------------------------------------------------
  // LaTeX detection

  /** `s` has the literal `p` at position `i`. */
  predicate LiteralAt(s: string, i: nat, p: string) {
    i + |p| <= |s| && s[i..i + |p|] == p
  }

  /** `\$[^$]+\$` matches at `i`: a dollar, a non-dollar, and a later dollar. */
  predicate InlineDollarsAt(s: string, i: nat) {
    i + 1 < |s| && s[i] == '$' && s[i + 1] != '$' && Find(s, '$', i + 1) < |s|
  }

  /** One alternative of the detection regex matches at position `i`. */
  predicate MarkerAt(s: string, i: nat) {
    || LiteralAt(s, i, "\\(") || LiteralAt(s, i, "\\[") || LiteralAt(s, i, "\\begin{")
    || InlineDollarsAt(s, i)
    || LiteralAt(s, i, "\\frac") || LiteralAt(s, i, "\\sqrt")
    || LiteralAt(s, i, "\\sum") || LiteralAt(s, i, "\\int")
  }

  /** `regex.test(s)` from position `from` on: is there a marker at or after it? */
  function HasMarkerFrom(s: string, from: nat): (b: bool)
    requires from <= |s|
    decreases |s| - from
  {
    if from == |s| then false
    else MarkerAt(s, from) || HasMarkerFrom(s, from + 1)
  }

  lemma {:induction false} HasMarkerFromIff(s: string, from: nat)
    requires from <= |s|
    ensures HasMarkerFrom(s, from) <==> exists i :: from <= i < |s| && MarkerAt(s, i)
    decreases |s| - from
  {
    if from < |s| {
      HasMarkerFromIff(s, from + 1);
    }
  }

  /** `containsLatex`. */
  function ContainsLatex(value: string): bool {
    HasMarkerFrom(NormalizeLatexInput(value), 0)
  }

  /** Detection is true exactly when some position of the normalised text
      starts one of the markers. */
  lemma ContainsLatexIff(value: string)
    ensures var n := NormalizeLatexInput(value);
      ContainsLatex(value) <==> exists i :: 0 <= i < |n| && MarkerAt(n, i)
  {
    HasMarkerFromIff(NormalizeLatexInput(value), 0);
  }

  /** Every marker starts with a backslash or a dollar sign. */
  lemma MarkerStart(s: string, i: nat)
    requires MarkerAt(s, i)
    ensures i < |s| && (s[i] == '\\' || s[i] == '$')
  {
    if LiteralAt(s, i, "\\(") { assert s[i..i + 2][0] == s[i]; }
    if LiteralAt(s, i, "\\[") { assert s[i..i + 2][0] == s[i]; }
    if LiteralAt(s, i, "\\begin{") { assert s[i..i + 7][0] == s[i]; }
    if LiteralAt(s, i, "\\frac") { assert s[i..i + 5][0] == s[i]; }
    if LiteralAt(s, i, "\\sqrt") { assert s[i..i + 5][0] == s[i]; }
    if LiteralAt(s, i, "\\sum") { assert s[i..i + 4][0] == s[i]; }
    if LiteralAt(s, i, "\\int") { assert s[i..i + 4][0] == s[i]; }
  }

  /** Text that after normalisation has no backslash and no dollar sign holds no LaTeX. */
  lemma PlainTextHasNoLatex(value: string)
    requires var n := NormalizeLatexInput(value); Lacks(n, '\\') && Lacks(n, '$')
    ensures !ContainsLatex(value)
  {
    var n := NormalizeLatexInput(value);
    ContainsLatexIff(value);
    forall i | 0 <= i < |n| ensures !MarkerAt(n, i) {
      if MarkerAt(n, i) {
        MarkerStart(n, i);
      }
    }
  }

  /** A dollar pair around non-empty dollar-free text is detected. */
  lemma DollarSpanDetected(pre: string, x: string, post: string)
    requires x != [] && Lacks(x, '$')
    ensures InlineDollarsAt(pre + "$" + x + "$" + post, |pre|)
  {
    var s := pre + "$" + x + "$" + post;
    assert s[|pre|] == '$' && s[|pre| + 1] == x[0];
    assert s[|pre| + 1 + |x|] == '$';
    var j := Find(s, '$', |pre| + 1);
    assert j <= |pre| + 1 + |x|;
  }

  // ---------------------------------------------------------------------
  // Segment scanner

  datatype Kind = Text | Latex

  datatype Segment = Segment(kind: Kind, value: string)

  /** Positions `j` and `j + 1` of `s` hold `a` then `b`. */
  predicate PairAt(s: string, j: nat, a: char, b: char) {
    j + 1 < |s| && s[j] == a && s[j + 1] == b
  }

  /** First position at or after `from` that holds the pair `ab`, or `|s|`. */
  function FindPair(s: string, a: char, b: char, from: nat): (k: nat)
    requires from <= |s|
    ensures from <= k <= |s| && (k < |s| ==> PairAt(s, k, a, b))
    decreases |s| - from
  {
    if from == |s| || PairAt(s, from, a, b) then from else FindPair(s, a, b, from + 1)
  }

  /** No pair `ab` lies between `from` and the position `FindPair` returns. */
  lemma {:induction false} FindPairFirst(s: string, a: char, b: char, from: nat)
    requires from <= |s|
    ensures forall j :: from <= j < FindPair(s, a, b, from) ==> !PairAt(s, j, a, b)
    decreases |s| - from
  {
    if from < |s| && !PairAt(s, from, a, b) {
      FindPairFirst(s, a, b, from + 1);
    }
  }

  /** The four alternatives of the scanner's regex, in the order they are tried. */
  datatype Form = Paren | Bracket | Display | Inline

  /** The alternative that matches at `p`: the first of `\(…\)`, `\[…\]`,
      `$$…$$` and `$…$` whose opening is at `p` and whose closing follows. */
  function FormAt(s: string, p: nat): Option<Form> {
    if PairAt(s, p, '\\', '(') && FindPair(s, '\\', ')', p + 2) < |s| then Some(Paren)
    else if PairAt(s, p, '\\', '[') && FindPair(s, '\\', ']', p + 2) < |s| then Some(Bracket)
    else if PairAt(s, p, '$', '$') && FindPair(s, '$', '$', p + 2) < |s| then Some(Display)
    else if p < |s| && s[p] == '$' && Find(s, '$', p + 1) < |s| then Some(Inline)
    else None
  }

  /** `v` opens with `o1 o2`, closes with `c1 c2`, and the closing pair does
      not occur earlier after the opening (a lazy `[\s\S]*?` body). */
  predicate PairSpan(v: string, o1: char, o2: char, c1: char, c2: char) {
    && |v| >= 4 && v[0] == o1 && v[1] == o2 && v[|v| - 2] == c1 && v[|v| - 1] == c2
    && forall j :: 2 <= j < |v| - 2 ==> !PairAt(v, j, c1, c2)
  }

  /** The text matched by alternative `f`. */
  predicate Spans(v: string, f: Form) {
    match f
    case Paren => PairSpan(v, '\\', '(', '\\', ')')
    case Bracket => PairSpan(v, '\\', '[', '\\', ']')
    case Display => PairSpan(v, '$', '$', '$', '$')
    case Inline =>
      |v| >= 2 && v[0] == '$' && v[|v| - 1] == '$' && forall j :: 1 <= j < |v| - 1 ==> v[j] != '$'
  }

  /** One of the four delimited forms. */
  predicate Delimited(v: string) {
    Spans(v, Paren) || Spans(v, Bracket) || Spans(v, Display) || Spans(v, Inline)
  }

  lemma PairSpanOfSlice(s: string, p: nat, k: nat, o1: char, o2: char, c1: char, c2: char)
    requires PairAt(s, p, o1, o2) && p + 2 <= k && PairAt(s, k, c1, c2)
    requires forall j :: p + 2 <= j < k ==> !PairAt(s, j, c1, c2)
    ensures PairSpan(s[p..k + 2], o1, o2, c1, c2)
  {
    var v := s[p..k + 2];
    forall j | 2 <= j < |v| - 2 ensures !PairAt(v, j, c1, c2) {
      assert v[j] == s[p + j] && v[j + 1] == s[p + j + 1];
      assert !PairAt(s, p + j, c1, c2);
    }
  }

  lemma InlineSpanOfSlice(s: string, p: nat, k: nat)
    requires p < k < |s| && s[p] == '$' && s[k] == '$'
    requires forall j :: p + 1 <= j < k ==> s[j] != '$'
    ensures Spans(s[p..k + 1], Inline)
  {
    var v := s[p..k + 1];
    forall j | 1 <= j < |v| - 1 ensures v[j] != '$' {
      assert v[j] == s[p + j];
    }
  }

  /** Where the match of alternative `f` at `p` ends: after the first closing. */
  function MatchEnd(s: string, p: nat, f: Form): (e: nat)
    requires FormAt(s, p) == Some(f)
    ensures p + 2 <= e <= |s|
  {
    match f
    case Paren => FindPair(s, '\\', ')', p + 2) + 2
    case Bracket => FindPair(s, '\\', ']', p + 2) + 2
    case Display => FindPair(s, '$', '$', p + 2) + 2
    case Inline => Find(s, '$', p + 1) + 1
  }

  /** The match of alternative `f` is a span of that form, closed at its first closing. */
  lemma MatchEndSpans(s: string, p: nat, f: Form)
    requires FormAt(s, p) == Some(f)
    ensures Spans(s[p..MatchEnd(s, p, f)], f)
  {
    match f
    case Paren =>
      FindPairFirst(s, '\\', ')', p + 2);
      PairSpanOfSlice(s, p, FindPair(s, '\\', ')', p + 2), '\\', '(', '\\', ')');
    case Bracket =>
      FindPairFirst(s, '\\', ']', p + 2);
      PairSpanOfSlice(s, p, FindPair(s, '\\', ']', p + 2), '\\', '[', '\\', ']');
    case Display =>
      FindPairFirst(s, '$', '$', p + 2);
      PairSpanOfSlice(s, p, FindPair(s, '$', '$', p + 2), '$', '$', '$', '$');
    case Inline =>
      InlineSpanOfSlice(s, p, Find(s, '$', p + 1));
  }

  /** `regex.exec` from `from`: the leftmost position at which some
      alternative matches, or `|s|` when none does. */
  function NextMatch(s: string, from: nat): (p: nat)
    requires from <= |s|
    ensures from <= p <= |s| && (p < |s| ==> FormAt(s, p).Some?)
    decreases |s| - from
  {
    if from == |s| || FormAt(s, from).Some? then from else NextMatch(s, from + 1)
  }

  /** No alternative matches between `from` and the match `NextMatch` finds. */
  lemma {:induction false} NextMatchFirst(s: string, from: nat)
    requires from <= |s|
    ensures forall q :: from <= q < NextMatch(s, from) ==> FormAt(s, q).None?
    decreases |s| - from
  {
    if from < |s| && FormAt(s, from).None? {
      NextMatchFirst(s, from + 1);
    }
  }

  /** A slice `[lo, hi)` of the normalised text that the loop visits: the
      text before a match or after the last one (`Text`), or a match (`Latex`). */
  datatype Piece = Piece(kind: Kind, lo: nat, hi: nat)

  /** The slices the loop visits from `lastIndex == last` on, in order. */
  function Pieces(n: string, last: nat): seq<Piece>
    requires last <= |n|
    decreases |n| - last
  {
    var p := NextMatch(n, last);
    if p == |n| then
      (if last < |n| then [Piece(Text, last, |n|)] else [])
    else
      var e := MatchEnd(n, p, FormAt(n, p).value);
      (if p > last then [Piece(Text, last, p)] else []) + ([Piece(Latex, p, e)] + Pieces(n, e))
  }

  /** One round of the loop: the gap before the match, the match, then the rest. */
  lemma PiecesUnfold(n: string, last: nat, p: nat, e: nat)
    requires last <= |n| && p == NextMatch(n, last) && p < |n|
    requires e == MatchEnd(n, p, FormAt(n, p).value)
    ensures Pieces(n, last)
      == (if p > last then [Piece(Text, last, p)] else []) + ([Piece(Latex, p, e)] + Pieces(n, e))
  {
  }

  /** After the last match: the tail. */
  lemma PiecesUnfoldTail(n: string, last: nat)
    requires last <= |n| && NextMatch(n, last) == |n|
    ensures Pieces(n, last) == (if last < |n| then [Piece(Text, last, |n|)] else [])
  {
  }

  /** The text of a piece (empty when its bounds do not fit `n`). */
  function Slice(n: string, pc: Piece): string {
    if pc.lo <= pc.hi <= |n| then n[pc.lo..pc.hi] else []
  }

  /** What the loop pushes for one piece: its trimmed text, when that is non-empty. */
  function Emit(n: string, pc: Piece): seq<Segment> {
    var t := Trim(Slice(n, pc));
    if t != [] then [Segment(pc.kind, t)] else []
  }

  /** What the loop pushes for a run of pieces, in order. */
  function Emitted(n: string, ps: seq<Piece>): seq<Segment>
    decreases |ps|
  {
    if ps == [] then [] else Emit(n, ps[0]) + Emitted(n, ps[1..])
  }

  lemma {:induction false} EmittedConcat(n: string, a: seq<Piece>, b: seq<Piece>)
    ensures Emitted(n, a + b) == Emitted(n, a) + Emitted(n, b)
    decreases |a|
  {
    if a == [] {
      assert a + b == b;
    } else {
      assert (a + b)[1..] == a[1..] + b;
      EmittedConcat(n, a[1..], b);
    }
  }

  lemma EmittedOne(n: string, pc: Piece)
    ensures Emitted(n, [pc]) == Emit(n, pc)
  {
    assert [pc][1..] == [];
  }

  /** The pushes of one round of the loop, split as the loop makes them. */
  lemma EmittedStep(n: string, last: nat, p: nat, e: nat)
    requires last <= |n| && p == NextMatch(n, last) && p < |n|
    requires e == MatchEnd(n, p, FormAt(n, p).value)
    ensures Emitted(n, Pieces(n, last))
      == Emitted(n, if p > last then [Piece(Text, last, p)] else [])
         + (Emit(n, Piece(Latex, p, e)) + Emitted(n, Pieces(n, e)))
  {
    var gap := if p > last then [Piece(Text, last, p)] else [];
    PiecesUnfold(n, last, p, e);
    EmittedConcat(n, gap, [Piece(Latex, p, e)] + Pieces(n, e));
    EmittedConcat(n, [Piece(Latex, p, e)], Pieces(n, e));
    EmittedOne(n, Piece(Latex, p, e));
  }

  /** The pushes after the last match. */
  lemma EmittedTail(n: string, last: nat)
    requires last <= |n| && NextMatch(n, last) == |n|
    ensures Emitted(n, Pieces(n, last)) == (if last < |n| then Emit(n, Piece(Text, last, |n|)) else [])
  {
    PiecesUnfoldTail(n, last);
    if last < |n| {
      EmittedOne(n, Piece(Text, last, |n|));
    }
  }

  lemma SegmentsAssoc(a: seq<Segment>, b: seq<Segment>, c: seq<Segment>, d: seq<Segment>)
    ensures a + b + c + d == a + (b + (c + d))
  {
  }

  /** `splitLatexSegments` as a value: the trimmed, non-empty texts of the
      pieces of the normalised input. */
  function LatexSegments(value: string): seq<Segment> {
    var n := NormalizeLatexInput(value);
    if n == [] then [] else Emitted(n, Pieces(n, 0))
  }

  /** `splitLatexSegments`. */
  method SplitLatexSegments(value: string) returns (segments: seq<Segment>)
    ensures segments == LatexSegments(value)
  {
    var normalized := NormalizeLatexInput(value);
    if normalized == [] {
      return [];
    }
    segments := ScanSegments(normalized);
  }

  /** The scanning loop of `splitLatexSegments` over the normalised text:
      `lastIndex` is where the previous match ended. */
  method ScanSegments(normalized: string) returns (segments: seq<Segment>)
    ensures segments == Emitted(normalized, Pieces(normalized, 0))
  {
    segments := [];
    var lastIndex := 0;
    var matchIndex := NextMatch(normalized, lastIndex);
    while matchIndex < |normalized|
      invariant lastIndex <= matchIndex <= |normalized|
      invariant matchIndex == NextMatch(normalized, lastIndex)
      invariant segments + Emitted(normalized, Pieces(normalized, lastIndex))
        == Emitted(normalized, Pieces(normalized, 0))
      decreases |normalized| - lastIndex
    {
      var matchEnd := MatchEnd(normalized, matchIndex, FormAt(normalized, matchIndex).value);
      ghost var before := segments;
      if matchIndex > lastIndex {
        segments := PushTrimmed(segments, normalized, Piece(Text, lastIndex, matchIndex));
      }
      ghost var mid := segments;
      segments := PushTrimmed(segments, normalized, Piece(Latex, matchIndex, matchEnd));
      LoopStep(normalized, lastIndex, matchIndex, matchEnd, before, mid, segments);
      lastIndex := matchEnd;
      matchIndex := NextMatch(normalized, lastIndex);
    }
    EmittedTail(normalized, lastIndex);
    if lastIndex < |normalized| {
      segments := PushTrimmed(segments, normalized, Piece(Text, lastIndex, |normalized|));
    }
  }

  /** One round of the loop keeps its invariant: what was pushed plus what
      the rest of the scan pushes is what the whole scan pushes. */
  lemma LoopStep(n: string, last: nat, p: nat, e: nat, before: seq<Segment>, mid: seq<Segment>, after: seq<Segment>)
    requires last <= |n| && p == NextMatch(n, last) && p < |n|
    requires e == MatchEnd(n, p, FormAt(n, p).value)
    requires before + Emitted(n, Pieces(n, last)) == Emitted(n, Pieces(n, 0))
    requires mid == if p > last then before + Emit(n, Piece(Text, last, p)) else before
    requires after == mid + Emit(n, Piece(Latex, p, e))
    ensures after + Emitted(n, Pieces(n, e)) == Emitted(n, Pieces(n, 0))
  {
    var gap := if p > last then [Piece(Text, last, p)] else [];
    EmittedStep(n, last, p, e);
    if p > last {
      EmittedOne(n, Piece(Text, last, p));
    }
    assert mid == before + Emitted(n, gap);
    SegmentsAssoc(before, Emitted(n, gap), Emit(n, Piece(Latex, p, e)), Emitted(n, Pieces(n, e)));
  }

  /** `const part = normalized.slice(lo, hi).trim(); if (part) segments.push(…)`. */
  method PushTrimmed(segments: seq<Segment>, normalized: string, pc: Piece) returns (r: seq<Segment>)
    requires pc.lo <= pc.hi <= |normalized|
    ensures r == segments + Emit(normalized, pc)
  {
    var part := Trim(normalized[pc.lo..pc.hi]);
    if part != [] {
      r := segments + [Segment(pc.kind, part)];
    } else {
      r := segments;
    }
  }

  // ---------------------------------------------------------------------
  // Shape of the pieces

  /** Pieces inside `[lo, hi)`, non-empty, disjoint and left to right. */
  predicate OrderedPieces(ps: seq<Piece>, lo: nat, hi: nat) {
    && (forall i :: 0 <= i < |ps| ==> lo <= ps[i].lo < ps[i].hi <= hi)
    && (forall i, j :: 0 <= i < j < |ps| ==> ps[i].hi <= ps[j].lo)
  }

  /** No two text pieces are adjacent, and every latex piece is a delimited span. */
  predicate AlternatingPieces(n: string, ps: seq<Piece>) {
    && (forall i :: 0 <= i < |ps| - 1 ==> ps[i].kind == Latex || ps[i + 1].kind == Latex)
    && (forall i :: 0 <= i < |ps| ==> ps[i].kind == Latex ==> Delimited(Slice(n, ps[i])))
  }

  lemma OrderedConcat(a: seq<Piece>, b: seq<Piece>, lo: nat, mid: nat, hi: nat)
    requires lo <= mid <= hi && OrderedPieces(a, lo, mid) && OrderedPieces(b, mid, hi)
    ensures OrderedPieces(a + b, lo, hi)
  {
    var r := a + b;
    assert forall i :: |a| <= i < |r| ==> r[i] == b[i - |a|];
    assert forall i :: 0 <= i < |a| ==> r[i] == a[i];
  }

  lemma AlternatingConcat(n: string, a: seq<Piece>, b: seq<Piece>)
    requires AlternatingPieces(n, a) && AlternatingPieces(n, b)
    requires a != [] && b != [] ==> a[|a| - 1].kind == Latex || b[0].kind == Latex
    ensures AlternatingPieces(n, a + b)
  {
    var r := a + b;
    assert forall i :: |a| <= i < |r| ==> r[i] == b[i - |a|];
    assert forall i :: 0 <= i < |a| ==> r[i] == a[i];
  }

  /** The pieces lie left to right, without overlapping, after `last`. */
  lemma {:induction false} PiecesOrdered(n: string, last: nat)
    requires last <= |n|
    ensures OrderedPieces(Pieces(n, last), last, |n|)
    decreases |n| - last
  {
    var p := NextMatch(n, last);
    if p == |n| {
      PiecesUnfoldTail(n, last);
    } else {
      var e := MatchEnd(n, p, FormAt(n, p).value);
      PiecesUnfold(n, last, p, e);
      PiecesOrdered(n, e);
      OrderedConcat([Piece(Latex, p, e)], Pieces(n, e), p, e, |n|);
      var gap := if p > last then [Piece(Text, last, p)] else [];
      OrderedConcat(gap, [Piece(Latex, p, e)] + Pieces(n, e), last, p, |n|);
    }
  }

  /** A match is a delimited span. */
  lemma MatchDelimited(n: string, p: nat)
    requires FormAt(n, p).Some?
    ensures var e := MatchEnd(n, p, FormAt(n, p).value);
      Delimited(Slice(n, Piece(Latex, p, e)))
  {
    MatchEndSpans(n, p, FormAt(n, p).value);
  }

  /** Text pieces never follow each other and every latex piece is a delimited span. */
  lemma {:induction false} PiecesAlternate(n: string, last: nat)
    requires last <= |n|
    ensures AlternatingPieces(n, Pieces(n, last))
    decreases |n| - last
  {
    var p := NextMatch(n, last);
    if p == |n| {
      PiecesUnfoldTail(n, last);
    } else {
      var e := MatchEnd(n, p, FormAt(n, p).value);
      PiecesUnfold(n, last, p, e);
      PiecesAlternate(n, e);
      MatchDelimited(n, p);
      AlternatingConcat(n, [Piece(Latex, p, e)], Pieces(n, e));
      var gap := if p > last then [Piece(Text, last, p)] else [];
      AlternatingConcat(n, gap, [Piece(Latex, p, e)] + Pieces(n, e));
    }
  }

  // ---------------------------------------------------------------------
  // Properties of the segments

  /** Every value is non-empty and trimmed, no two text segments are
      adjacent, and every latex segment is one of the delimited forms. */
  predicate WellFormedSegments(segs: seq<Segment>) {
    && (forall i :: 0 <= i < |segs| ==> segs[i].value != [] && IsTrimmed(segs[i].value))
    && (forall i :: 0 <= i < |segs| - 1 ==> segs[i].kind == Latex || segs[i + 1].kind == Latex)
    && (forall i :: 0 <= i < |segs| ==> segs[i].kind == Latex ==> Delimited(segs[i].value))
  }

  /** A delimited span starts and ends with a delimiter, so trimming keeps it whole. */
  lemma DelimitedIsTrimmed(v: string)
    requires Delimited(v)
    ensures v != [] && IsTrimmed(v) && Trim(v) == v
  {
    TrimOfTrimmed(v);
  }

  /** A piece gives at most one segment; a latex piece that is a delimited
      span gives exactly that span. */
  lemma EmitWellFormed(n: string, pc: Piece)
    requires pc.kind == Latex ==> Delimited(Slice(n, pc))
    ensures WellFormedSegments(Emit(n, pc)) && |Emit(n, pc)| <= 1
    ensures pc.kind == Latex ==> Emit(n, pc) == [Segment(Latex, Slice(n, pc))]
  {
    if pc.kind == Latex {
      DelimitedIsTrimmed(Slice(n, pc));
    }
  }

  lemma ConsWellFormed(x: seq<Segment>, rest: seq<Segment>)
    requires WellFormedSegments(x) && |x| <= 1 && WellFormedSegments(rest)
    requires x != [] && rest != [] ==> x[0].kind == Latex || rest[0].kind == Latex
    ensures WellFormedSegments(x + rest)
  {
    if x != [] {
      var r := x + rest;
      assert r[0] == x[0];
      assert forall i :: 1 <= i < |r| ==> r[i] == rest[i - 1];
    } else {
      assert x + rest == rest;
    }
  }

  /** Alternating pieces give well-formed segments: a latex piece is never
      dropped, so a dropped text piece cannot bring two others together. */
  lemma {:induction false} EmittedWellFormed(n: string, ps: seq<Piece>)
    requires AlternatingPieces(n, ps)
    ensures WellFormedSegments(Emitted(n, ps))
    ensures ps != [] && ps[0].kind == Latex ==> Emitted(n, ps) != [] && Emitted(n, ps)[0].kind == Latex
    decreases |ps|
  {
    if ps != [] {
      var rest := ps[1..];
      assert forall i :: 0 <= i < |rest| ==> rest[i] == ps[i + 1];
      EmittedWellFormed(n, rest);
      EmitWellFormed(n, ps[0]);
      ConsWellFormed(Emit(n, ps[0]), Emitted(n, rest));
    }
  }

  /** `splitLatexSegments` returns non-empty trimmed values, never two text
      segments in a row, and only delimited latex segments; empty normalised
      input gives no segments. */
  lemma LatexSegmentsWellFormed(value: string)
    ensures WellFormedSegments(LatexSegments(value))
    ensures NormalizeLatexInput(value) == [] ==> LatexSegments(value) == []
  {
    var n := NormalizeLatexInput(value);
    if n != [] {
      PiecesAlternate(n, 0);
      EmittedWellFormed(n, Pieces(n, 0));
    }
  }

  /** The pieces whose trimmed text is non-empty: those that give a segment. */
  function Kept(n: string, ps: seq<Piece>): seq<Piece>
    decreases |ps|
  {
    if ps == [] then []
    else (if Trim(Slice(n, ps[0])) != [] then [ps[0]] else []) + Kept(n, ps[1..])
  }

  /** Segment `i` is the trimmed text of piece `i`, of the same kind. */
  predicate SegmentsOf(n: string, segs: seq<Segment>, ps: seq<Piece>) {
    && |segs| == |ps|
    && forall i :: 0 <= i < |ps| ==> segs[i] == Segment(ps[i].kind, Trim(Slice(n, ps[i])))
  }

  lemma SegmentsOfConcat(n: string, s1: seq<Segment>, p1: seq<Piece>, s2: seq<Segment>, p2: seq<Piece>)
    requires SegmentsOf(n, s1, p1) && SegmentsOf(n, s2, p2)
    ensures SegmentsOf(n, s1 + s2, p1 + p2)
  {
    var s := s1 + s2;
    var p := p1 + p2;
    assert forall i :: |p1| <= i < |p| ==> p[i] == p2[i - |p1|] && s[i] == s2[i - |p1|];
    assert forall i :: 0 <= i < |p1| ==> p[i] == p1[i] && s[i] == s1[i];
  }

  /** Each segment is the trimmed text of one kept piece. */
  lemma {:induction false} EmittedKept(n: string, ps: seq<Piece>)
    ensures SegmentsOf(n, Emitted(n, ps), Kept(n, ps))
    decreases |ps|
  {
    if ps != [] {
      EmittedKept(n, ps[1..]);
      var head := if Trim(Slice(n, ps[0])) != [] then [ps[0]] else [];
      assert SegmentsOf(n, Emit(n, ps[0]), head);
      SegmentsOfConcat(n, Emit(n, ps[0]), head, Emitted(n, ps[1..]), Kept(n, ps[1..]));
    }
  }

  /** Dropping pieces keeps the rest in order. */
  lemma {:induction false} KeptOrdered(n: string, ps: seq<Piece>, lo: nat, hi: nat)
    requires OrderedPieces(ps, lo, hi)
    ensures OrderedPieces(Kept(n, ps), lo, hi)
    decreases |ps|
  {
    if ps != [] {
      var rest := ps[1..];
      var mid := ps[0].hi;
      assert forall i :: 0 <= i < |rest| ==> rest[i] == ps[i + 1];
      assert OrderedPieces(rest, mid, hi);
      KeptOrdered(n, rest, mid, hi);
      var head := if Trim(Slice(n, ps[0])) != [] then [ps[0]] else [];
      OrderedConcat(head, Kept(n, rest), lo, mid, hi);
    }
  }

  /** `splitLatexSegments` cuts its segments from disjoint slices of the
      normalised text, in source order: the scan resumes where the previous
      match ended. */
  lemma LatexSegmentsInSourceOrder(value: string)
    requires NormalizeLatexInput(value) != []
    ensures var n := NormalizeLatexInput(value);
      var kept := Kept(n, Pieces(n, 0));
      OrderedPieces(kept, 0, |n|) && SegmentsOf(n, LatexSegments(value), kept)
  {
    var n := NormalizeLatexInput(value);
    PiecesOrdered(n, 0);
    KeptOrdered(n, Pieces(n, 0), 0, |n|);
    EmittedKept(n, Pieces(n, 0));
  }

  // ---------------------------------------------------------------------
  // Order of the alternatives, and a worked shape

  /** Every alternative opens with a backslash or a dollar sign. */
  lemma FormAtStart(s: string, p: nat)
    requires FormAt(s, p).Some?
    ensures p < |s| && (s[p] == '\\' || s[p] == '$')
  {
  }

  /** Positions holding neither a backslash nor a dollar sign start no match. */
  lemma {:induction false} NextMatchSkips(s: string, from: nat, to: nat)
    requires from <= to <= |s|
    requires forall q :: from <= q < to ==> s[q] != '\\' && s[q] != '$'
    ensures NextMatch(s, from) == NextMatch(s, to)
    decreases |s| - from
  {
    if from < to {
      if FormAt(s, from).Some? {
        FormAtStart(s, from);
      }
      NextMatchSkips(s, from + 1, to);
    }
  }

  /** `FindPair` lands on the first pair. */
  lemma FindPairAt(s: string, a: char, b: char, from: nat, k: nat)
    requires from <= k && PairAt(s, k, a, b)
    requires forall j :: from <= j < k ==> s[j] != a
    ensures FindPair(s, a, b, from) == k
  {
    FindPairFirst(s, a, b, from);
  }

  /** At `$$x$$` the display alternative is tried before the inline one and
      takes the whole text. */
  lemma DisplayBeforeInline(x: string, post: string)
    requires Lacks(x, '$')
    ensures var s := "$$" + x + "$$" + post;
      FormAt(s, 0) == Some(Display) && s[..MatchEnd(s, 0, Display)] == "$$" + x + "$$"
  {
    var s := "$$" + x + "$$" + post;
    assert s[2 + |x|] == '$' && s[3 + |x|] == '$';
    assert forall j :: 2 <= j < 2 + |x| ==> s[j] == x[j - 2];
    FindPairAt(s, '$', '$', 2, 2 + |x|);
    assert s[..4 + |x|] == "$$" + x + "$$";
  }

  /** An unclosed `$$` is matched by the inline alternative with an empty body. */
  lemma UnclosedDisplayIsEmptyInline(x: string)
    requires Lacks(x, '$')
    ensures var s := "$$" + x;
      FormAt(s, 0) == Some(Inline) && MatchEnd(s, 0, Inline) == 2
  {
    var s := "$$" + x;
    assert forall j :: 2 <= j < |s| ==> s[j] == x[j - 2];
  }

  /** Text, one `\(…\)` formula and text: `Energy is \(E=mc^2\) total`
      and every input normalising to `a \(x\) b` splits into three segments. */
  lemma TextFormulaText(value: string, a: string, x: string, b: string)
    requires a != [] && b != [] && IsTrimmed(a) && IsTrimmed(b)
    requires Lacks(a, '\\') && Lacks(a, '$') && Lacks(b, '\\') && Lacks(b, '$') && Lacks(x, '\\')
    requires var n := NormalizeLatexInput(value);
      && |n| == |a| + |x| + |b| + 6 && n[..|a| + 1] == a + " "
      && n[|a| + 1..|a| + 5 + |x|] == "\\(" + x + "\\)" && n[|a| + 5 + |x|..] == " " + b
    ensures LatexSegments(value)
      == [Segment(Text, a), Segment(Latex, "\\(" + x + "\\)"), Segment(Text, b)]
  {
    var n := NormalizeLatexInput(value);
    var p, e := |a| + 1, |a| + 5 + |x|;
    var span := n[p..e];
    assert span == "\\(" + x + "\\)";
    FormulaMatch(n, a, x);
    TailNoMatch(n, e, b);
    ThreePieces(n, p, e);
    MatchDelimited(n, p);
    ThreeSegments(n, p, e, a, b);
  }

  /** The slices of `a + " \\(" + x + "\\) " + b` that the worked shape names. */
  lemma FormulaSlices(a: string, x: string, b: string)
    ensures var s := a + " \\(" + x + "\\) " + b;
      && |s| == |a| + |x| + |b| + 6 && s[..|a| + 1] == a + " "
      && s[|a| + 1..|a| + 5 + |x|] == "\\(" + x + "\\)" && s[|a| + 5 + |x|..] == " " + b
  {
    var s := a + " \\(" + x + "\\) " + b;
    var head := a + " \\(" + x + "\\)";
    assert s == head + (" " + b);
    assert s == (a + " ") + ("\\(" + x + "\\) " + b);
    assert s == (a + " ") + ("\\(" + x + "\\)") + (" " + b);
  }

  /** A gap, one match and a match-free tail are three pieces. */
  lemma ThreePieces(s: string, p: nat, e: nat)
    requires 0 < p < |s| && NextMatch(s, 0) == p
    requires FormAt(s, p) == Some(Paren) && MatchEnd(s, p, Paren) == e && e < |s|
    requires NextMatch(s, e) == |s|
    ensures Pieces(s, 0) == [Piece(Text, 0, p), Piece(Latex, p, e), Piece(Text, e, |s|)]
  {
    PiecesUnfold(s, 0, p, e);
    PiecesUnfoldTail(s, e);
  }

  /** The three pieces give a text, a latex and a text segment. */
  lemma ThreeSegments(s: string, p: nat, e: nat, a: string, b: string)
    requires p == |a| + 1 && p <= e < |s|
    requires s[..p] == a + " " && s[e..] == " " + b && Delimited(s[p..e])
    requires a != [] && IsTrimmed(a) && b != [] && IsTrimmed(b)
    ensures Emitted(s, [Piece(Text, 0, p), Piece(Latex, p, e), Piece(Text, e, |s|)])
      == [Segment(Text, a), Segment(Latex, s[p..e]), Segment(Text, b)]
  {
    var x, y, z := Piece(Text, 0, p), Piece(Latex, p, e), Piece(Text, e, |s|);
    EmittedThree(s, x, y, z);
    HeadEmit(s, p, a);
    EmitWellFormed(s, y);
    TailEmit(s, e, b);
    ThreeInARow(Segment(Text, a), Segment(Latex, s[p..e]), Segment(Text, b));
  }

  /** Text followed by one space gives that text. */
  lemma HeadEmit(s: string, p: nat, a: string)
    requires p == |a| + 1 && p <= |s| && s[..p] == a + " " && a != [] && IsTrimmed(a)
    ensures Emit(s, Piece(Text, 0, p)) == [Segment(Text, a)]
  {
    assert Slice(s, Piece(Text, 0, p)) == [] + a + " ";
    TrimOfPadded([], a, " ");
  }

  /** One space followed by text gives that text. */
  lemma TailEmit(s: string, e: nat, b: string)
    requires e <= |s| && s[e..] == " " + b && b != [] && IsTrimmed(b)
    ensures Emit(s, Piece(Text, e, |s|)) == [Segment(Text, b)]
  {
    assert Slice(s, Piece(Text, e, |s|)) == " " + b + [];
    TrimOfPadded(" ", b, []);
  }

  lemma EmittedThree(s: string, x: Piece, y: Piece, z: Piece)
    ensures Emitted(s, [x, y, z]) == Emit(s, x) + (Emit(s, y) + Emit(s, z))
  {
    assert [x, y, z] == [x] + ([y] + [z]);
    EmittedConcat(s, [x], [y] + [z]);
    EmittedConcat(s, [y], [z]);
    EmittedOne(s, x);
    EmittedOne(s, y);
    EmittedOne(s, z);
  }

  lemma ThreeInARow(x: Segment, y: Segment, z: Segment)
    ensures [x] + ([y] + [z]) == [x, y, z]
  {
  }

  lemma FormulaMatch(s: string, a: string, x: string)
    requires Lacks(a, '\\') && Lacks(a, '$') && Lacks(x, '\\')
    requires |a| + 5 + |x| <= |s| && s[..|a| + 1] == a + " " && s[|a| + 1..|a| + 5 + |x|] == "\\(" + x + "\\)"
    ensures && NextMatch(s, 0) == |a| + 1 && FormAt(s, |a| + 1) == Some(Paren)
      && MatchEnd(s, |a| + 1, Paren) == |a| + 5 + |x|
  {
    var p := |a| + 1;
    GapChars(s, a);
    NextMatchSkips(s, 0, p);
    ParenAt(s, p, x);
  }

  /** A `\\(x\\)` span at `p` is matched by the parenthesis alternative, up to its end. */
  lemma ParenAt(s: string, p: nat, x: string)
    requires Lacks(x, '\\')
    requires p + 4 + |x| <= |s| && s[p..p + 4 + |x|] == "\\(" + x + "\\)"
    ensures FormAt(s, p) == Some(Paren) && MatchEnd(s, p, Paren) == p + 4 + |x|
  {
    SpanChars(s, p, x);
    FindPairAt(s, '\\', ')', p + 2, p + 2 + |x|);
  }

  lemma GapChars(s: string, a: string)
    requires Lacks(a, '\\') && Lacks(a, '$')
    requires |a| + 1 <= |s| && s[..|a| + 1] == a + " "
    ensures forall q :: 0 <= q < |a| + 1 ==> s[q] != '\\' && s[q] != '$'
  {
    forall q | 0 <= q < |a| + 1 ensures s[q] != '\\' && s[q] != '$' {
      assert s[q] == s[..|a| + 1][q];
    }
  }

  lemma SpanChars(s: string, p: nat, x: string)
    requires Lacks(x, '\\')
    requires p + 4 + |x| <= |s| && s[p..p + 4 + |x|] == "\\(" + x + "\\)"
    ensures PairAt(s, p, '\\', '(') && PairAt(s, p + 2 + |x|, '\\', ')')
    ensures forall j :: p + 2 <= j < p + 2 + |x| ==> s[j] != '\\'
  {
    var span := s[p..p + 4 + |x|];
    assert s[p] == span[0] && s[p + 1] == span[1];
    assert s[p + 2 + |x|] == span[2 + |x|] && s[p + 3 + |x|] == span[3 + |x|];
    forall j | p + 2 <= j < p + 2 + |x| ensures s[j] != '\\' {
      assert s[j] == span[j - p] == x[j - p - 2];
    }
  }


  /** After the last formula, a space and plain text hold no further match. */
  lemma TailNoMatch(s: string, e: nat, b: string)
    requires e <= |s| && s[e..] == " " + b
    requires Lacks(b, '\\') && Lacks(b, '$')
    ensures NextMatch(s, e) == |s|
  {
    forall q | e <= q < |s| ensures s[q] != '\\' && s[q] != '$' {
      assert s[q] == s[e..][q - e];
    }
    NextMatchSkips(s, e, |s|);
  }
}
