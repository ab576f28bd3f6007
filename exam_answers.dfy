/** The per-question rules of actionImportExamQuestions.ts that only compute:
    which option is correct, which explanation text to show, and how tall
    its card is estimated to be. */
module ExamAnswers {
  import opened Wrappers
  import opened Strings
  import opened HtmlText
  import opened QuizText

  /** A JSON value as the answer fields carry it; `JNull` stands for both
      `null` and a missing key. JSON numbers are finite. */
  datatype JsonValue = JNull | JNumber(n: real) | JString(s: string) | JOther

  /** One question record of the exam API. */
  datatype ExamQuestion = ExamQuestion(
    question: Option<string>,
    options: Option<seq<string>>,
    answer: JsonValue,
    explanation: Option<string>,
    explanationText: Option<string>,
    solution: Option<string>,
    correctIndex: JsonValue,
    correctIndexSnake: JsonValue,
    correctOption: JsonValue,
    correctOptionSnake: JsonValue,
    correctAnswer: JsonValue)

  // ---------------------------------------------------------------------
  // resolveCorrectIndex

  /** The answer fields in the order the `??` chain consults them. */
  function AnswerFields(item: ExamQuestion): seq<JsonValue> {
    [item.correctIndex, item.correctIndexSnake, item.correctOption,
     item.correctOptionSnake, item.correctAnswer, item.answer]
  }

  /** The position of the first of `fields` that is not nullish, or
      `|fields|` when all are. */
  function FirstPresentAt(fields: seq<JsonValue>): (k: nat)
    ensures k <= |fields|
    ensures k < |fields| ==> fields[k] != JNull
    ensures forall j :: 0 <= j < k ==> fields[j] == JNull
  {
    if fields == [] || fields[0] != JNull then 0
    else
      var k := FirstPresentAt(fields[1..]) + 1;
      assert forall j :: 1 <= j < k ==> fields[j] == fields[1..][j - 1];
      k
  }

  /** The value the `??` chain settles on. */
  function FirstPresent(fields: seq<JsonValue>): JsonValue {
    var k := FirstPresentAt(fields);
    if k < |fields| then fields[k] else JNull
  }

  /** An index taken as 0-based when it is in range, else as 1-based. */
  function ResolveNumber(n: real, len: nat): (r: Option<real>)
    ensures r.Some? ==> 0.0 <= r.value < len as real && (r.value == n || r.value == n - 1.0)
    ensures r.None? <==> len == 0 || n < 0.0 || n > len as real
  {
    if 0.0 <= n < len as real then Some(n)
    else if 1.0 <= n <= len as real then Some(n - 1.0)
    else None
  }

  predicate IsLetter(c: char) {
    'a' <= c <= 'z' || 'A' <= c <= 'Z'
  }

  /** `/^option\s*([a-z])$/i`: the captured letter, lower-cased. */
  function OptionLetter(s: string): (r: Option<char>)
    ensures r.Some? ==> 'a' <= r.value <= 'z'
  {
    if |s| >= 7 && ToLower(s[..6]) == "option" && AllSpace(s[6..|s| - 1]) && IsLetter(s[|s| - 1])
    then Some(LowerChar(s[|s| - 1]))
    else None
  }

  /** `sanitizeQuizText(v).toLowerCase()`. */
  function NormalizeAnswer(v: string): string {
    ToLower(SanitizeQuizText(Some(v)))
  }

  /** Every option normalised the same way. */
  function NormalizeOptions(options: seq<string>): (r: seq<string>)
    ensures |r| == |options|
  {
    seq(|options|, i requires 0 <= i < |options| => NormalizeAnswer(options[i]))
  }

  /** `findIndex` for an equal string. */
  function FindIndex(xs: seq<string>, x: string): (r: Option<nat>)
    ensures r.Some? ==> r.value < |xs| && xs[r.value] == x
    ensures r.Some? ==> forall k :: 0 <= k < r.value ==> xs[k] != x
    ensures r.None? ==> forall k :: 0 <= k < |xs| ==> xs[k] != x
  {
    if xs == [] then None
    else if xs[0] == x then Some(0)
    else match FindIndex(xs[1..], x)
      case None => None
      case Some(k) => Some(k + 1)
  }

  /** The string branch on the normalised answer and options: "option x"
      in range, a bare letter a-d, a digit string read as a number, then an
      option with the same text. */
  function ResolveNormalized(normalized: string, options: seq<string>): (r: Option<real>)
    ensures r.Some? ==> r.value >= 0.0
  {
    var letter := OptionLetter(normalized);
    if letter.Some? && (letter.value as int - 'a' as int) < |options| then
      Some((letter.value as int - 'a' as int) as real)
    else if normalized in ["a", "b", "c", "d"] then
      Some((normalized[0] as int - 'a' as int) as real)
    else
      var byNumber := if normalized != [] && AllDigits(normalized)
        then ResolveNumber(DigitsValue(normalized) as real, |options|) else None;
      if byNumber.Some? then byNumber
      else match FindIndex(options, normalized)
        case Some(k) => Some(k as real)
        case None => None
  }

  /** The string branch of `resolveCorrectIndex`. */
  function ResolveString(raw: string, options: seq<string>): (r: Option<real>)
    ensures r.Some? ==> r.value >= 0.0
  {
    ResolveNormalized(NormalizeAnswer(raw), NormalizeOptions(options))
  }

  /** How one answer value resolves: a number or a string, anything else
      is `null`. */
  function ResolveField(v: JsonValue, options: seq<string>): (r: Option<real>)
    ensures r.Some? ==> r.value >= 0.0
  {
    match v
    case JNumber(n) => ResolveNumber(n, |options|)
    case JString(s) => ResolveString(s, options)
    case _ => None
  }

  /** `resolveCorrectIndex`: only the first non-nullish answer field is
      consulted. */
  function ResolveCorrectIndex(item: ExamQuestion, options: seq<string>): (r: Option<real>)
    ensures r.Some? ==> r.value >= 0.0
  {
    ResolveField(FirstPresent(AnswerFields(item)), options)
  }

  /** The first non-nullish field alone decides the index. */
  lemma OnlyFirstPresentCounts(item: ExamQuestion, options: seq<string>, k: nat)
    requires k < 6 && AnswerFields(item)[k] != JNull
    requires forall j :: 0 <= j < k ==> AnswerFields(item)[j] == JNull
    ensures ResolveCorrectIndex(item, options) == ResolveField(AnswerFields(item)[k], options)
  {
    var m := FirstPresentAt(AnswerFields(item));
    assert !(m < k) && !(k < m);
  }

  /** A resolved number is an option index: 0-based wins when both readings
      are in range, and `n == len` is read as the last option. */
  lemma NumberResolution(n: real, len: nat)
    ensures 0.0 <= n < len as real ==> ResolveNumber(n, len) == Some(n)
    ensures len >= 1 && n == len as real ==> ResolveNumber(n, len) == Some(n - 1.0)
    ensures n < 0.0 || n > len as real ==> ResolveNumber(n, len) == None
  {
  }

  /** `correct_index: 5` with two options resolves to `null`. */
  lemma OutOfRangeIndexIsNull(item: ExamQuestion, options: seq<string>)
    requires item.correctIndex == JNull && item.correctIndexSnake == JNumber(5.0) && |options| == 2
    ensures ResolveCorrectIndex(item, options) == None
  {
    OnlyFirstPresentCounts(item, options, 1);
  }

  /** A field that fails to resolve stops the chain: `correctIndex: 5`
      with two options is `null` even when `correct_index` would give 0. */
  lemma FirstFieldDecides(item: ExamQuestion, options: seq<string>)
    requires item.correctIndex == JNumber(5.0) && item.correctIndexSnake == JNumber(0.0)
    requires |options| == 2
    ensures ResolveCorrectIndex(item, options) == None
    ensures ResolveField(item.correctIndexSnake, options) == Some(0.0)
  {
    OnlyFirstPresentCounts(item, options, 0);
  }

  /** Text that normalises to a bare letter a-d resolves to 0-3 without any
      check against the number of options. */
  lemma BareLetterUnchecked(c: char, options: seq<string>)
    requires 'a' <= c <= 'd'
    ensures ResolveNormalized([c], options) == Some((c as int - 'a' as int) as real)
  {
    assert [c] in ["a", "b", "c", "d"];
  }

  /** A single letter is plain, clean text. */
  lemma LetterIsPlain(c: char)
    requires IsLetter(c)
    ensures Plain([c]) && IsClean([c])
  {
  }

  /** A single letter normalises to its lower case. */
  lemma NormalizeLetter(c: char)
    requires IsLetter(c)
    ensures NormalizeAnswer([c]) == [LowerChar(c)]
  {
    LetterIsPlain(c);
    CleanPlainTextIsFixed([c]);
    var lowered := ToLower([c]);
    assert lowered == [LowerChar(c)];
  }

  /** A bare letter A-D, in either case, is read as option 0-3, for any
      options: `"B"` resolves to 1 even with a single option. */
  lemma LetterResolves(c: char, options: seq<string>)
    requires 'a' <= c <= 'd' || 'A' <= c <= 'D'
    ensures ResolveString([c], options) == Some((LowerChar(c) as int - 'a' as int) as real)
  {
    NormalizeLetter(c);
    BareLetterUnchecked(LowerChar(c), NormalizeOptions(options));
  }

  /** "option x" resolves to the letter's position when it is in range. */
  lemma OptionPhraseResolves(c: char, options: seq<string>)
    requires 'a' <= c <= 'z' && (c as int - 'a' as int) < |options|
    ensures ResolveNormalized("option " + [c], options) == Some((c as int - 'a' as int) as real)
  {
    var n := "option " + [c];
    assert n[..6] == "option" && n[6..|n| - 1] == " ";
    assert ToLower(n[..6]) == "option";
  }

  /** "option x" past the last option is no reading of its own: it falls
      through to the text match, the only later step it can meet. */
  lemma OptionPhraseOutOfRange(c: char, options: seq<string>)
    requires 'a' <= c <= 'z' && (c as int - 'a' as int) >= |options|
    ensures ResolveNormalized("option " + [c], options) ==
      match FindIndex(options, "option " + [c])
      case Some(k) => Some(k as real)
      case None => None
  {
    var n := "option " + [c];
    assert |n| == 8 && n[0] == 'o';
    assert n !in ["a", "b", "c", "d"];
    assert !AllDigits(n) by {
      assert !IsDigit(n[0]);
    }
    var letter := OptionLetter(n);
    assert letter.Some? ==> (letter.value as int - 'a' as int) >= |options| by {
      if letter.Some? {
        assert letter.value == LowerChar(n[7]) == c;
      }
    }
  }

  /** A string of digits is its own normalised form. */
  lemma DigitsNormalize(d: string)
    requires d != [] && AllDigits(d)
    ensures NormalizeAnswer(d) == d
  {
    DigitsPlain(d);
    CleanPlainTextIsFixed(d);
    DigitsLower(d);
  }

  lemma DigitsPlain(d: string)
    requires d != [] && AllDigits(d)
    ensures Plain(d) && IsClean(d)
  {
    assert forall i :: 0 <= i < |d| ==> '0' <= d[i] <= '9';
  }

  lemma DigitsLower(d: string)
    requires AllDigits(d)
    ensures ToLower(d) == d
  {
    assert forall i :: 0 <= i < |d| ==> LowerChar(d[i]) == d[i];
  }

  /** A digit-string answer is read by the same rules as a number: 0-based
      when in range, otherwise 1-based. */
  lemma DigitAnswerResolves(d: string, options: seq<string>)
    requires d != [] && AllDigits(d)
    requires ResolveNumber(DigitsValue(d) as real, |options|).Some?
    ensures ResolveString(d, options) == ResolveNumber(DigitsValue(d) as real, |options|)
  {
    DigitsNormalize(d);
    assert !IsLetter(d[|d| - 1]);
    assert d !in ["a", "b", "c", "d"] by {
      assert !IsLetter(d[0]);
    }
  }

  /** `"3"` with three options is the third option, read 1-based. */
  lemma DigitAnswerOneBased(options: seq<string>)
    requires |options| == 3
    ensures ResolveString("3", options) == Some(2.0)
  {
    assert AllDigits("3") && DigitsValue("3") == 3;
    DigitAnswerResolves("3", options);
  }

  /** With no other reading, the first option with the same text wins. */
  lemma MatchingTextResolves(normalized: string, options: seq<string>, k: nat)
    requires k < |options| && options[k] == normalized
    requires OptionLetter(normalized) == None
    requires normalized !in ["a", "b", "c", "d"] && !AllDigits(normalized)
    requires forall j :: 0 <= j < k ==> options[j] != normalized
    ensures ResolveNormalized(normalized, options) == Some(k as real)
  {
    var r := FindIndex(options, normalized);
    assert r.Some? && !(r.value < k) && !(k < r.value);
  }

  // ---------------------------------------------------------------------
  // resolveExplanationText

  /** The three explanation fields, in the order the `??` chain tries them. */
  function ExplanationFields(item: ExamQuestion): (f: seq<Option<string>>)
    ensures |f| == 3
  {
    [item.explanation, item.explanationText, item.solution]
  }

  /** `explanation ?? explanation_text ?? solution ?? ""`. */
  function ResolveExplanationText(item: ExamQuestion): (r: string)
    ensures r != [] ==> Some(r) in ExplanationFields(item)
    ensures (forall k :: 0 <= k < 3 ==> ExplanationFields(item)[k].None?) ==> r == ""
  {
    match item.explanation
    case Some(e) => e
    case None =>
      match item.explanationText
      case Some(e) => e
      case None =>
        match item.solution
        case Some(e) => e
        case None => ""
  }

  /** The first present field is the explanation, whatever the later
      fields hold. */
  lemma ExplanationPrecedence(item: ExamQuestion, k: nat)
    requires k < 3 && ExplanationFields(item)[k].Some?
    requires forall j :: 0 <= j < k ==> ExplanationFields(item)[j].None?
    ensures ResolveExplanationText(item) == ExplanationFields(item)[k].value
  {
    if k > 0 {
      assert ExplanationFields(item)[0].None?;
    }
    if k > 1 {
      assert ExplanationFields(item)[1].None?;
    }
  }

  /** An empty `explanation` hides the others: the chain tests for null, not
      for emptiness, so no card is made. */
  lemma EmptyExplanationWins(item: ExamQuestion)
    requires item.explanation == Some("")
    ensures ResolveExplanationText(item) == ""
  {
  }

  // ---------------------------------------------------------------------
  // estimateExplanationHeight

  const ExplanationMinHeight: int := 480
  const ExplanationMaxHeight: int := 840

  /** The estimate from the length of the tag-stripped, trimmed text:
      at least three lines of 22 pixels above the minimum, capped. */
  function HeightForLength(len: nat): (h: int)
    ensures 546 <= h <= 840
  {
    var lines := if (len + 79) / 80 > 3 then (len + 79) / 80 else 3;
    var height := ExplanationMinHeight + lines * 22;
    if height < ExplanationMaxHeight then height else ExplanationMaxHeight
  }

  /** `estimateExplanationHeight`. */
  function EstimateExplanationHeight(html: string): (h: int)
    ensures 546 <= h <= 840
  {
    HeightForLength(Utf16Length(Trim(ReplaceTags(html, "", true))))
  }

  /** `length` counts UTF-16 code units, so text made only of characters
      outside the Basic Multilingual Plane counts double: 241 such
      characters give 482 units, seven lines rather than four. */
  lemma AstralTextCountsDouble(html: string)
    requires forall i :: 0 <= i < |html| ==> html[i] >= '\U{10000}'
    ensures EstimateExplanationHeight(html) == HeightForLength(2 * |html|)
  {
    assert Lacks(html, '<');
    ReplaceTagsNoTag(html, "", true);
    TrimOfTrimmed(html);
  }

  /** Longer text never gives a smaller estimate. */
  lemma HeightMonotone(a: nat, b: nat)
    requires a <= b
    ensures HeightForLength(a) <= HeightForLength(b)
  {
    assert (a + 79) / 80 <= (b + 79) / 80;
  }

  /** The estimate is `ceil(len / 80)` lines, at least three. */
  lemma HeightLines(len: nat)
    ensures len <= 240 ==> HeightForLength(len) == 546
    ensures len > 240 && len <= 1280 ==> HeightForLength(len) == 480 + 22 * ((len + 79) / 80)
    ensures len > 1280 ==> HeightForLength(len) == 840
  {
  }
}
