/** The quiz templates of quizTemplates.ts: the style table, the persisted
    current-template cell, the legacy label matcher and the restyling pass. */
module QuizTemplates {
  import opened Wrappers
  import opened Strings
  import opened Elements

  // ---------------------------------------------------------------------
  // The template table

  datatype QuizTemplate = Playful | Chalk | Sticky | Whiteboard | Noteboard | Insta

  datatype LabelFormat = Alpha | Numeric

  datatype QuizTemplateStyles = QuizTemplateStyles(
    optionBg: string,
    optionStroke: string,
    optionStrokeWidth: real,
    optionRoughness: real,
    optionRoundness: Option<Roundness>,
    slideBg: string,
    slideStroke: string,
    slideStrokeWidth: real,
    slideRoughness: real,
    slideRoundness: Option<Roundness>,
    slidePadding: real,
    answerBg: string,
    answerStroke: string,
    answerText: string,
    explanationBg: string,
    explanationStroke: string,
    labelColor: string,
    labelFormat: LabelFormat)

  /** `QUIZ_TEMPLATES`. */
  function Styles(t: QuizTemplate): QuizTemplateStyles {
    match t
    case Playful => QuizTemplateStyles(
      "#fff6ff", "#7b3ff2", 2.0, 0.7, Some(AdaptiveRadius),
      "#fff0fb", "#c4a0ff", 2.0, 0.6, Some(AdaptiveRadius), 28.0,
      "#dce9ff", "#4d7cff", "#1f3b8f", "#fff3d6", "#ff9f40", "#5c2bd9", Alpha)
    case Chalk => QuizTemplateStyles(
      "#f1f5f9", "#0f172a", 3.0, 0.0, None,
      "#ffffff", "#0f172a", 3.0, 0.0, None, 24.0,
      "#e2e8f0", "#0f172a", "#0f172a", "#e9f2ff", "#1d4ed8", "#0f172a", Numeric)
    case Sticky => QuizTemplateStyles(
      "#fff7a8", "#b08900", 2.0, 0.6, Some(AdaptiveRadius),
      "#fff2a8", "#d2a100", 2.0, 0.8, Some(AdaptiveRadius), 36.0,
      "#ffd36a", "#c27c00", "#7a4b00", "#fff1c1", "#d4a017", "#7a4b00", Alpha)
    case Whiteboard => QuizTemplateStyles(
      "#ffffff", "#0ea5e9", 2.0, 0.2, Some(AdaptiveRadius),
      "#ffffff", "#cbd5f5", 2.0, 0.2, Some(AdaptiveRadius), 20.0,
      "#e0f2fe", "#0284c7", "#075985", "#f1f5f9", "#94a3b8", "#0f172a", Numeric)
    case Noteboard => QuizTemplateStyles(
      "#fdf2f8", "#db2777", 2.0, 0.5, Some(ProportionalRadius),
      "#fff7fb", "#f9a8d4", 2.0, 0.5, Some(ProportionalRadius), 26.0,
      "#fbcfe8", "#be185d", "#831843", "#fff1f2", "#fb7185", "#9d174d", Alpha)
    case Insta => QuizTemplateStyles(
      "#f5f3ff", "#7c3aed", 2.0, 0.4, Some(AdaptiveRadius),
      "#fdf4ff", "#f0abfc", 2.0, 0.4, Some(AdaptiveRadius), 30.0,
      "#fee2e2", "#ef4444", "#991b1b", "#ede9fe", "#a855f7", "#6d28d9", Numeric)
  }

  /** The key of a template in `QUIZ_TEMPLATES`. */
  function TemplateName(t: QuizTemplate): string {
    match t
    case Playful => "playful"
    case Chalk => "chalk"
    case Sticky => "sticky"
    case Whiteboard => "whiteboard"
    case Noteboard => "noteboard"
    case Insta => "insta"
  }

  /** The template an own key of `QUIZ_TEMPLATES` names. */
  function TemplateOfName(s: string): (r: Option<QuizTemplate>)
    ensures r.Some? ==> TemplateName(r.value) == s
  {
    if s == "playful" then Some(Playful)
    else if s == "chalk" then Some(Chalk)
    else if s == "sticky" then Some(Sticky)
    else if s == "whiteboard" then Some(Whiteboard)
    else if s == "noteboard" then Some(Noteboard)
    else if s == "insta" then Some(Insta)
    else None
  }

  /** Every template is found again under its own key. */
  lemma TemplateNameRoundTrip(t: QuizTemplate)
    ensures TemplateOfName(TemplateName(t)) == Some(t)
  {
  }

  /** The numeric-label templates are exactly chalk, whiteboard and insta. */
  lemma NumericTemplates(t: QuizTemplate)
    ensures Styles(t).labelFormat == Numeric <==> t in {Chalk, Whiteboard, Insta}
  {
  }

  // ---------------------------------------------------------------------
  // The persisted current template

  /** The keys every object inherits from `Object.prototype`, which the
      `in` operator also finds. */
  predicate PrototypeKey(s: string) {
    s in {"constructor", "hasOwnProperty", "isPrototypeOf", "propertyIsEnumerable",
          "toLocaleString", "toString", "valueOf", "__proto__",
          "__defineGetter__", "__defineSetter__", "__lookupGetter__", "__lookupSetter__"}
  }

  /** `readStoredQuizTemplate` as written: a non-empty stored value that
      `in QUIZ_TEMPLATES` accepts is returned as it is, which includes the
      inherited keys. */
  function ReadStoredAsWritten(stored: Option<string>): (r: string)
    ensures stored.None? || stored == Some("") ==> r == "playful"
  {
    match stored
    case None => "playful"
    case Some(s) =>
      if s != "" && (TemplateOfName(s).Some? || PrototypeKey(s)) then s else "playful"
  }

  /** A stored "toString" becomes the current template although it names none. */
  lemma InheritedKeyAccepted()
    ensures ReadStoredAsWritten(Some("toString")) == "toString"
    ensures TemplateOfName("toString") == None
  {
  }

  /** `readStoredQuizTemplate` with the own-key test it evidently means:
      the stored template when the cell names one, otherwise "playful". */
  function ReadStoredQuizTemplate(stored: Option<string>): (r: QuizTemplate)
    ensures stored.Some? && TemplateOfName(stored.value).Some? ==> r == TemplateOfName(stored.value).value
    ensures stored.None? || TemplateOfName(stored.value).None? ==> r == Playful
  {
    match stored
    case None => Playful
    case Some(s) =>
      match TemplateOfName(s)
      case Some(t) => t
      case None => Playful
  }

  /** Where the stored value names a template, both readings agree. */
  lemma ReadStoredAgrees(stored: Option<string>)
    requires !(stored.Some? && PrototypeKey(stored.value))
    ensures ReadStoredAsWritten(stored) == TemplateName(ReadStoredQuizTemplate(stored))
  {
  }

  /** The module variable `currentQuizTemplate` together with the storage
      cell under "excalidraw.quizTemplate". */
  class QuizTemplateStore {
    var current: QuizTemplate
    var stored: Option<string>

    /** Module load: the current template is read from the cell. */
    constructor (stored: Option<string>)
      ensures this.stored == stored
      ensures current == ReadStoredQuizTemplate(stored)
    {
      this.stored := stored;
      current := ReadStoredQuizTemplate(stored);
    }

    /** `getCurrentQuizTemplate`. */
    method GetCurrentQuizTemplate() returns (t: QuizTemplate)
      ensures t == current
    {
      return current;
    }

    /** `setCurrentQuizTemplate`: the variable and the cell both change. */
    method SetCurrentQuizTemplate(t: QuizTemplate)
      modifies this
      ensures current == t
      ensures stored == Some(TemplateName(t))
    {
      current := t;
      stored := Some(TemplateName(t));
    }
  }

  /** What `setCurrentQuizTemplate` writes is read back as the same template
      the next time the module loads. */
  lemma StoredTemplateRestored(t: QuizTemplate)
    ensures ReadStoredQuizTemplate(Some(TemplateName(t))) == t
  {
    TemplateNameRoundTrip(t);
  }

  // ---------------------------------------------------------------------
  // The label matcher

  predicate IsUpper(c: char) {
    'A' <= c <= 'Z'
  }

  /** `/^[A-Z]\.$/`. */
  predicate LetterDot(s: string) {
    |s| == 2 && IsUpper(s[0]) && s[1] == '.'
  }

  /** `/^\d+\.$/`. */
  predicate DigitsDot(s: string) {
    |s| >= 2 && s[|s| - 1] == '.' && AllDigits(s[..|s| - 1])
  }

  /** `isQuizOptionLabel`: a text element tagged as a label, or whose
      trimmed text is one letter or a number followed by a dot. */
  predicate IsQuizOptionLabel(e: Element) {
    && e.kind == Text
    && ((e.customData.quizOption.Some? && e.customData.quizOption.value.role == Some("label"))
        || LetterDot(Trim(e.text)) || DigitsDot(Trim(e.text)))
  }

  /** The labels the importer writes ("A.", "B.", … and "1.", "2.", …) are
      recognised from their text alone. */
  lemma ImportedLabelsMatch(e: Element, c: char, n: nat)
    requires e.kind == Text && IsUpper(c)
    ensures IsQuizOptionLabel(e.(text := [c, '.']))
    ensures IsQuizOptionLabel(e.(text := NatToDigits(n) + "."))
  {
    var d := NatToDigits(n) + ".";
    assert d[..|d| - 1] == NatToDigits(n);
    TrimOfTrimmed([c, '.']);
    TrimOfTrimmed(d);
  }

  // ---------------------------------------------------------------------
  // Restyling

  /** The six rules of `applyQuizTemplate`, in the order they are tried. */
  datatype Rule = OptionRule | SlideRule | LabelRule | AnswerRule | AnswerTextRule | ExplanationRule

  /** The first rule that matches an element; `explanationIds` is the set
      of ids collected from every answer button. */
  function RuleFor(e: Element, explanationIds: set<string>): Option<Rule> {
    if e.customData.quizOption.Some? && e.kind == Rectangle then Some(OptionRule)
    else if e.customData.quizSlideBackground && e.kind == Rectangle then Some(SlideRule)
    else if IsQuizOptionLabel(e) then Some(LabelRule)
    else if e.customData.answerButton.Some? && e.kind == Rectangle then Some(AnswerRule)
    else if e.customData.answerButton.Some? && e.kind == Text then Some(AnswerTextRule)
    else if e.id in explanationIds && e.kind == Rectangle then Some(ExplanationRule)
    else None
  }

  /** `newElementWith` giving a box its five style fields. */
  function Boxed(e: Element, bg: string, stroke: string, width: real, rough: real, round: Option<Roundness>): Element {
    e.(backgroundColor := bg, strokeColor := stroke, strokeWidth := width, roughness := rough, roundness := round)
  }

  /** The element one rule produces. */
  function StyleElement(e: Element, t: QuizTemplateStyles, explanationIds: set<string>): (r: Element)
    ensures SameShape(r, e)
  {
    match RuleFor(e, explanationIds)
    case None => e
    case Some(OptionRule) =>
      Boxed(e, t.optionBg, t.optionStroke, t.optionStrokeWidth, t.optionRoughness, t.optionRoundness)
    case Some(SlideRule) =>
      Boxed(e, t.slideBg, t.slideStroke, t.slideStrokeWidth, t.slideRoughness, t.slideRoundness)
    case Some(LabelRule) => e.(strokeColor := t.labelColor)
    case Some(AnswerRule) =>
      Boxed(e, t.answerBg, t.answerStroke, t.optionStrokeWidth, t.optionRoughness, t.optionRoundness)
    case Some(AnswerTextRule) => e.(strokeColor := t.answerText)
    case Some(ExplanationRule) =>
      Boxed(e, t.explanationBg, t.explanationStroke, t.optionStrokeWidth, t.optionRoughness, t.optionRoundness)
  }

  /** The explanation ids one element lists. */
  function ListedIds(e: Element): set<string> {
    match e.customData.answerButton
    case None => {}
    case Some(b) =>
      match b.explanationElementIds
      case None => {}
      case Some(ids) => set id | id in ids
  }

  /** All explanation ids listed by the elements. */
  function ExplanationIds(es: seq<Element>): set<string>
    decreases |es|
  {
    if es == [] then {} else ExplanationIds(es[..|es| - 1]) + ListedIds(es[|es| - 1])
  }

  /** An id is collected exactly when some answer button lists it. */
  lemma {:induction false} ExplanationIdsIff(es: seq<Element>, id: string)
    ensures id in ExplanationIds(es) <==> exists k :: 0 <= k < |es| && id in ListedIds(es[k])
    decreases |es|
  {
    if es != [] {
      var init := es[..|es| - 1];
      ExplanationIdsIff(init, id);
      if id in ExplanationIds(es) && id !in ListedIds(es[|es| - 1]) {
        var k :| 0 <= k < |init| && id in ListedIds(init[k]);
        assert es[k] == init[k];
      }
      if exists k :: 0 <= k < |es| && id in ListedIds(es[k]) {
        var k :| 0 <= k < |es| && id in ListedIds(es[k]);
        if k < |init| {
          assert init[k] == es[k];
        }
      }
    }
  }

  /** The result of `applyQuizTemplate`. */
  function Restyled(es: seq<Element>, t: QuizTemplateStyles): (r: seq<Element>)
    ensures |r| == |es|
  {
    var ids := ExplanationIds(es);
    seq(|es|, i requires 0 <= i < |es| => StyleElement(es[i], t, ids))
  }

  /** `applyQuizTemplate`: collect the explanation ids of every answer
      button, then restyle each element by the first rule it matches. */
  method ApplyQuizTemplate(elements: seq<Element>, template: QuizTemplateStyles) returns (r: seq<Element>)
    ensures r == Restyled(elements, template)
  {
    var explanationBoxIds: set<string> := {};
    var i := 0;
    while i < |elements|
      invariant 0 <= i <= |elements|
      invariant explanationBoxIds == ExplanationIds(elements[..i])
    {
      var element := elements[i];
      assert elements[..i + 1][..i] == elements[..i];
      if element.customData.answerButton.Some? && element.customData.answerButton.value.explanationElementIds.Some? {
        var ids := element.customData.answerButton.value.explanationElementIds.value;
        var j := 0;
        while j < |ids|
          invariant 0 <= j <= |ids|
          invariant explanationBoxIds == ExplanationIds(elements[..i]) + (set id | id in ids[..j])
        {
          assert ids[..j + 1] == ids[..j] + [ids[j]];
          explanationBoxIds := explanationBoxIds + {ids[j]};
          j := j + 1;
        }
        assert ids[..j] == ids;
      }
      i := i + 1;
    }
    assert elements[..i] == elements;
    r := seq(|elements|, k requires 0 <= k < |elements| => StyleElement(elements[k], template, explanationBoxIds));
  }

  /** Restyling keeps the count, the order and every element's identity and
      geometry; only the five style fields can change. */
  lemma RestyleKeepsShape(es: seq<Element>, t: QuizTemplateStyles)
    ensures |Restyled(es, t)| == |es|
    ensures forall i :: 0 <= i < |es| ==> SameShape(Restyled(es, t)[i], es[i])
  {
  }

  /** An element no rule matches is returned as it is. */
  lemma UnmatchedUnchanged(es: seq<Element>, t: QuizTemplateStyles, i: nat)
    requires i < |es| && RuleFor(es[i], ExplanationIds(es)) == None
    ensures Restyled(es, t)[i] == es[i]
  {
  }

  /** The rules read only the type, id, text and `customData`. */
  lemma RuleIgnoresStyle(a: Element, b: Element, ids: set<string>)
    requires SameShape(a, b)
    ensures RuleFor(a, ids) == RuleFor(b, ids)
  {
  }

  /** Restyling an element twice: the later template fully decides the style. */
  lemma StyleOverStyle(e: Element, t1: QuizTemplateStyles, t2: QuizTemplateStyles, ids: set<string>)
    ensures StyleElement(StyleElement(e, t1, ids), t2, ids) == StyleElement(e, t2, ids)
  {
    RuleIgnoresStyle(StyleElement(e, t1, ids), e, ids);
  }

  /** Every element keeps its answer-button ids, so the set collected is the same. */
  lemma {:induction false} RestyleKeepsIds(es: seq<Element>, t: QuizTemplateStyles, ids: set<string>)
    ensures ExplanationIds(seq(|es|, i requires 0 <= i < |es| => StyleElement(es[i], t, ids))) == ExplanationIds(es)
    decreases |es|
  {
    var r := seq(|es|, i requires 0 <= i < |es| => StyleElement(es[i], t, ids));
    if es != [] {
      var init := es[..|es| - 1];
      RestyleKeepsIds(init, t, ids);
      assert r[..|r| - 1] == seq(|init|, i requires 0 <= i < |init| => StyleElement(init[i], t, ids));
      assert r[|r| - 1].customData == es[|es| - 1].customData;
    }
  }

  /** Applying a second template after a first gives what the second alone
      gives: restyling forgets the earlier template. */
  lemma LastTemplateWins(es: seq<Element>, t1: QuizTemplateStyles, t2: QuizTemplateStyles)
    ensures Restyled(Restyled(es, t1), t2) == Restyled(es, t2)
  {
    var ids := ExplanationIds(es);
    RestyleKeepsIds(es, t1, ids);
    var once := Restyled(es, t1);
    forall i | 0 <= i < |es|
      ensures Restyled(once, t2)[i] == Restyled(es, t2)[i]
    {
      StyleOverStyle(es[i], t1, t2, ids);
    }
  }

  /** Applying the same template twice is applying it once. */
  lemma RestyleIdempotent(es: seq<Element>, t: QuizTemplateStyles)
    ensures Restyled(Restyled(es, t), t) == Restyled(es, t)
  {
    LastTemplateWins(es, t, t);
  }

  /** An option rectangle takes the option style even when it also carries
      the slide-background or answer-button tags: the first rule wins. */
  lemma OptionRuleFirst(e: Element, t: QuizTemplateStyles, ids: set<string>)
    requires e.kind == Rectangle && e.customData.quizOption.Some?
    ensures StyleElement(e, t, ids).backgroundColor == t.optionBg
    ensures StyleElement(e, t, ids).strokeColor == t.optionStroke
  {
  }

  /** A label changes its stroke colour and nothing else. */
  lemma LabelOnlyStroke(e: Element, t: QuizTemplateStyles, ids: set<string>)
    requires IsQuizOptionLabel(e)
    ensures StyleElement(e, t, ids) == e.(strokeColor := t.labelColor)
  {
  }

  /** A rectangle is styled as an explanation box exactly when it has no
      other role and some answer button of the scene lists its id. */
  lemma ExplanationBoxIff(es: seq<Element>, t: QuizTemplateStyles, i: nat)
    requires i < |es| && es[i].kind == Rectangle
    requires es[i].customData.quizOption.None? && !es[i].customData.quizSlideBackground
    requires es[i].customData.answerButton.None?
    ensures RuleFor(es[i], ExplanationIds(es)) == Some(ExplanationRule)
        <==> exists k :: 0 <= k < |es| && es[i].id in ListedIds(es[k])
  {
    ExplanationIdsIff(es, es[i].id);
  }
}
