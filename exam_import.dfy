/** The two registered actions of actionImportExamQuestions.ts:
    `actionImportExamQuestions` from the fetched question list on (one slide
    per question: the question, the stacked options with their labels, the
    explanation card and a padded background) and `actionSetQuizTemplate`. */
module ExamImport {
  import opened Wrappers
  import opened Strings
  import opened Elements
  import opened ExamAnswers
  import opened QuizTemplates
  import opened QuizFlow
  import LatexUtils
  import LR = LatexRender

  const QuestionFontSize: real := 21.0
  const OptionFontSize: real := 18.0
  const QuestionMaxWidth: real := 800.0
  const OptionMaxWidth: real := 550.0
  const OptionPadding: real := 12.0
  const OptionGap: real := 16.0
  const QuestionGap: real := 24.0
  const SlideGap: real := 2000.0
  const SlidePadding: real := 60.0
  const ExplanationBoxWidth: real := 700.0

  /** The message of the promise a failed image decode rejects with. */
  const RenderFailedMessage := "Failed to load SVG"
  const NoQuestionsMessage := "No questions found for the provided Exam ID."

  /** The host services of an import: the flow's measurement and wrapping,
      and the explanation card's markup for a text and the card's id. */
  datatype ImportHost = ImportHost(flow: Host, cardHtml: (string, string) -> string)

  // ---------------------------------------------------------------------
  // Bounds

  /** An axis-aligned box: `[minX, minY, maxX, maxY]`. */
  datatype Box = Box(minX: real, minY: real, maxX: real, maxY: real)

  /** The box of an unrotated element. */
  function BoxOf(e: Element): Box {
    Box(e.x, e.y, e.x + e.width, e.y + e.height)
  }

  function Min(a: real, b: real): (m: real)
    ensures m <= a && m <= b && (m == a || m == b)
  {
    if a <= b then a else b
  }

  /** `getCommonBounds` of unrotated boxes: the smallest box holding all. */
  function CommonBounds(es: seq<Element>): (b: Box)
    requires es != []
    ensures forall i :: 0 <= i < |es| ==>
      b.minX <= es[i].x && b.minY <= es[i].y && es[i].x + es[i].width <= b.maxX && es[i].y + es[i].height <= b.maxY
  {
    if |es| == 1 then BoxOf(es[0])
    else
      var rest := CommonBounds(es[1..]);
      assert forall i :: 1 <= i < |es| ==> es[i] == es[1..][i - 1];
      Box(Min(es[0].x, rest.minX), Min(es[0].y, rest.minY),
          Max(es[0].x + es[0].width, rest.maxX), Max(es[0].y + es[0].height, rest.maxY))
  }

  /** Each side of the common bounds is the side of some element, so no
      smaller box holds them all. */
  lemma {:induction false} BoundsAttained(es: seq<Element>)
    requires es != []
    ensures var b := CommonBounds(es);
      && (exists i :: 0 <= i < |es| && b.minX == es[i].x)
      && (exists i :: 0 <= i < |es| && b.minY == es[i].y)
      && (exists i :: 0 <= i < |es| && b.maxX == es[i].x + es[i].width)
      && (exists i :: 0 <= i < |es| && b.maxY == es[i].y + es[i].height)
    decreases |es|
  {
    if |es| > 1 {
      var rest := es[1..];
      BoundsAttained(rest);
      var b, r := CommonBounds(es), CommonBounds(rest);
      var i1 :| 0 <= i1 < |rest| && r.minX == rest[i1].x;
      var i2 :| 0 <= i2 < |rest| && r.minY == rest[i2].y;
      var i3 :| 0 <= i3 < |rest| && r.maxX == rest[i3].x + rest[i3].width;
      var i4 :| 0 <= i4 < |rest| && r.maxY == rest[i4].y + rest[i4].height;
      assert rest[i1] == es[i1 + 1] && rest[i2] == es[i2 + 1] && rest[i3] == es[i3 + 1] && rest[i4] == es[i4 + 1];
      assert b.minX == es[0].x || b.minX == es[i1 + 1].x;
      assert b.minY == es[0].y || b.minY == es[i2 + 1].y;
      assert b.maxX == es[0].x + es[0].width || b.maxX == es[i3 + 1].x + es[i3 + 1].width;
      assert b.maxY == es[0].y + es[0].height || b.maxY == es[i4 + 1].y + es[i4 + 1].height;
    } else {
      assert CommonBounds(es) == BoxOf(es[0]);
    }
  }

  /** A slide's centre, recorded for scrolling. */
  datatype Anchor = Anchor(centerX: real, centerY: real)

  function Center(b: Box): Anchor {
    Anchor((b.minX + b.maxX) / 2.0, (b.minY + b.maxY) / 2.0)
  }

  // ---------------------------------------------------------------------
  // The elements of one option

  /** `String.fromCharCode(65 + k)`: the code unit `(65 + k) mod 2^16`; a
      lone surrogate (0xD800 to 0xDFFF), which is no character, is
      written as U+FFFD. */
  function Letter(k: nat): char {
    var u := (65 + k) % 0x1_0000;
    if u < 0xD800 || 0xE000 <= u then u as char else '\U{FFFD}'
  }

  /** An option's label: its 1-based number or its letter, then a dot. */
  function LabelText(format: LabelFormat, k: nat): string {
    (if format == Numeric then NatToDigits(k + 1) else [Letter(k)]) + "."
  }

  /** The first 26 letter labels and every number label also match the
      legacy label patterns, so they would be recognised without the
      `role` tag. */
  lemma LabelTextRecognised(format: LabelFormat, k: nat)
    requires format == Numeric || k < 26
    ensures format == Alpha ==> LetterDot(LabelText(format, k))
    ensures format == Numeric ==> DigitsDot(LabelText(format, k))
  {
    var s := LabelText(format, k);
    if format == Numeric {
      assert s[..|s| - 1] == NatToDigits(k + 1);
    }
  }

  /** The `quizOption` tag of option `k`: its index, its rectangle's id, and
      whether it is the resolved correct index. */
  function OptionMeta(k: nat, rectId: string, correct: Option<real>, role: Option<string>): CustomData {
    CustomData(Some(QuizOption(Some(k), Some(rectId), correct == Some(k as real), role)), false, None, None)
  }

  /** The option's rectangle, already given its final height and tag. */
  function OptionRect(id: string, x: real, y: real, height: real, t: QuizTemplateStyles, groupId: string, meta: CustomData): Element {
    Element(id, Rectangle, x, y, OptionMaxWidth, height, t.optionBg, t.optionStroke, t.optionStrokeWidth,
            t.optionRoughness, t.optionRoundness, "solid", 100.0, "", None, [groupId], meta)
  }

  /** The option's label text element, in the template's label colour. */
  function LabelElement(id: string, x: real, y: real, text: string, size: (real, real), color: string,
                        groupId: string, meta: CustomData): Element {
    Element(id, Text, x, y, size.0, size.1, "transparent", color, 2.0, 1.0, None, "solid", 100.0,
            text, None, [groupId], meta)
  }

  /** What the slide holds so far: the next id, the files, the cursor `y`
      and the slide's elements (the background not yet inserted). */
  datatype SlideState = SlideState(nextId: nat, files: map<string, string>, y: real, elements: seq<Element>)

  datatype Built = Building(st: SlideState) | BuildFailed

  /** The placement of an option's content: right of the label, inside the
      rectangle's padding. */
  function OptionParams(slideX: real, y: real, labelWidth: real, groupId: string, meta: CustomData): FlowParams {
    FlowParams(slideX + OptionPadding + labelWidth + 6.0, y + OptionPadding,
               OptionMaxWidth - OptionPadding * 2.0, OptionFontSize, groupId, meta)
  }

  /** One option: a rectangle id, a label id, the content flowed right of
      the label, then the rectangle sized to the content plus padding. */
  function OptionStep(qc: ContentFn, host: Host, t: QuizTemplateStyles, slideX: real, groupId: string,
                      correct: Option<real>, k: nat, raw: string, st: SlideState): Built
  {
    var text := LabelText(t.labelFormat, k);
    var labelSize := host.measure(text, OptionFontSize);
    var meta := OptionMeta(k, IdName(st.nextId), correct, None);
    var content := qc(OptionParams(slideX, st.y, labelSize.0, groupId, meta), raw, st.nextId + 2, st.files);
    if content.Failed? then BuildFailed
    else Building(WithOption(t, slideX, groupId, correct, k, labelSize, st, content))
  }

  /** Option `k`'s rectangle, as tall as its content plus padding, and its
      label, with the ids of steps `n` and `n + 1`. */
  function OptionPair(t: QuizTemplateStyles, slideX: real, y: real, groupId: string, correct: Option<real>, k: nat,
                      labelSize: (real, real), n: nat, contentHeight: real): seq<Element>
  {
    var rectId := IdName(n);
    [OptionRect(rectId, slideX, y, contentHeight + OptionPadding * 2.0, t, groupId, OptionMeta(k, rectId, correct, None)),
     LabelElement(IdName(n + 1), slideX + OptionPadding, y + OptionPadding, LabelText(t.labelFormat, k), labelSize,
                  t.labelColor, groupId, OptionMeta(k, rectId, correct, Some("label")))]
  }

  /** The slide with option `k` appended: its rectangle and label, then its
      content; the next option goes one gap below the rectangle. */
  function WithOption(t: QuizTemplateStyles, slideX: real, groupId: string, correct: Option<real>, k: nat,
                      labelSize: (real, real), st: SlideState, content: ContentOutcome): SlideState
    requires content.Content?
  {
    var pair := OptionPair(t, slideX, st.y, groupId, correct, k, labelSize, st.nextId, content.height);
    SlideState(content.nextId, content.files, st.y + (content.height + OptionPadding * 2.0) + OptionGap,
               st.elements + pair + content.elements)
  }

  /** The options from `from` on, stacked in order; the first failure
      stops the slide. */
  function Options(qc: ContentFn, host: Host, t: QuizTemplateStyles, slideX: real, groupId: string,
                   correct: Option<real>, options: seq<string>, from: nat, st: SlideState): Built
    decreases |options| - from
  {
    if from >= |options| then Building(st)
    else match OptionStep(qc, host, t, slideX, groupId, correct, from, options[from], st)
      case BuildFailed => BuildFailed
      case Building(next) => Options(qc, host, t, slideX, groupId, correct, options, from + 1, next)
  }

  /** The loop body of the options loop. */
  method PlaceOption(renderer: LR.LatexRenderer, ids: IdSource, host: Host, ghost qc: ContentFn, t: QuizTemplateStyles, slideX: real,
                     groupId: string, correct: Option<real>, k: nat, raw: string, st: SlideState)
    returns (b: Built)
    requires renderer.Valid() && IsQuizContent(qc, host, renderer.env) && st.nextId == ids.next
    modifies renderer, ids
    ensures renderer.Valid()
    ensures b == OptionStep(qc, host, t, slideX, groupId, correct, k, raw, st)
    ensures b.Building? ==> ids.next == b.st.nextId
  {
    var rectId := ids.Fresh();
    var text := LabelText(t.labelFormat, k);
    var labelId := ids.Fresh();
    var labelSize := host.measure(text, OptionFontSize);
    var meta := OptionMeta(k, rectId, correct, None);
    var content := MakeContent(renderer, ids, host, qc, OptionParams(slideX, st.y, labelSize.0, groupId, meta),
                               raw, st.files);
    if content.Failed? {
      return BuildFailed;
    }
    return Building(WithOption(t, slideX, groupId, correct, k, labelSize, st, content));
  }

  /** The options loop. */
  method PlaceOptions(renderer: LR.LatexRenderer, ids: IdSource, host: Host, ghost qc: ContentFn, t: QuizTemplateStyles,
                      slideX: real, groupId: string, correct: Option<real>, options: seq<string>, st0: SlideState)
    returns (b: Built)
    requires renderer.Valid() && IsQuizContent(qc, host, renderer.env) && st0.nextId == ids.next
    modifies renderer, ids
    ensures renderer.Valid()
    ensures b == Options(qc, host, t, slideX, groupId, correct, options, 0, st0)
    ensures b.Building? ==> ids.next == b.st.nextId
  {
    var st := st0;
    var k := 0;
    while k < |options|
      invariant k <= |options|
      invariant renderer.Valid() && st.nextId == ids.next
      invariant Options(qc, host, t, slideX, groupId, correct, options, 0, st0)
             == Options(qc, host, t, slideX, groupId, correct, options, k, st)
    {
      var next := PlaceOption(renderer, ids, host, qc, t, slideX, groupId, correct, k, options[k], st);
      if next.BuildFailed? {
        return BuildFailed;
      }
      st := next.st;
      k := k + 1;
    }
    return Building(st);
  }

  // ---------------------------------------------------------------------
  // One slide

  /** Where a question's content goes: at the slide's padded corner, in
      the question's font, without custom data. */
  function QuestionParams(slideX: real, groupId: string): FlowParams {
    FlowParams(slideX, SlidePadding, QuestionMaxWidth, QuestionFontSize, groupId, NoCustomData)
  }

  /** The question's content opens the slide; the options start one
      question gap below it. */
  function QuestionStep(qc: ContentFn, slideX: real, groupId: string, raw: string, next: nat,
                        files: map<string, string>): Built
  {
    match qc(QuestionParams(slideX, groupId), raw, next, files)
    case Failed => BuildFailed
    case Content(es, h, files', next') => Building(SlideState(next', files', SlidePadding + h + QuestionGap, es))
  }

  /** The HTML the card element shows. */
  const TransparentColor := "rgba(255, 255, 255, 0)"

  /** The explanation card: a transparent, borderless iframe holding the
      card markup for the text and the card's own id. */
  function ExplanationCard(id: string, x: real, y: real, height: real, t: QuizTemplateStyles, groupId: string,
                           html: string): Element {
    Element(id, Iframe, x, y, ExplanationBoxWidth, height, TransparentColor, TransparentColor, 0.0,
            t.optionRoughness, None, "solid", 100.0, "", None, [groupId], CustomData(None, false, None, Some(html)))
  }

  /** A non-empty explanation adds its card below the options. */
  function ExplanationStep(host: ImportHost, t: QuizTemplateStyles, slideX: real, groupId: string, text: string,
                           st: SlideState): SlideState
  {
    if text == "" then st else WithCard(IdName(st.nextId), host, t, slideX, groupId, text, st)
  }

  /** The slide with the card for `text`, which has id `id`, appended. */
  function WithCard(id: string, host: ImportHost, t: QuizTemplateStyles, slideX: real, groupId: string, text: string,
                    st: SlideState): SlideState
  {
    var height := EstimateExplanationHeight(text) as real + 100.0;
    var card := ExplanationCard(id, slideX, st.y, height, t, groupId, host.cardHtml(text, id));
    SlideState(st.nextId + 1, st.files, st.y + height + OptionGap, st.elements + [card])
  }

  /** The slide's background: the common bounds of its elements grown by the
      template's padding, in the template's slide style. */
  function SlideBackground(id: string, es: seq<Element>, t: QuizTemplateStyles, groupId: string): Element
    requires es != []
  {
    var b := CommonBounds(es);
    var pad := t.slidePadding;
    Element(id, Rectangle, b.minX - pad, b.minY - pad, b.maxX - b.minX + pad * 2.0, b.maxY - b.minY + pad * 2.0,
            t.slideBg, t.slideStroke, t.slideStrokeWidth, t.slideRoughness, t.slideRoundness, "solid", 100.0,
            "", None, [groupId], CustomData(None, true, None, None))
  }

  /** A finished slide: its elements, background first; the files and the
      counter after it; and its anchor, absent when the slide is empty. */
  datatype SlideOutcome = SlideDone(elements: seq<Element>, files: map<string, string>, nextId: nat, anchor: Option<Anchor>)
                        | SlideFailed

  /** The background goes in front of a non-empty slide, and the anchor is
      the centre of everything the slide holds. */
  function FinishSlide(t: QuizTemplateStyles, groupId: string, st: SlideState): SlideOutcome {
    if st.elements == [] then SlideDone([], st.files, st.nextId, None)
    else WithBackground(IdName(st.nextId), t, groupId, st)
  }

  /** A non-empty slide behind its background, which has id `id`. */
  function WithBackground(id: string, t: QuizTemplateStyles, groupId: string, st: SlideState): SlideOutcome
    requires st.elements != []
  {
    var es := [SlideBackground(id, st.elements, t, groupId)] + st.elements;
    SlideDone(es, st.files, st.nextId + 1, Some(Center(CommonBounds(es))))
  }

  /** The left edge of slide `i`. */
  function SlideX(i: nat): real {
    i as real * SlideGap + SlidePadding
  }

  /** The options a question lists, none when absent. */
  function OptionsOf(item: ExamQuestion): seq<string> {
    if item.options.Some? then item.options.value else []
  }

  /** Slide `i` for one question: a group id, the question, the options
      stacked below it, the explanation card, then the background. */
  function Slide(qc: ContentFn, host: ImportHost, t: QuizTemplateStyles, i: nat, item: ExamQuestion, next: nat,
                 files: map<string, string>): SlideOutcome
  {
    var groupId := IdName(next);
    var slideX := SlideX(i);
    var question := if item.question.Some? then item.question.value else "";
    match QuestionStep(qc, slideX, groupId, question, next + 1, files)
    case BuildFailed => SlideFailed
    case Building(st) =>
      var options := OptionsOf(item);
      BelowQuestion(qc, host, t, options, ResolveCorrectIndex(item, options), ResolveExplanationText(item),
                    slideX, groupId, st)
  }

  /** The rest of the slide once its question is placed, given the
      options, the resolved correct index and the explanation text. */
  function BelowQuestion(qc: ContentFn, host: ImportHost, t: QuizTemplateStyles, options: seq<string>,
                         correct: Option<real>, explanation: string, slideX: real, groupId: string,
                         st: SlideState): SlideOutcome
  {
    match Options(qc, host.flow, t, slideX, groupId, correct, options, 0, st)
    case BuildFailed => SlideFailed
    case Building(st') => FinishSlide(t, groupId, ExplanationStep(host, t, slideX, groupId, explanation, st'))
  }

  /** The question's content. */
  method PlaceQuestion(renderer: LR.LatexRenderer, ids: IdSource, host: Host, ghost qc: ContentFn, slideX: real,
                       groupId: string, raw: string, files: map<string, string>) returns (b: Built)
    requires renderer.Valid() && IsQuizContent(qc, host, renderer.env)
    modifies renderer, ids
    ensures renderer.Valid()
    ensures b == QuestionStep(qc, slideX, groupId, raw, old(ids.next), files)
    ensures b.Building? ==> ids.next == b.st.nextId
  {
    var content := MakeContent(renderer, ids, host, qc, QuestionParams(slideX, groupId), raw, files);
    if content.Failed? {
      return BuildFailed;
    }
    return Building(SlideState(content.nextId, content.files, SlidePadding + content.height + QuestionGap,
                               content.elements));
  }

  /** The explanation card, when there is a text. */
  method PlaceExplanation(ids: IdSource, host: ImportHost, t: QuizTemplateStyles, slideX: real, groupId: string,
                          text: string, st: SlideState) returns (r: SlideState)
    requires st.nextId == ids.next
    modifies ids
    ensures r == ExplanationStep(host, t, slideX, groupId, text, st) && ids.next == r.nextId
  {
    if text == "" {
      return st;
    }
    var id := ids.Fresh();
    return WithCard(id, host, t, slideX, groupId, text, st);
  }

  /** The background and the anchor. */
  method PlaceBackground(ids: IdSource, t: QuizTemplateStyles, groupId: string, st: SlideState) returns (r: SlideOutcome)
    requires st.nextId == ids.next
    modifies ids
    ensures r == FinishSlide(t, groupId, st) && ids.next == r.nextId
  {
    if st.elements == [] {
      return SlideDone([], st.files, st.nextId, None);
    }
    var id := ids.Fresh();
    return WithBackground(id, t, groupId, st);
  }

  /** The body of the questions loop. */
  method BuildSlide(renderer: LR.LatexRenderer, ids: IdSource, host: ImportHost, ghost qc: ContentFn,
                    t: QuizTemplateStyles, i: nat, item: ExamQuestion, files: map<string, string>)
    returns (r: SlideOutcome)
    requires renderer.Valid() && IsQuizContent(qc, host.flow, renderer.env)
    modifies renderer, ids
    ensures renderer.Valid()
    ensures r == Slide(qc, host, t, i, item, old(ids.next), files)
    ensures r.SlideDone? ==> ids.next == r.nextId
  {
    var groupId := ids.Fresh();
    var slideX := SlideX(i);
    var question := if item.question.Some? then item.question.value else "";
    var asked := PlaceQuestion(renderer, ids, host.flow, qc, slideX, groupId, question, files);
    if asked.BuildFailed? {
      return SlideFailed;
    }
    var options := OptionsOf(item);
    var correctIndex := ResolveCorrectIndex(item, options);
    var explanationText := ResolveExplanationText(item);
    r := BuildBelowQuestion(renderer, ids, host, qc, t, options, correctIndex, explanationText, slideX, groupId,
                            asked.st);
  }

  /** The options, the explanation card and the background. */
  method BuildBelowQuestion(renderer: LR.LatexRenderer, ids: IdSource, host: ImportHost, ghost qc: ContentFn,
                            t: QuizTemplateStyles, options: seq<string>, correctIndex: Option<real>,
                            explanationText: string, slideX: real, groupId: string, st: SlideState)
    returns (r: SlideOutcome)
    requires renderer.Valid() && IsQuizContent(qc, host.flow, renderer.env) && st.nextId == ids.next
    modifies renderer, ids
    ensures renderer.Valid()
    ensures r == BelowQuestion(qc, host, t, options, correctIndex, explanationText, slideX, groupId, st)
    ensures r.SlideDone? ==> ids.next == r.nextId
  {
    var stacked := PlaceOptions(renderer, ids, host.flow, qc, t, slideX, groupId, correctIndex, options, st);
    if stacked.BuildFailed? {
      return SlideFailed;
    }
    var explained := PlaceExplanation(ids, host, t, slideX, groupId, explanationText, stacked.st);
    r := PlaceBackground(ids, t, groupId, explained);
  }

  // ---------------------------------------------------------------------
  // What a slide's elements satisfy

  /** The elements from `from` on carry ids handed out between steps `lo`
      and `hi`, and no two share one. */
  ghost predicate FreshIds(es: seq<Element>, from: nat, lo: nat, hi: nat) {
    && from <= |es|
    && (forall i :: from <= i < |es| ==> es[i].id in IdRange(lo, hi))
    && (forall i, j :: from <= i < j < |es| ==> es[i].id != es[j].id)
  }

  /** The elements from `from` on are in the slide's group. */
  predicate InGroup(groupId: string, es: seq<Element>, from: nat) {
    forall i :: from <= i < |es| ==> es[i].groupIds == [groupId]
  }

  /** Custom data of a slide's content: no background tag, and an option
      tag names an index below `count` and is correct exactly when that
      index is the resolved one. */
  predicate ContentTag(d: CustomData, correct: Option<real>, count: nat) {
    && !d.quizSlideBackground
    && (d.quizOption.Some? ==>
          && d.quizOption.value.optionIndex.Some? && d.quizOption.value.optionIndex.value < count
          && (d.quizOption.value.isCorrect <==> correct == Some(d.quizOption.value.optionIndex.value as real)))
  }

  predicate Tagged(correct: Option<real>, count: nat, es: seq<Element>, from: nat) {
    forall i :: from <= i < |es| ==> ContentTag(es[i].customData, correct, count)
  }

  /** The three together, for the part of a slide built from `from` on. */
  ghost predicate SlideBody(groupId: string, correct: Option<real>, count: nat, es: seq<Element>, from: nat,
                            lo: nat, hi: nat) {
    FreshIds(es, from, lo, hi) && InGroup(groupId, es, from) && Tagged(correct, count, es, from)
  }

  /** Ranges nest. */
  lemma RangeWithin(lo: nat, hi: nat, lo': nat, hi': nat)
    requires lo' <= lo && hi <= hi'
    ensures IdRange(lo, hi) <= IdRange(lo', hi')
  {
  }

  /** Fresh parts handed out one after the other stay fresh together. */
  lemma FreshAppend(a: seq<Element>, from: nat, lo: nat, mid: nat, b: seq<Element>, hi: nat)
    requires FreshIds(a, from, lo, mid) && FreshIds(b, 0, mid, hi) && lo <= mid <= hi
    ensures FreshIds(a + b, from, lo, hi)
  {
    var c := a + b;
    RangesDisjoint(lo, mid, hi);
    RangeWithin(lo, mid, lo, hi);
    RangeWithin(mid, hi, lo, hi);
    forall i | from <= i < |c|
      ensures c[i].id in IdRange(lo, hi)
    {
      if i < |a| { assert c[i] == a[i]; } else { assert c[i] == b[i - |a|]; }
    }
    forall i, j | from <= i < j < |c|
      ensures c[i].id != c[j].id
    {
      if j < |a| {
        assert c[i] == a[i] && c[j] == a[j];
      } else if i < |a| {
        assert c[i] == a[i] && c[j] == b[j - |a|];
        assert c[i].id in IdRange(lo, mid) && c[j].id in IdRange(mid, hi);
      } else {
        assert c[i] == b[i - |a|] && c[j] == b[j - |a|];
      }
    }
  }

  /** The parts of a slide glued one after the other. */
  lemma BodyAppend(groupId: string, correct: Option<real>, count: nat, a: seq<Element>, from: nat,
                   lo: nat, mid: nat, b: seq<Element>, hi: nat)
    requires SlideBody(groupId, correct, count, a, from, lo, mid) && SlideBody(groupId, correct, count, b, 0, mid, hi)
    requires lo <= mid <= hi
    ensures SlideBody(groupId, correct, count, a + b, from, lo, hi)
  {
    FreshAppend(a, from, lo, mid, b, hi);
    var c := a + b;
    forall i | from <= i < |c|
      ensures c[i].groupIds == [groupId] && ContentTag(c[i].customData, correct, count)
    {
      if i < |a| { assert c[i] == a[i]; } else { assert c[i] == b[i - |a|]; }
    }
  }

  /** Elements made with consecutive ids from step `lo`, in the group and
      with content tags, form a slide part. */
  lemma ConsecutiveBody(groupId: string, correct: Option<real>, count: nat, es: seq<Element>, lo: nat)
    requires forall i :: 0 <= i < |es| ==> es[i].id == IdName(lo + i)
    requires forall i :: 0 <= i < |es| ==> es[i].groupIds == [groupId] && ContentTag(es[i].customData, correct, count)
    ensures SlideBody(groupId, correct, count, es, 0, lo, lo + |es|)
  {
    forall i | 0 <= i < |es|
      ensures es[i].id in IdRange(lo, lo + |es|)
    {
    }
    forall i, j | 0 <= i < j < |es|
      ensures es[i].id != es[j].id
    {
      IdNameDistinct(lo + i, lo + j);
    }
  }

  /** A successful content call in the slide's group, with a content tag,
      adds a slide part. */
  lemma ContentBody(qc: ContentFn, p: FlowParams, raw: string, next: nat, files: map<string, string>,
                    correct: Option<real>, count: nat)
    requires ContentWellFormed(qc) && ContentTag(p.customData, correct, count)
    ensures var c := qc(p, raw, next, files);
      c.Content? ==> next <= c.nextId && files.Keys <= c.files.Keys
                     && SlideBody(p.groupId, correct, count, c.elements, 0, next, c.nextId)
  {
    var c := qc(p, raw, next, files);
    assert ContentOk(p, next, files, c);
    if c.Content? {
      forall i | 0 <= i < |c.elements|
        ensures c.elements[i].groupIds == [p.groupId] && ContentTag(c.elements[i].customData, correct, count)
      {
        assert Placed(p, c.elements[i]);
      }
    }
  }

  /** What one option adds: its rectangle (id of step `n`, at the cursor,
      `OptionMaxWidth` wide), its label, tagged with the rectangle's id
      and the role "label", then its content, all tagged with option `k`;
      the cursor moves one gap below the rectangle. */
  lemma OptionShape(qc: ContentFn, host: Host, t: QuizTemplateStyles, slideX: real, groupId: string,
                    correct: Option<real>, k: nat, raw: string, st: SlideState)
    requires ContentWellFormed(qc)
    ensures var b := OptionStep(qc, host, t, slideX, groupId, correct, k, raw, st);
      var n := st.nextId;
      b.Building? ==>
        && |b.st.elements| >= |st.elements| + 2 && b.st.elements[..|st.elements|] == st.elements
        && var rect := b.st.elements[|st.elements|];
        && var lbl := b.st.elements[|st.elements| + 1];
        && rect.id == IdName(n) && rect.kind == Rectangle
        && rect.x == slideX && rect.y == st.y && rect.width == OptionMaxWidth
        && rect.height == OptionPadding * 2.0 + qc(OptionParams(slideX, st.y,
             host.measure(LabelText(t.labelFormat, k), OptionFontSize).0, groupId,
             OptionMeta(k, IdName(n), correct, None)), raw, n + 2, st.files).height
        && b.st.y == rect.y + rect.height + OptionGap
        && lbl.id == IdName(n + 1) && lbl.kind == Text && lbl.text == LabelText(t.labelFormat, k)
        && lbl.customData.quizOption == Some(QuizOption(Some(k), Some(rect.id), correct == Some(k as real), Some("label")))
        && forall i :: |st.elements| <= i < |b.st.elements| && i != |st.elements| + 1 ==>
             b.st.elements[i].customData.quizOption == Some(QuizOption(Some(k), Some(rect.id), correct == Some(k as real), None))
  {
    var b := OptionStep(qc, host, t, slideX, groupId, correct, k, raw, st);
    if b.Building? {
      var text := LabelText(t.labelFormat, k);
      var labelSize := host.measure(text, OptionFontSize);
      var meta := OptionMeta(k, IdName(st.nextId), correct, None);
      var p := OptionParams(slideX, st.y, labelSize.0, groupId, meta);
      var c := qc(p, raw, st.nextId + 2, st.files);
      assert ContentOk(p, st.nextId + 2, st.files, c);
      var m := |st.elements| + 2;
      assert b.st.elements == st.elements + [b.st.elements[m - 2], b.st.elements[m - 1]] + c.elements;
      forall i | m <= i < |b.st.elements|
        ensures b.st.elements[i].customData == meta
      {
        assert b.st.elements[i] == c.elements[i - m];
        assert Placed(p, c.elements[i - m]);
      }
    }
  }

  /** An option's rectangle and label form a slide part. */
  lemma PairBody(t: QuizTemplateStyles, slideX: real, y: real, groupId: string, correct: Option<real>, count: nat,
                 k: nat, labelSize: (real, real), n: nat, contentHeight: real)
    requires k < count
    ensures SlideBody(groupId, correct, count, OptionPair(t, slideX, y, groupId, correct, k, labelSize, n, contentHeight),
                      0, n, n + 2)
  {
    ConsecutiveBody(groupId, correct, count, OptionPair(t, slideX, y, groupId, correct, k, labelSize, n, contentHeight), n);
  }

  /** Appending an option whose content is a slide part extends the
      slide part. */
  lemma WithOptionBody(t: QuizTemplateStyles, slideX: real, groupId: string, correct: Option<real>, count: nat,
                       k: nat, labelSize: (real, real), st: SlideState, content: ContentOutcome, from: nat, lo: nat)
    requires content.Content? && k < count && lo <= st.nextId
    requires st.nextId + 2 <= content.nextId
    requires SlideBody(groupId, correct, count, st.elements, from, lo, st.nextId)
    requires SlideBody(groupId, correct, count, content.elements, 0, st.nextId + 2, content.nextId)
    ensures var w := WithOption(t, slideX, groupId, correct, k, labelSize, st, content);
      st.elements <= w.elements && SlideBody(groupId, correct, count, w.elements, from, lo, w.nextId)
  {
    var pair := OptionPair(t, slideX, st.y, groupId, correct, k, labelSize, st.nextId, content.height);
    PairBody(t, slideX, st.y, groupId, correct, count, k, labelSize, st.nextId, content.height);
    BodyAppend(groupId, correct, count, st.elements, from, lo, st.nextId, pair, st.nextId + 2);
    BodyAppend(groupId, correct, count, st.elements + pair, from, lo, st.nextId + 2, content.elements, content.nextId);
  }

  /** One option extends the slide part. */
  lemma OptionBody(qc: ContentFn, host: Host, t: QuizTemplateStyles, slideX: real, groupId: string,
                   correct: Option<real>, count: nat, k: nat, raw: string, st: SlideState, from: nat, lo: nat)
    requires ContentWellFormed(qc) && k < count && lo <= st.nextId
    requires SlideBody(groupId, correct, count, st.elements, from, lo, st.nextId)
    ensures var b := OptionStep(qc, host, t, slideX, groupId, correct, k, raw, st);
      b.Building? ==>
        && st.nextId + 2 <= b.st.nextId && st.files.Keys <= b.st.files.Keys && st.elements <= b.st.elements
        && SlideBody(groupId, correct, count, b.st.elements, from, lo, b.st.nextId)
  {
    var b := OptionStep(qc, host, t, slideX, groupId, correct, k, raw, st);
    if b.Building? {
      var text := LabelText(t.labelFormat, k);
      var labelSize := host.measure(text, OptionFontSize);
      var meta := OptionMeta(k, IdName(st.nextId), correct, None);
      var p := OptionParams(slideX, st.y, labelSize.0, groupId, meta);
      var c := qc(p, raw, st.nextId + 2, st.files);
      ContentBody(qc, p, raw, st.nextId + 2, st.files, correct, count);
      WithOptionBody(t, slideX, groupId, correct, count, k, labelSize, st, c, from, lo);
    }
  }

  /** The options from `from` on extend the slide part. */
  lemma {:induction false} OptionsBody(qc: ContentFn, host: Host, t: QuizTemplateStyles, slideX: real, groupId: string,
                                       correct: Option<real>, options: seq<string>, from: nat, st: SlideState,
                                       base: nat, lo: nat)
    requires ContentWellFormed(qc) && lo <= st.nextId
    requires SlideBody(groupId, correct, |options|, st.elements, base, lo, st.nextId)
    ensures var b := Options(qc, host, t, slideX, groupId, correct, options, from, st);
      b.Building? ==>
        && st.nextId <= b.st.nextId && st.files.Keys <= b.st.files.Keys && st.elements <= b.st.elements
        && SlideBody(groupId, correct, |options|, b.st.elements, base, lo, b.st.nextId)
    decreases |options| - from
  {
    if from < |options| {
      var step := OptionStep(qc, host, t, slideX, groupId, correct, from, options[from], st);
      OptionBody(qc, host, t, slideX, groupId, correct, |options|, from, options[from], st, base, lo);
      if step.Building? {
        OptionsBody(qc, host, t, slideX, groupId, correct, options, from + 1, step.st, base, lo);
      }
    }
  }

  /** The background holds every element of the slide with the template's
      padding to spare. */
  lemma BackgroundEncloses(id: string, es: seq<Element>, t: QuizTemplateStyles, groupId: string)
    requires es != []
    ensures var bg := SlideBackground(id, es, t, groupId);
      var pad := t.slidePadding;
      && bg.id == id && bg.kind == Rectangle && bg.customData.quizSlideBackground && bg.groupIds == [groupId]
      && forall i :: 0 <= i < |es| ==>
           && bg.x + pad <= es[i].x && es[i].x + es[i].width <= bg.x + bg.width - pad
           && bg.y + pad <= es[i].y && es[i].y + es[i].height <= bg.y + bg.height - pad
  {
  }

  /** A box that holds the common bounds of `es` is the common bounds of
      itself and `es`. */
  lemma BoundsWithOuter(e: Element, es: seq<Element>)
    requires es != []
    requires var b := CommonBounds(es); e.x <= b.minX && e.y <= b.minY && b.maxX <= e.x + e.width && b.maxY <= e.y + e.height
    ensures CommonBounds([e] + es) == BoxOf(e)
  {
    assert ([e] + es)[1..] == es;
  }

  /** With a padding that is not negative, the anchor is the centre of the
      slide's content. */
  lemma AnchorIsContentCentre(id: string, t: QuizTemplateStyles, groupId: string, st: SlideState)
    requires st.elements != [] && t.slidePadding >= 0.0
    ensures var r := WithBackground(id, t, groupId, st);
      r.elements == [SlideBackground(id, st.elements, t, groupId)] + st.elements
      && r.anchor == Some(Center(CommonBounds(st.elements)))
  {
    var bg := SlideBackground(id, st.elements, t, groupId);
    BoundsWithOuter(bg, st.elements);
  }

  /** Every template pads its slides. */
  lemma TemplatePaddingPositive(template: QuizTemplate)
    ensures Styles(template).slidePadding > 0.0
  {
  }

  /** The background, with the next id, in front of a slide part. */
  lemma PrependFresh(bg: Element, groupId: string, correct: Option<real>, count: nat, es: seq<Element>, lo: nat, n: nat)
    requires lo <= n && bg.id == IdName(n) && bg.groupIds == [groupId]
    requires SlideBody(groupId, correct, count, es, 0, lo, n)
    ensures FreshIds([bg] + es, 0, lo, n + 1) && InGroup(groupId, [bg] + es, 0) && Tagged(correct, count, [bg] + es, 1)
  {
    var all := [bg] + es;
    NotInRange(lo, n, n);
    RangeWithin(lo, n, lo, n + 1);
    forall i | 1 <= i < |all|
      ensures all[i] == es[i - 1]
    {
    }
    assert IdName(n) in IdRange(lo, n + 1);
  }

  /** A finished slide: the background comes first and only there; the
      elements after it are in the slide's group with fresh, distinct ids
      and consistent option tags; the anchor is present exactly when the
      slide has elements. */
  lemma FinishBody(t: QuizTemplateStyles, groupId: string, correct: Option<real>, count: nat, st: SlideState, lo: nat)
    requires lo <= st.nextId && SlideBody(groupId, correct, count, st.elements, 0, lo, st.nextId)
    ensures var r := FinishSlide(t, groupId, st);
      && r.SlideDone? && st.nextId <= r.nextId && r.files == st.files
      && (r.anchor.Some? <==> r.elements != [])
      && (r.elements != [] ==> r.elements[0].customData.quizSlideBackground && r.elements[0].groupIds == [groupId])
      && FreshIds(r.elements, 0, lo, r.nextId) && InGroup(groupId, r.elements, 0) && Tagged(correct, count, r.elements, 1)
  {
    if st.elements != [] {
      PrependFresh(SlideBackground(IdName(st.nextId), st.elements, t, groupId), groupId, correct, count, st.elements,
                   lo, st.nextId);
    }
  }

  /** The question opens a slide part. */
  lemma QuestionBody(qc: ContentFn, slideX: real, groupId: string, raw: string, next: nat, files: map<string, string>,
                     correct: Option<real>, count: nat)
    requires ContentWellFormed(qc)
    ensures var b := QuestionStep(qc, slideX, groupId, raw, next, files);
      b.Building? ==> next <= b.st.nextId && files.Keys <= b.st.files.Keys
                      && SlideBody(groupId, correct, count, b.st.elements, 0, next, b.st.nextId)
  {
    ContentBody(qc, QuestionParams(slideX, groupId), raw, next, files, correct, count);
  }

  /** The explanation card extends the slide part. */
  lemma CardBody(host: ImportHost, t: QuizTemplateStyles, slideX: real, groupId: string, text: string, st: SlideState,
                 correct: Option<real>, count: nat, lo: nat)
    requires lo <= st.nextId && SlideBody(groupId, correct, count, st.elements, 0, lo, st.nextId)
    ensures var r := ExplanationStep(host, t, slideX, groupId, text, st);
      && st.nextId <= r.nextId && r.files == st.files
      && SlideBody(groupId, correct, count, r.elements, 0, lo, r.nextId)
  {
    if text != "" {
      var r := ExplanationStep(host, t, slideX, groupId, text, st);
      var card := [r.elements[|st.elements|]];
      assert r.elements == st.elements + card;
      ConsecutiveBody(groupId, correct, count, card, st.nextId);
      BodyAppend(groupId, correct, count, st.elements, 0, lo, st.nextId, card, st.nextId + 1);
    }
  }

  /** A finished slide: its elements are in the slide's group, their ids
      are fresh, distinct and differ from the group id, the background comes
      first, every later element's option tag agrees with the resolved
      correct index, and the anchor is present exactly when the slide has
      elements. */
  ghost predicate SlideOk(item: ExamQuestion, next: nat, files: map<string, string>, r: SlideOutcome) {
    r.SlideDone? ==>
      && next < r.nextId && files.Keys <= r.files.Keys
      && FreshIds(r.elements, 0, next + 1, r.nextId)
      && InGroup(IdName(next), r.elements, 0)
      && (forall j :: 0 <= j < |r.elements| ==> r.elements[j].id != IdName(next))
      && (r.elements != [] ==> r.elements[0].customData.quizSlideBackground)
      && Tagged(ResolveCorrectIndex(item, OptionsOf(item)), |OptionsOf(item)|, r.elements, 1)
      && (r.anchor.Some? <==> r.elements != [])
  }

  lemma SlideWellFormed(qc: ContentFn, host: ImportHost, t: QuizTemplateStyles, i: nat, item: ExamQuestion, next: nat,
                        files: map<string, string>)
    requires ContentWellFormed(qc)
    ensures SlideOk(item, next, files, Slide(qc, host, t, i, item, next, files))
  {
    var r := Slide(qc, host, t, i, item, next, files);
    var groupId := IdName(next);
    var slideX := SlideX(i);
    var question := if item.question.Some? then item.question.value else "";
    var options := OptionsOf(item);
    var correct := ResolveCorrectIndex(item, options);
    var asked := QuestionStep(qc, slideX, groupId, question, next + 1, files);
    QuestionBody(qc, slideX, groupId, question, next + 1, files, correct, |options|);
    if asked.Building? {
      var st := asked.st;
      var stacked := Options(qc, host.flow, t, slideX, groupId, correct, options, 0, st);
      OptionsBody(qc, host.flow, t, slideX, groupId, correct, options, 0, st, 0, next + 1);
      if stacked.Building? {
        var explained := ExplanationStep(host, t, slideX, groupId, ResolveExplanationText(item), stacked.st);
        CardBody(host, t, slideX, groupId, ResolveExplanationText(item), stacked.st, correct, |options|, next + 1);
        FinishBody(t, groupId, correct, |options|, explained, next + 1);
        NotInRange(next + 1, r.nextId, next);
      }
    }
  }

  /** Only the resolved index is marked correct: every element marked
      correct carries that option index. */
  lemma OnlyResolvedIsCorrect(qc: ContentFn, host: ImportHost, t: QuizTemplateStyles, i: nat, item: ExamQuestion,
                              next: nat, files: map<string, string>)
    requires ContentWellFormed(qc)
    ensures var r := Slide(qc, host, t, i, item, next, files);
      r.SlideDone? ==> forall j :: 0 <= j < |r.elements| && r.elements[j].customData.quizOption.Some?
                                   && r.elements[j].customData.quizOption.value.isCorrect ==>
        && r.elements[j].customData.quizOption.value.optionIndex.Some?
        && ResolveCorrectIndex(item, OptionsOf(item)) == Some(r.elements[j].customData.quizOption.value.optionIndex.value as real)
  {
    SlideWellFormed(qc, host, t, i, item, next, files);
  }

  /** When the answer resolves to no option in range, no element is
      marked correct. */
  lemma UnresolvedMarksNone(qc: ContentFn, host: ImportHost, t: QuizTemplateStyles, i: nat, item: ExamQuestion,
                            next: nat, files: map<string, string>)
    requires ContentWellFormed(qc)
    requires var c := ResolveCorrectIndex(item, OptionsOf(item)); c.None? || c.value >= |OptionsOf(item)| as real
    ensures var r := Slide(qc, host, t, i, item, next, files);
      r.SlideDone? ==> forall j :: 0 <= j < |r.elements| && r.elements[j].customData.quizOption.Some? ==>
        !r.elements[j].customData.quizOption.value.isCorrect
  {
    SlideWellFormed(qc, host, t, i, item, next, files);
  }

  /** A slide maker: slide `i` for a question, from a counter and files. */
  type SlideFn = (nat, ExamQuestion, nat, map<string, string>) -> SlideOutcome

  /** `sf` makes the slides of this content factory, host and template.
      The trigger keeps the definition of `Slide` out of every proof that
      does not already mention it. */
  ghost predicate IsSlideOf(sf: SlideFn, qc: ContentFn, host: ImportHost, t: QuizTemplateStyles) {
    forall i, item, next, files {:trigger Slide(qc, host, t, i, item, next, files)} ::
      sf(i, item, next, files) == Slide(qc, host, t, i, item, next, files)
  }

  /** The slide maker of a content factory, a host and a template. */
  function SlideFnOf(qc: ContentFn, host: ImportHost, t: QuizTemplateStyles): (sf: SlideFn)
    ensures IsSlideOf(sf, qc, host, t)
  {
    (i: nat, item: ExamQuestion, next: nat, files: map<string, string>) => Slide(qc, host, t, i, item, next, files)
  }

  /** Every slide `sf` makes is well formed. */
  ghost predicate SlidesOk(sf: SlideFn) {
    forall i, item, next, files :: SlideOk(item, next, files, sf(i, item, next, files))
  }

  /** The slides of a well-formed content factory are well formed. */
  lemma SlideFnOk(sf: SlideFn, qc: ContentFn, host: ImportHost, t: QuizTemplateStyles)
    requires IsSlideOf(sf, qc, host, t) && ContentWellFormed(qc)
    ensures SlidesOk(sf)
  {
    forall i, item, next, files
      ensures SlideOk(item, next, files, sf(i, item, next, files))
    {
      SlideWellFormed(qc, host, t, i, item, next, files);
    }
  }

  // ---------------------------------------------------------------------
  // All slides

  /** What the questions loop has built so far: the created elements, the
      files, the counter and one anchor per finished slide. */
  datatype Imported = Imported(created: seq<Element>, files: map<string, string>, nextId: nat,
                               anchors: seq<Option<Anchor>>)

  /** The loop's end: everything built, or a failure, which keeps the
      anchors of the slides finished before it. */
  datatype ImportRun = Ran(acc: Imported) | RunFailed(anchors: seq<Option<Anchor>>)

  /** Slides `from` on, each appended after the ones before it. */
  function Slides(sf: SlideFn, questions: seq<ExamQuestion>, from: nat, acc: Imported): ImportRun
    decreases |questions| - from
  {
    if from >= |questions| then Ran(acc)
    else match sf(from, questions[from], acc.nextId, acc.files)
      case SlideFailed => RunFailed(acc.anchors)
      case SlideDone(es, files, next, anchor) =>
        Slides(sf, questions, from + 1, Imported(acc.created + es, files, next, acc.anchors + [anchor]))
  }

  /** The response of the exam API: its `data`, a status that is not ok,
      or an exception with its message. */
  datatype Fetched = FetchOk(data: Option<seq<ExamQuestion>>) | FetchNotOk | FetchThrew(message: string)

  /** What the action returns: `false`, an error message for the app
      state, or the scene with the slides appended and the files. */
  datatype ActionResult = NotHandled | ShowError(message: string) | Update(elements: seq<Element>, files: map<string, string>)

  const FetchFailedMessage := "Failed to fetch exam questions."
  const UnknownFailureMessage := "Unable to load exam questions."

  /** The action's result together with the anchors it leaves behind. */
  datatype ImportEffect = ImportEffect(result: ActionResult, anchors: seq<Option<Anchor>>)

  /** The message an exception shows: its own, or a fixed one when empty. */
  function ErrorText(message: string): string {
    if message == "" then UnknownFailureMessage else message
  }

  /** The trimmed exam id, empty when absent. */
  function ExamIdOf(examId: Option<string>): string {
    if examId.Some? then Trim(examId.value) else ""
  }

  /** `actionImportExamQuestions.perform` on the current elements and
      files, the counter, the anchors before the call, the value's exam id
      and the API's response. */
  function ImportExam(sf: SlideFn, elements: seq<Element>,
                      files: map<string, string>, next: nat, anchors: seq<Option<Anchor>>,
                      examId: Option<string>, fetched: Fetched): ImportEffect
  {
    if ExamIdOf(examId) == "" then ImportEffect(NotHandled, anchors)
    else match fetched
      case FetchNotOk => ImportEffect(ShowError(FetchFailedMessage), anchors)
      case FetchThrew(message) => ImportEffect(ShowError(ErrorText(message)), anchors)
      case FetchOk(data) =>
        var questions := if data.Some? then data.value else [];
        if questions == [] then ImportEffect(ShowError(NoQuestionsMessage), anchors)
        else match Slides(sf, questions, 0, Imported([], files, next, []))
          case RunFailed(partial) => ImportEffect(ShowError(RenderFailedMessage), partial)
          case Ran(acc) => ImportEffect(Update(elements + acc.created, acc.files), acc.anchors)
  }

  /** Fresh ids stay fresh in a wider range. */
  lemma FreshWiden(es: seq<Element>, from: nat, lo: nat, hi: nat, lo': nat, hi': nat)
    requires FreshIds(es, from, lo, hi) && lo' <= lo && hi <= hi'
    ensures FreshIds(es, from, lo', hi')
  {
    RangeWithin(lo, hi, lo', hi');
  }

  /** The questions loop from `from` on, when it succeeds: one anchor per
      remaining question, the created elements and the anchors only grow,
      and every id created is fresh and distinct. */
  lemma {:induction false} SlidesWellFormed(sf: SlideFn, questions: seq<ExamQuestion>, from: nat, acc: Imported,
                                            base: nat, lo: nat)
    requires SlidesOk(sf) && from <= |questions|
    requires lo <= acc.nextId && FreshIds(acc.created, base, lo, acc.nextId)
    ensures var r := Slides(sf, questions, from, acc);
      r.Ran? ==>
        && |r.acc.anchors| == |acc.anchors| + (|questions| - from) && acc.anchors <= r.acc.anchors
        && acc.created <= r.acc.created && acc.nextId <= r.acc.nextId && acc.files.Keys <= r.acc.files.Keys
        && FreshIds(r.acc.created, base, lo, r.acc.nextId)
    decreases |questions| - from
  {
    if from < |questions| {
      var slide := sf(from, questions[from], acc.nextId, acc.files);
      SlideExtends(sf, from, questions[from], acc, base, lo);
      if slide.SlideDone? {
        var acc' := Imported(acc.created + slide.elements, slide.files, slide.nextId, acc.anchors + [slide.anchor]);
        assert acc.anchors <= acc'.anchors && acc.created <= acc'.created;
        SlidesWellFormed(sf, questions, from + 1, acc', base, lo);
      }
    }
  }

  /** When the loop stops at a failed slide it keeps the anchors of the
      slides finished before, fewer than one per question. */
  lemma {:induction false} SlidesFailed(sf: SlideFn, questions: seq<ExamQuestion>, from: nat, acc: Imported)
    requires from <= |questions|
    ensures var r := Slides(sf, questions, from, acc);
      r.RunFailed? ==> acc.anchors <= r.anchors && |r.anchors| < |acc.anchors| + (|questions| - from)
    decreases |questions| - from
  {
    if from < |questions| {
      var slide := sf(from, questions[from], acc.nextId, acc.files);
      if slide.SlideDone? {
        var acc' := Imported(acc.created + slide.elements, slide.files, slide.nextId, acc.anchors + [slide.anchor]);
        SlidesFailed(sf, questions, from + 1, acc');
      }
    }
  }

  /** One finished slide adds fresh ids to what was created before. */
  lemma SlideExtends(sf: SlideFn, i: nat, item: ExamQuestion, acc: Imported, base: nat, lo: nat)
    requires SlidesOk(sf)
    requires lo <= acc.nextId && FreshIds(acc.created, base, lo, acc.nextId)
    ensures var slide := sf(i, item, acc.nextId, acc.files);
      slide.SlideDone? ==>
        && acc.nextId < slide.nextId && acc.files.Keys <= slide.files.Keys
        && FreshIds(acc.created + slide.elements, base, lo, slide.nextId)
  {
    var slide := sf(i, item, acc.nextId, acc.files);
    assert SlideOk(item, acc.nextId, acc.files, slide);
    if slide.SlideDone? {
      FreshWiden(slide.elements, 0, acc.nextId + 1, slide.nextId, acc.nextId, slide.nextId);
      FreshAppend(acc.created, base, lo, acc.nextId, slide.elements, slide.nextId);
    }
  }


  /** The elements from `from` on have distinct ids, none of them handed
      out before step `lo`. */
  ghost predicate NewIds(es: seq<Element>, from: nat, lo: nat) {
    && from <= |es|
    && (forall i :: from <= i < |es| ==> es[i].id !in IdRange(0, lo))
    && (forall i, j :: from <= i < j < |es| ==> es[i].id != es[j].id)
  }

  /** The outcomes of the import: a blank exam id is not handled and a
      failed fetch or an empty list changes no anchor; a successful import
      keeps the scene in front of the new elements, which have new,
      distinct ids, and leaves one anchor per question; a failed render
      leaves fewer. */
  lemma ImportOutcomes(sf: SlideFn, elements: seq<Element>,
                       files: map<string, string>, next: nat, anchors: seq<Option<Anchor>>,
                       examId: Option<string>, fetched: Fetched)
    requires SlidesOk(sf)
    ensures var e := ImportExam(sf, elements, files, next, anchors, examId, fetched);
      && (ExamIdOf(examId) == "" ==> e == ImportEffect(NotHandled, anchors))
      && (e.result.NotHandled? ==> ExamIdOf(examId) == "")
      && (!fetched.FetchOk? && e.result.ShowError? ==> e.anchors == anchors)
      && (fetched.FetchOk? ==>
            var questions := if fetched.data.Some? then fetched.data.value else [];
            && (questions == [] && ExamIdOf(examId) != "" ==> e == ImportEffect(ShowError(NoQuestionsMessage), anchors))
            && (e.result.Update? ==>
                  && |e.anchors| == |questions| && elements <= e.result.elements
                  && files.Keys <= e.result.files.Keys
                  && NewIds(e.result.elements, |elements|, next))
            && (e.result.ShowError? && questions != [] ==>
                  e.result.message == RenderFailedMessage && |e.anchors| < |questions|))
  {
    var e := ImportExam(sf, elements, files, next, anchors, examId, fetched);
    if ExamIdOf(examId) != "" && fetched.FetchOk? {
      var questions := if fetched.data.Some? then fetched.data.value else [];
      if questions != [] {
        var start := Imported([], files, next, []);
        SlidesWellFormed(sf, questions, 0, start, 0, next);
        SlidesFailed(sf, questions, 0, start);
        match Slides(sf, questions, 0, start)
        case RunFailed(partial) =>
        case Ran(last) =>
          var all := elements + last.created;
          RangesDisjoint(0, next, last.nextId);
          forall i | |elements| <= i < |all|
            ensures all[i] == last.created[i - |elements|]
          {
          }
      }
    }
  }

  /** The slides the app makes, from `createQuizContentElement` with the
      renderer's MathJax, are well formed. */
  lemma AppSlidesOk(host: ImportHost, env: LR.MathJax, t: QuizTemplateStyles)
    ensures SlidesOk(SlideFnOf(QuizContentFn(host.flow, env), host, t))
  {
    var qc := QuizContentFn(host.flow, env);
    QuizContentWellFormed(qc, host.flow, env);
    SlideFnOk(SlideFnOf(qc, host, t), qc, host, t);
  }

  /** The module variable `quizSlideAnchors`, which the import refills and
      the slide navigation reads. */
  class ExamImporter {
    var quizSlideAnchors: seq<Option<Anchor>>

    constructor ()
      ensures quizSlideAnchors == []
    {
      quizSlideAnchors := [];
    }

    /** `actionImportExamQuestions.perform`: the template is the store's
        current one, read once before the loop. */
    method ImportExamQuestions(renderer: LR.LatexRenderer, ids: IdSource, store: QuizTemplateStore, host: ImportHost,
                               ghost qc: ContentFn, ghost sf: SlideFn, elements: seq<Element>,
                               files: map<string, string>, examId: Option<string>, fetched: Fetched)
      returns (r: ActionResult)
      requires renderer.Valid() && IsQuizContent(qc, host.flow, renderer.env)
      requires IsSlideOf(sf, qc, host, Styles(store.current))
      modifies this, renderer, ids
      ensures renderer.Valid()
      ensures ImportExam(sf, elements, files, old(ids.next), old(quizSlideAnchors), examId, fetched)
           == ImportEffect(r, quizSlideAnchors)
    {
      var id := ExamIdOf(examId);
      if id == "" {
        return NotHandled;
      }
      match fetched
      case FetchNotOk =>
        return ShowError(FetchFailedMessage);
      case FetchThrew(message) =>
        return ShowError(ErrorText(message));
      case FetchOk(data) =>
        var questions := if data.Some? then data.value else [];
        if questions == [] {
          return ShowError(NoQuestionsMessage);
        }
        var current := store.GetCurrentQuizTemplate();
        var run := BuildSlides(renderer, ids, host, qc, sf, Styles(current), questions, files);
        if run.RunFailed? {
          return ShowError(RenderFailedMessage);
        }
        return Update(elements + run.acc.created, run.acc.files);
    }

    /** The questions loop: the anchors start empty and get one entry per
        finished slide. */
    method BuildSlides(renderer: LR.LatexRenderer, ids: IdSource, host: ImportHost, ghost qc: ContentFn,
                       ghost sf: SlideFn, t: QuizTemplateStyles, questions: seq<ExamQuestion>, files: map<string, string>)
      returns (run: ImportRun)
      requires renderer.Valid() && IsQuizContent(qc, host.flow, renderer.env) && IsSlideOf(sf, qc, host, t)
      modifies this, renderer, ids
      ensures renderer.Valid()
      ensures run == Slides(sf, questions, 0, Imported([], files, old(ids.next), []))
      ensures quizSlideAnchors == (if run.Ran? then run.acc.anchors else run.anchors)
    {
      var acc := Imported([], files, ids.next, []);
      ghost var start := acc;
      quizSlideAnchors := [];
      var i := 0;
      while i < |questions|
        invariant i <= |questions|
        invariant renderer.Valid() && acc.nextId == ids.next && quizSlideAnchors == acc.anchors
        invariant Slides(sf, questions, 0, start) == Slides(sf, questions, i, acc)
      {
        var slide := BuildSlide(renderer, ids, host, qc, t, i, questions[i], acc.files);
        if slide.SlideFailed? {
          return RunFailed(acc.anchors);
        }
        quizSlideAnchors := quizSlideAnchors + [slide.anchor];
        acc := Imported(acc.created + slide.elements, slide.files, slide.nextId, acc.anchors + [slide.anchor]);
        i := i + 1;
      }
      return Ran(acc);
    }
  }

  // ---------------------------------------------------------------------
  // actionSetQuizTemplate

  /** What the action returns: `false`, or the restyled scene and a toast. */
  datatype TemplateResult = TemplateNotHandled | Restyle(elements: seq<Element>, toast: string)

  /** `actionSetQuizTemplate.perform`, with the guard on own keys only. */
  method ActionSetQuizTemplate(store: QuizTemplateStore, elements: seq<Element>, value: Option<string>)
    returns (r: TemplateResult)
    modifies store
    ensures value.None? || TemplateOfName(value.value).None? ==>
      r == TemplateNotHandled && store.current == old(store.current) && store.stored == old(store.stored)
    ensures value.Some? && TemplateOfName(value.value).Some? ==>
      && store.current == TemplateOfName(value.value).value
      && store.stored == Some(value.value)
      && r == Restyle(Restyled(elements, Styles(store.current)), "Template: " + value.value)
  {
    if value.None? {
      return TemplateNotHandled;
    }
    var chosen := TemplateOfName(value.value);
    if chosen.None? {
      return TemplateNotHandled;
    }
    store.SetCurrentQuizTemplate(chosen.value);
    var current := store.GetCurrentQuizTemplate();
    var updated := ApplyQuizTemplate(elements, Styles(current));
    return Restyle(updated, "Template: " + value.value);
  }

  /** The guard as written: `QUIZ_TEMPLATES[name]` is truthy for the keys
      inherited from `Object.prototype` as well. */
  predicate SetTemplateGuardAsWritten(name: string) {
    name != "" && (TemplateOfName(name).Some? || PrototypeKey(name))
  }

  /** "constructor" passes the written guard although it names no template,
      so the template cell would be set to it. */
  lemma InheritedTemplateNamePassesGuard()
    ensures SetTemplateGuardAsWritten("constructor")
    ensures TemplateOfName("constructor") == None
  {
  }
}
