/** `createQuizContentElement` of actionImportExamQuestions.ts: a question
    or option text becomes one text element, one formula image, or a flow
    of text and image pieces laid out left to right with line wrapping. */
module QuizFlow {
  import opened Wrappers
  import opened Elements
  import QuizText
  import LatexUtils
  import LR = LatexRender

  const InlineSegmentGap: real := 8.0
  const InlineLineGap: real := 6.0

  /** The host's text services: `newTextElement`'s measurement of a text at
      a font size (width, height), and `wrapText` to a maximum width. */
  datatype Host = Host(measure: (string, real) -> (real, real), wrap: (string, real, real) -> string)

  /** The call's parameters; `customData` is `NoCustomData` when absent. */
  datatype FlowParams = FlowParams(x: real, y: real, maxWidth: real, fontSize: real, groupId: string, customData: CustomData)

  function Max(a: real, b: real): (m: real)
    ensures m >= a && m >= b && (m == a || m == b)
  {
    if a >= b then a else b
  }

  // ---------------------------------------------------------------------
  // Element factories (the style fields are the host's defaults)

  /** `newTextElement` at a position, with its measured size. */
  function TextElement(id: string, x: real, y: real, text: string, size: (real, real), p: FlowParams): Element {
    Element(id, Text, x, y, size.0, size.1, "transparent", "#1e1e1e", 2.0, 1.0, None, "solid", 100.0,
            text, None, [p.groupId], p.customData)
  }

  /** `newImageElement` for a saved file. */
  function ImageElement(id: string, x: real, y: real, w: real, h: real, fileId: string, p: FlowParams): Element {
    Element(id, Image, x, y, w, h, "transparent", "#1e1e1e", 2.0, 1.0, None, "solid", 100.0,
            "", Some(fileId), [p.groupId], p.customData)
  }

  /** An image's size after scaling down to `maxWidth`, at least 1×1. */
  function ScaledSize(img: LR.SvgImage, maxWidth: real): (real, real)
    requires img.width > 0.0
  {
    var scale := if img.width > maxWidth then maxWidth / img.width else 1.0;
    (Max(1.0, img.width * scale), Max(1.0, img.height * scale))
  }

  /** Images are only ever scaled down, never below 1, and never wider than
      `maxWidth` unless `maxWidth` is below 1. */
  lemma ScaledSizeBounds(img: LR.SvgImage, maxWidth: real)
    requires img.width > 0.0 && img.height > 0.0
    ensures var (w, h) := ScaledSize(img, maxWidth);
      && 1.0 <= w <= Max(1.0, img.width) && 1.0 <= h <= Max(1.0, img.height)
      && w <= Max(1.0, maxWidth)
  {
    if img.width > maxWidth {
      ScaledDown(img.width, img.height, maxWidth);
    }
  }

  /** Scaling by `maxWidth / width` below 1 gives exactly `maxWidth` across
      and never more height. */
  lemma ScaledDown(width: real, height: real, maxWidth: real)
    requires width > maxWidth && width > 0.0 && height > 0.0
    ensures width * (maxWidth / width) == maxWidth
    ensures Max(1.0, height * (maxWidth / width)) <= Max(1.0, height)
  {
    var scale := maxWidth / width;
    if scale > 0.0 {
      assert width * (1.0 - scale) == width - maxWidth;
      var y := height * scale;
      assert height - y == height * (1.0 - scale);
      assert y < height;
    } else {
      assert -(height * scale) == height * (-scale);
    }
  }

  // ---------------------------------------------------------------------
  // The flow cursor

  datatype Cursor = Cursor(x: real, y: real, lineHeight: real)

  /** A piece of width `w` goes to the next line: the cursor is past the
      anchor and the piece would overflow the right edge. */
  predicate Breaks(c: Cursor, p: FlowParams, w: real) {
    c.x > p.x && c.x + w > p.x + p.maxWidth
  }

  /** The start of the next line. */
  function NewLine(c: Cursor, p: FlowParams): Cursor {
    Cursor(p.x, c.y + c.lineHeight + InlineLineGap, 0.0)
  }

  /** The cursor after a piece of size w×h placed at the cursor. */
  function Advance(c: Cursor, w: real, h: real): Cursor {
    Cursor(c.x + w + InlineSegmentGap, c.y, Max(c.lineHeight, h))
  }

  /** What one segment contributes, once sanitised or rendered. */
  datatype FlowPiece = Skip | TextPiece(text: string) | ImagePiece(image: LR.SvgImage) | Abort

  /** A text segment's piece: the sanitised text, skipped when empty. */
  function TextPieceOf(value: string): (r: FlowPiece)
    ensures r.Skip? || r.TextPiece?
  {
    var t := QuizText.SanitizeQuizText(Some(value));
    if t == "" then Skip else TextPiece(t)
  }

  /** A formula segment's piece from its render: a `null` render is skipped
      and a rejected one aborts the flow. */
  function LatexPiece(rendered: LR.ImageOutcome): (r: FlowPiece)
    requires rendered.Image? ==> rendered.image.width > 0.0 && rendered.image.height > 0.0
    ensures PieceOk(r) && !r.TextPiece?
  {
    match rendered
    case Null => Skip
    case Rejected => Abort
    case Image(img) => ImagePiece(img)
  }

  /** A segment's piece, once sanitised or rendered. */
  function PieceOf(env: LR.MathJax, seg: LatexUtils.Segment): (r: FlowPiece)
    ensures PieceOk(r)
  {
    if seg.kind == LatexUtils.Text then TextPieceOf(seg.value)
    else LatexPiece(LR.UncachedImage(env, seg.value))
  }

  datatype FlowState = FlowState(cursor: Cursor, nextId: nat, elements: seq<Element>, files: map<string, string>)

  /** `Aborted` is the promise rejected by a render whose decode failed. */
  datatype Flowed = Flowing(state: FlowState) | Aborted

  /** One text piece: measured as it is; on a line break it is wrapped,
      measured again and placed at the start of the new line. */
  function TextStep(host: Host, p: FlowParams, st: FlowState, text: string): FlowState {
    var id := IdName(st.nextId);
    var size := host.measure(text, p.fontSize);
    if Breaks(st.cursor, p, size.0) then
      var line := NewLine(st.cursor, p);
      var wrapped := host.wrap(text, p.fontSize, p.maxWidth);
      var wsize := host.measure(wrapped, p.fontSize);
      var e := TextElement(IdName(st.nextId + 1), line.x, line.y, wrapped, wsize, p);
      FlowState(Advance(line, wsize.0, wsize.1), st.nextId + 2, st.elements + [e], st.files)
    else
      var e := TextElement(id, st.cursor.x, st.cursor.y, text, size, p);
      FlowState(Advance(st.cursor, size.0, size.1), st.nextId + 1, st.elements + [e], st.files)
  }

  /** One image piece: a file entry under a fresh id, the scaled size, a
      line break if it overflows, then the image element. */
  function ImageStep(p: FlowParams, st: FlowState, img: LR.SvgImage): FlowState
    requires img.width > 0.0
  {
    var fileId := IdName(st.nextId);
    var (w, h) := ScaledSize(img, p.maxWidth);
    var at := if Breaks(st.cursor, p, w) then NewLine(st.cursor, p) else st.cursor;
    var e := ImageElement(IdName(st.nextId + 1), at.x, at.y, w, h, fileId, p);
    FlowState(Advance(at, w, h), st.nextId + 2, st.elements + [e], st.files[fileId := img.dataUrl])
  }

  /** A rendered image always has a positive size. */
  predicate PieceOk(pc: FlowPiece) {
    pc.ImagePiece? ==> pc.image.width > 0.0 && pc.image.height > 0.0
  }

  function Step(host: Host, p: FlowParams, st: FlowState, pc: FlowPiece): Flowed
    requires PieceOk(pc)
  {
    match pc
    case Skip => Flowing(st)
    case TextPiece(t) => Flowing(TextStep(host, p, st, t))
    case ImagePiece(img) => Flowing(ImageStep(p, st, img))
    case Abort => Aborted
  }

  /** The pieces laid out in order from a state. */
  function Layout(host: Host, p: FlowParams, fl: Flowed, pcs: seq<FlowPiece>): Flowed
    requires forall k :: 0 <= k < |pcs| ==> PieceOk(pcs[k])
    decreases |pcs|
  {
    if pcs == [] || fl.Aborted? then fl
    else Layout(host, p, Step(host, p, fl.state, pcs[0]), pcs[1..])
  }

  /** Laying out from position `i` takes the step at `i`, then the rest. */
  lemma LayoutAt(host: Host, p: FlowParams, st: FlowState, pcs: seq<FlowPiece>, i: nat)
    requires forall k :: 0 <= k < |pcs| ==> PieceOk(pcs[k])
    requires i < |pcs|
    ensures Layout(host, p, Flowing(st), pcs[i..]) == Layout(host, p, Step(host, p, st, pcs[i]), pcs[i + 1..])
  {
    assert pcs[i..][0] == pcs[i] && pcs[i..][1..] == pcs[i + 1..];
  }

  /** Once aborted, the flow stays aborted. */
  lemma {:induction false} LayoutAborted(host: Host, p: FlowParams, pcs: seq<FlowPiece>)
    requires forall k :: 0 <= k < |pcs| ==> PieceOk(pcs[k])
    ensures Layout(host, p, Aborted, pcs) == Aborted
  {
  }

  /** The returned height of a flow: from the top to the bottom of the last
      line, at least one font size tall; `|| height` guards a zero total. */
  function FlowHeight(p: FlowParams, c: Cursor): (h: real)
    ensures CursorOk(p, c) ==> h >= Max(c.lineHeight, p.fontSize)
    ensures CursorOk(p, c) && c.y > p.y ==> h == c.y - p.y + Max(c.lineHeight, p.fontSize)
  {
    var height := Max(c.lineHeight, p.fontSize);
    var total := c.y + height - p.y;
    if total == 0.0 then height else total
  }

  // ---------------------------------------------------------------------
  // What every flow keeps

  /** The cursor is never above the anchor and its line height is never
      negative. */
  predicate CursorOk(p: FlowParams, c: Cursor) {
    c.y >= p.y && c.lineHeight >= 0.0
  }

  /** A flowed element: in the call's group with the call's custom data, not
      above the anchor, and, unless it starts a line, ending within the
      right edge. */
  predicate Placed(p: FlowParams, e: Element) {
    && e.groupIds == [p.groupId] && e.customData == p.customData && e.y >= p.y
    && (e.x > p.x ==> e.x + e.width <= p.x + p.maxWidth)
  }

  /** The elements after the first `from` were added by the flow: they are
      placed, carry ids handed out between steps `lo` and `hi`, and no two
      share an id. */
  ghost predicate AddedWell(p: FlowParams, es: seq<Element>, from: nat, lo: nat, hi: nat) {
    && from <= |es|
    && (forall i :: from <= i < |es| ==> Placed(p, es[i]))
    && (forall i :: from <= i < |es| ==> es[i].id in IdRange(lo, hi))
    && (forall i, j :: from <= i < j < |es| ==> es[i].id != es[j].id)
  }

  /** What a flow from `st0` guarantees of a state `st` it reaches: the old
      elements and files are kept, the counter only grows, and what was
      added is well placed with fresh, distinct ids. */
  ghost predicate Reached(p: FlowParams, st0: FlowState, st: FlowState) {
    && CursorOk(p, st.cursor)
    && st0.nextId <= st.nextId
    && st0.elements <= st.elements
    && st0.files.Keys <= st.files.Keys
    && AddedWell(p, st.elements, |st0.elements|, st0.nextId, st.nextId)
  }

  /** One element appended with an id of step `n` in `[lo, hi)` keeps the
      added part well formed. */
  lemma AppendOne(p: FlowParams, es: seq<Element>, from: nat, lo: nat, mid: nat, n: nat, hi: nat, e: Element)
    requires AddedWell(p, es, from, lo, mid)
    requires lo <= mid <= n < hi && e.id == IdName(n) && Placed(p, e)
    ensures AddedWell(p, es + [e], from, lo, hi)
  {
    var es' := es + [e];
    NotInRange(lo, mid, n);
    assert e.id in IdRange(lo, hi);
    forall i | from <= i < |es|
      ensures es'[i].id in IdRange(lo, hi) && es'[i].id != e.id
    {
      assert es'[i] == es[i];
    }
  }

  /** A text piece keeps the flow well formed. */
  lemma TextReached(host: Host, p: FlowParams, st: FlowState, t: string)
    requires CursorOk(p, st.cursor)
    ensures Reached(p, st, TextStep(host, p, st, t))
  {
    var n := st.nextId;
    assert AddedWell(p, st.elements, |st.elements|, n, n);
    var after := TextStep(host, p, st, t);
    var e := after.elements[|after.elements| - 1];
    assert after.elements == st.elements + [e];
    if Breaks(st.cursor, p, host.measure(t, p.fontSize).0) {
      AppendOne(p, st.elements, |st.elements|, n, n, n + 1, n + 2, e);
    } else {
      AppendOne(p, st.elements, |st.elements|, n, n, n, n + 2, e);
    }
  }

  /** An image piece keeps the flow well formed. */
  lemma ImageReached(p: FlowParams, st: FlowState, img: LR.SvgImage)
    requires CursorOk(p, st.cursor) && img.width > 0.0 && img.height > 0.0
    ensures Reached(p, st, ImageStep(p, st, img))
  {
    var n := st.nextId;
    assert AddedWell(p, st.elements, |st.elements|, n, n);
    var after := ImageStep(p, st, img);
    var e := after.elements[|after.elements| - 1];
    assert after.elements == st.elements + [e];
    AppendOne(p, st.elements, |st.elements|, n, n, n + 1, n + 2, e);
  }

  /** One step keeps the flow well formed. */
  lemma StepReached(host: Host, p: FlowParams, st: FlowState, pc: FlowPiece)
    requires CursorOk(p, st.cursor) && PieceOk(pc)
    ensures Step(host, p, st, pc).Flowing? ==> Reached(p, st, Step(host, p, st, pc).state)
  {
    match pc
    case Skip =>
      assert AddedWell(p, st.elements, |st.elements|, st.nextId, st.nextId);
    case Abort =>
    case TextPiece(t) => TextReached(host, p, st, t);
    case ImagePiece(img) => ImageReached(p, st, img);
  }

  /** Reaching is transitive. */
  lemma ReachedTrans(p: FlowParams, a: FlowState, b: FlowState, c: FlowState)
    requires Reached(p, a, b) && Reached(p, b, c)
    ensures Reached(p, a, c)
  {
    RangesDisjoint(a.nextId, b.nextId, c.nextId);
    var es := c.elements;
    assert forall i :: |a.elements| <= i < |b.elements| ==> es[i] == b.elements[i];
    assert IdRange(a.nextId, b.nextId) <= IdRange(a.nextId, c.nextId);
    assert IdRange(b.nextId, c.nextId) <= IdRange(a.nextId, c.nextId);
  }

  /** A whole flow keeps what every step keeps. */
  lemma {:induction false} LayoutReached(host: Host, p: FlowParams, st: FlowState, pcs: seq<FlowPiece>)
    requires CursorOk(p, st.cursor)
    requires forall k :: 0 <= k < |pcs| ==> PieceOk(pcs[k])
    ensures Layout(host, p, Flowing(st), pcs).Flowing? ==> Reached(p, st, Layout(host, p, Flowing(st), pcs).state)
    decreases |pcs|
  {
    if pcs == [] {
      assert AddedWell(p, st.elements, |st.elements|, st.nextId, st.nextId);
    } else {
      var next := Step(host, p, st, pcs[0]);
      StepReached(host, p, st, pcs[0]);
      if next.Aborted? {
        LayoutAborted(host, p, pcs[1..]);
      } else {
        LayoutReached(host, p, next.state, pcs[1..]);
        var last := Layout(host, p, next, pcs[1..]);
        if last.Flowing? {
          ReachedTrans(p, st, next.state, last.state);
        }
      }
    }
  }

  /** A rejected render anywhere aborts the whole flow. */
  lemma {:induction false} AbortAnywhere(host: Host, p: FlowParams, fl: Flowed, pcs: seq<FlowPiece>, k: nat)
    requires forall j :: 0 <= j < |pcs| ==> PieceOk(pcs[j])
    requires k < |pcs| && pcs[k] == Abort
    ensures Layout(host, p, fl, pcs) == Aborted
    decreases |pcs|
  {
    if fl.Aborted? {
      LayoutAborted(host, p, pcs);
    } else if k == 0 {
      LayoutAborted(host, p, pcs[1..]);
    } else {
      AbortAnywhere(host, p, Step(host, p, fl.state, pcs[0]), pcs[1..], k - 1);
    }
  }

  /** Skipped pieces are invisible: a flow of only skips changes nothing. */
  lemma {:induction false} SkipsChangeNothing(host: Host, p: FlowParams, st: FlowState, pcs: seq<FlowPiece>)
    requires forall j :: 0 <= j < |pcs| ==> pcs[j] == Skip
    ensures Layout(host, p, Flowing(st), pcs) == Flowing(st)
    decreases |pcs|
  {
    if pcs != [] {
      SkipsChangeNothing(host, p, st, pcs[1..]);
    }
  }

  /** A piece at the start of a line is never wrapped: it is placed at the
      cursor as measured, however wide. */
  lemma LineStartUnwrapped(host: Host, p: FlowParams, st: FlowState, t: string)
    requires st.cursor.x <= p.x
    ensures TextStep(host, p, st, t).elements
         == st.elements + [TextElement(IdName(st.nextId), st.cursor.x, st.cursor.y, t, host.measure(t, p.fontSize), p)]
  {
  }

  // ---------------------------------------------------------------------
  // The whole call

  datatype ContentOutcome = Content(elements: seq<Element>, height: real, files: map<string, string>, nextId: nat) | Failed

  function Pieces(env: LR.MathJax, segs: seq<LatexUtils.Segment>): (r: seq<FlowPiece>)
    ensures |r| == |segs| && forall k :: 0 <= k < |r| ==> PieceOk(r[k])
  {
    seq(|segs|, i requires 0 <= i < |segs| => PieceOf(env, segs[i]))
  }

  function StartState(p: FlowParams, next: nat, files: map<string, string>): FlowState {
    FlowState(Cursor(p.x, p.y, 0.0), next, [], files)
  }

  /** What `createQuizContentElement` returns: several segments flow; a
      single formula becomes one image at the anchor; anything else is one
      wrapped text element. */
  function QuizContent(host: Host, env: LR.MathJax, p: FlowParams, raw: string, next: nat, files: map<string, string>): ContentOutcome {
    var segs := LatexUtils.LatexSegments(raw);
    if |segs| > 1 then FlowContent(host, p, Pieces(env, segs), next, files)
    else SingleContent(host, p, raw, if LatexUtils.ContainsLatex(raw) then LR.UncachedImage(env, raw) else LR.Null, next, files)
  }

  /** Several segments: the flow's elements, files and counter, and its
      height; `Failed` when a render rejects. */
  function FlowContent(host: Host, p: FlowParams, pcs: seq<FlowPiece>, next: nat, files: map<string, string>): ContentOutcome
    requires forall k :: 0 <= k < |pcs| ==> PieceOk(pcs[k])
  {
    match Layout(host, p, Flowing(StartState(p, next, files)), pcs)
    case Aborted => Failed
    case Flowing(st) => Content(st.elements, FlowHeight(p, st.cursor), st.files, st.nextId)
  }

  /** One segment: its render if it holds a formula, else `Null`, decides
      between an image and a text element. */
  function SingleContent(host: Host, p: FlowParams, raw: string, single: LR.ImageOutcome, next: nat, files: map<string, string>): ContentOutcome
    requires single.Image? ==> single.image.width > 0.0
  {
    match single
    case Rejected => Failed
    case Image(img) => FormulaContent(p, img, next, files)
    case Null => TextContent(host, p, raw, next, files)
  }

  /** A lone formula: one scaled image at the anchor, as tall as the image. */
  function FormulaContent(p: FlowParams, img: LR.SvgImage, next: nat, files: map<string, string>): ContentOutcome
    requires img.width > 0.0
  {
    var (w, h) := ScaledSize(img, p.maxWidth);
    Content([ImageElement(IdName(next + 1), p.x, p.y, w, h, IdName(next), p)], h,
            files[IdName(next) := img.dataUrl], next + 2)
  }

  /** Plain text: the sanitised text wrapped to `maxWidth` in one element at
      the anchor, as tall as that element. */
  function TextContent(host: Host, p: FlowParams, raw: string, next: nat, files: map<string, string>): ContentOutcome {
    var wrapped := host.wrap(QuizText.SanitizeQuizText(Some(raw)), p.fontSize, p.maxWidth);
    var size := host.measure(wrapped, p.fontSize);
    Content([TextElement(IdName(next), p.x, p.y, wrapped, size, p)], size.1, files, next + 1)
  }

  /** A flow without a rejected render goes through to the end. */
  lemma {:induction false} NoAbortFlows(host: Host, p: FlowParams, st: FlowState, pcs: seq<FlowPiece>)
    requires forall k :: 0 <= k < |pcs| ==> PieceOk(pcs[k]) && pcs[k] != Abort
    ensures Layout(host, p, Flowing(st), pcs).Flowing?
    decreases |pcs|
  {
    if pcs != [] {
      NoAbortFlows(host, p, Step(host, p, st, pcs[0]).state, pcs[1..]);
    }
  }

  /** A flow fails exactly when one of its pieces aborts. */
  lemma FlowContentFails(host: Host, p: FlowParams, pcs: seq<FlowPiece>, next: nat, files: map<string, string>)
    requires forall k :: 0 <= k < |pcs| ==> PieceOk(pcs[k])
    ensures FlowContent(host, p, pcs, next, files) == Failed <==> exists k :: 0 <= k < |pcs| && pcs[k] == Abort
  {
    var start := Flowing(StartState(p, next, files));
    if exists k :: 0 <= k < |pcs| && pcs[k] == Abort {
      var k :| 0 <= k < |pcs| && pcs[k] == Abort;
      AbortAnywhere(host, p, start, pcs, k);
    } else {
      NoAbortFlows(host, p, start.state, pcs);
    }
  }

  /** A flow of segments fails exactly when one of its formulas' image
      decode rejects. */
  lemma SegmentsFail(host: Host, env: LR.MathJax, p: FlowParams, segs: seq<LatexUtils.Segment>, next: nat,
                     files: map<string, string>)
    ensures FlowContent(host, p, Pieces(env, segs), next, files) == Failed <==>
      exists k :: 0 <= k < |segs| && segs[k].kind == LatexUtils.Latex && LR.UncachedImage(env, segs[k].value) == LR.Rejected
  {
    var pcs := Pieces(env, segs);
    FlowContentFails(host, p, pcs, next, files);
    forall k | 0 <= k < |segs|
      ensures pcs[k] == Abort <==> segs[k].kind == LatexUtils.Latex && LR.UncachedImage(env, segs[k].value) == LR.Rejected
    {
      assert pcs[k] == PieceOf(env, segs[k]);
    }
  }

  /** The call fails exactly when a formula's image decode rejects: any
      formula segment of a flow, or the lone formula. */
  lemma QuizContentFails(host: Host, env: LR.MathJax, p: FlowParams, raw: string, next: nat, files: map<string, string>)
    ensures var segs := LatexUtils.LatexSegments(raw);
      QuizContent(host, env, p, raw, next, files) == Failed <==>
        if |segs| > 1 then
          exists k :: 0 <= k < |segs| && segs[k].kind == LatexUtils.Latex && LR.UncachedImage(env, segs[k].value) == LR.Rejected
        else LatexUtils.ContainsLatex(raw) && LR.UncachedImage(env, raw) == LR.Rejected
  {
    var segs := LatexUtils.LatexSegments(raw);
    if |segs| > 1 {
      SegmentsFail(host, env, p, segs, next, files);
    }
  }

  /** What a successful call promises of its elements: each is in the
      call's group, carries its custom data, starts on or below the anchor
      and, unless it starts a line, ends within the right edge; their ids
      are fresh and distinct; the counter only grows; no file entry is
      dropped. */
  ghost predicate ContentOk(p: FlowParams, next: nat, files: map<string, string>, r: ContentOutcome) {
    r.Content? ==> next <= r.nextId && files.Keys <= r.files.Keys && AddedWell(p, r.elements, 0, next, r.nextId)
  }

  /** A flow's outcome is well formed and at least one font size tall. */
  lemma FlowContentPlaced(host: Host, p: FlowParams, pcs: seq<FlowPiece>, next: nat, files: map<string, string>)
    requires forall k :: 0 <= k < |pcs| ==> PieceOk(pcs[k])
    ensures ContentOk(p, next, files, FlowContent(host, p, pcs, next, files))
    ensures FlowContent(host, p, pcs, next, files).Content? ==> FlowContent(host, p, pcs, next, files).height >= p.fontSize
  {
    LayoutReached(host, p, StartState(p, next, files), pcs);
  }

  /** A lone segment's outcome is well formed; a formula is scaled as
      `ScaledSizeBounds` says and the outcome is as tall as the image. */
  lemma SingleContentPlaced(host: Host, p: FlowParams, raw: string, single: LR.ImageOutcome, next: nat, files: map<string, string>)
    requires single.Image? ==> single.image.width > 0.0
    ensures ContentOk(p, next, files, SingleContent(host, p, raw, single, next, files))
  {
    var r := SingleContent(host, p, raw, single, next, files);
    if r.Content? {
      assert |r.elements| == 1 && r.elements[0].id == IdName(r.nextId - 1);
      assert r.elements[0].id in IdRange(next, r.nextId);
    }
  }

  /** Whatever the call returns is well formed, and a flow is at least one
      font size tall. */
  lemma QuizContentPlaced(host: Host, env: LR.MathJax, p: FlowParams, raw: string, next: nat, files: map<string, string>)
    ensures ContentOk(p, next, files, QuizContent(host, env, p, raw, next, files))
    ensures var r := QuizContent(host, env, p, raw, next, files);
      r.Content? && |LatexUtils.LatexSegments(raw)| > 1 ==> r.height >= p.fontSize
  {
    var segs := LatexUtils.LatexSegments(raw);
    if |segs| > 1 {
      FlowContentPlaced(host, p, Pieces(env, segs), next, files);
    } else {
      SingleContentPlaced(host, p, raw, if LatexUtils.ContainsLatex(raw) then LR.UncachedImage(env, raw) else LR.Null, next, files);
    }
  }

  // ---------------------------------------------------------------------
  // The imperative layout

  /** The text branch of the loop body: a fresh element id, the break
      test on the unwrapped width, and on a break a wrapped element (with
      an id of its own) at the start of the next line. */
  method PlaceText(ids: IdSource, host: Host, p: FlowParams, c: Cursor, elements: seq<Element>,
                   files: map<string, string>, sanitizedText: string)
    returns (next: Cursor, placed: seq<Element>)
    modifies ids
    ensures TextStep(host, p, FlowState(c, old(ids.next), elements, files), sanitizedText)
         == FlowState(next, ids.next, placed, files)
  {
    var cursorX, cursorY, lineHeight := c.x, c.y, c.lineHeight;
    var elementId := ids.Fresh();
    var size := host.measure(sanitizedText, p.fontSize);
    if cursorX > p.x && cursorX + size.0 > p.x + p.maxWidth {
      cursorX := p.x;
      cursorY := cursorY + lineHeight + InlineLineGap;
      lineHeight := 0.0;
      var wrappedText := host.wrap(sanitizedText, p.fontSize, p.maxWidth);
      var wrappedId := ids.Fresh();
      var wrappedSize := host.measure(wrappedText, p.fontSize);
      placed := elements + [TextElement(wrappedId, cursorX, cursorY, wrappedText, wrappedSize, p)];
      cursorX := p.x + wrappedSize.0 + InlineSegmentGap;
      lineHeight := Max(lineHeight, wrappedSize.1);
    } else {
      placed := elements + [TextElement(elementId, cursorX, cursorY, sanitizedText, size, p)];
      cursorX := cursorX + size.0 + InlineSegmentGap;
      lineHeight := Max(lineHeight, size.1);
    }
    next := Cursor(cursorX, cursorY, lineHeight);
  }

  /** The image branch of the loop body after a successful render: the file
      entry, the scaled size, the break test, then the image element. */
  method PlaceImage(ids: IdSource, p: FlowParams, c: Cursor, elements: seq<Element>,
                    files: map<string, string>, image: LR.SvgImage)
    returns (next: Cursor, placed: seq<Element>, newFiles: map<string, string>)
    requires image.width > 0.0
    modifies ids
    ensures ImageStep(p, FlowState(c, old(ids.next), elements, files), image)
         == FlowState(next, ids.next, placed, newFiles)
  {
    var cursorX, cursorY, lineHeight := c.x, c.y, c.lineHeight;
    var fileId := ids.Fresh();
    newFiles := files[fileId := image.dataUrl];
    var (width, height) := ScaledSize(image, p.maxWidth);
    if cursorX > p.x && cursorX + width > p.x + p.maxWidth {
      cursorX := p.x;
      cursorY := cursorY + lineHeight + InlineLineGap;
      lineHeight := 0.0;
    }
    var imageId := ids.Fresh();
    placed := elements + [ImageElement(imageId, cursorX, cursorY, width, height, fileId, p)];
    next := Cursor(cursorX + width + InlineSegmentGap, cursorY, Max(lineHeight, height));
  }

  method FlowOne(renderer: LR.LatexRenderer, ids: IdSource, host: Host, p: FlowParams,
                 st: FlowState, segment: LatexUtils.Segment) returns (r: Flowed)
    requires renderer.Valid() && st.nextId == ids.next
    modifies renderer, ids
    ensures renderer.Valid()
    ensures r == Step(host, p, st, PieceOf(renderer.env, segment))
    ensures r.Flowing? ==> ids.next == r.state.nextId
  {
    if segment.kind == LatexUtils.Text {
      r := FlowText(ids, host, p, st, segment);
    } else {
      r := FlowImage(renderer, ids, p, st, segment);
    }
  }

  method FlowText(ids: IdSource, host: Host, p: FlowParams,
                 st: FlowState, segment: LatexUtils.Segment) returns (r: Flowed)
    requires st.nextId == ids.next && segment.kind == LatexUtils.Text
    modifies ids
    ensures r == Step(host, p, st, TextPieceOf(segment.value))
    ensures r.Flowing? ==> ids.next == r.state.nextId
  {
      var sanitizedText := QuizText.SanitizeQuizText(Some(segment.value));
      if sanitizedText == "" {
        return Flowing(st);
      }
      var cursor, elements := PlaceText(ids, host, p, st.cursor, st.elements, st.files, sanitizedText);
      return Flowing(FlowState(cursor, ids.next, elements, st.files));
  }

  method FlowImage(renderer: LR.LatexRenderer, ids: IdSource, p: FlowParams,
                 st: FlowState, segment: LatexUtils.Segment) returns (r: Flowed)
    requires renderer.Valid() && st.nextId == ids.next && segment.kind == LatexUtils.Latex
    modifies renderer, ids
    ensures renderer.Valid()
    ensures forall host :: r == Step(host, p, st, LatexPiece(LR.UncachedImage(renderer.env, segment.value)))
    ensures r.Flowing? ==> ids.next == r.state.nextId
  {
    var rendered := renderer.RenderLatexToSvgDataUrl(segment.value);
    if rendered.Rejected? {
      return Aborted;
    }
    if rendered.Null? {
      return Flowing(st);
    }
    var cursor, elements, files := PlaceImage(ids, p, st.cursor, st.elements, st.files, rendered.image);
    return Flowing(FlowState(cursor, ids.next, elements, files));
  }

  method FlowSegments(renderer: LR.LatexRenderer, ids: IdSource, host: Host, p: FlowParams,
                      segments: seq<LatexUtils.Segment>, files: map<string, string>) returns (r: Flowed)
    requires renderer.Valid()
    modifies renderer, ids
    ensures renderer.Valid()
    ensures r == Layout(host, p, Flowing(StartState(p, old(ids.next), files)), Pieces(renderer.env, segments))
    ensures r.Flowing? ==> ids.next == r.state.nextId
  {
    ghost var pieces := Pieces(renderer.env, segments);
    var cursor := Cursor(p.x, p.y, 0.0);
    var elements: seq<Element> := [];
    var newFiles := files;
    ghost var start := Flowing(StartState(p, ids.next, files));
    var i := 0;
    while i < |segments|
      invariant 0 <= i <= |segments|
      invariant renderer.Valid()
      invariant Layout(host, p, Flowing(FlowState(cursor, ids.next, elements, newFiles)), pieces[i..])
             == Layout(host, p, start, pieces)
    {
      LayoutAt(host, p, FlowState(cursor, ids.next, elements, newFiles), pieces, i);
      var fl := FlowOne(renderer, ids, host, p, FlowState(cursor, ids.next, elements, newFiles), segments[i]);
      if fl.Aborted? {
        LayoutAborted(host, p, pieces[i + 1..]);
        return Aborted;
      }
      cursor, elements, newFiles := fl.state.cursor, fl.state.elements, fl.state.files;
      i := i + 1;
    }
    return Flowing(FlowState(cursor, ids.next, elements, newFiles));
  }

  /** `createQuizContentElement`, with the renderer's caches and the id
      source threaded through. */
  method CreateQuizContentElement(renderer: LR.LatexRenderer, ids: IdSource, host: Host, p: FlowParams,
                                  rawText: string, files: map<string, string>) returns (r: ContentOutcome)
    requires renderer.Valid()
    modifies renderer, ids
    ensures renderer.Valid()
    ensures r == QuizContent(host, renderer.env, p, rawText, old(ids.next), files)
    ensures r.Content? ==> ids.next == r.nextId
  {
    var segments := LatexUtils.SplitLatexSegments(rawText);
    if |segments| > 1 {
      var flowed := FlowSegments(renderer, ids, host, p, segments, files);
      if flowed.Aborted? {
        return Failed;
      }
      var st := flowed.state;
      return Content(st.elements, FlowHeight(p, st.cursor), st.files, st.nextId);
    }
    if LatexUtils.ContainsLatex(rawText) {
      var rendered := renderer.RenderLatexToSvgDataUrl(rawText);
      if rendered.Rejected? {
        return Failed;
      }
      if rendered.Image? {
        r := PlaceFormula(ids, p, rendered.image, files);
        return;
      }
    }
    r := PlaceSingleText(ids, host, p, rawText, files);
  }

  /** The lone-formula branch after a successful render. */
  method PlaceFormula(ids: IdSource, p: FlowParams, image: LR.SvgImage, files: map<string, string>)
    returns (r: ContentOutcome)
    requires image.width > 0.0
    modifies ids
    ensures r == FormulaContent(p, image, old(ids.next), files) && ids.next == r.nextId
  {
    var fileId := ids.Fresh();
    var (width, height) := ScaledSize(image, p.maxWidth);
    var imageId := ids.Fresh();
    return Content([ImageElement(imageId, p.x, p.y, width, height, fileId, p)], height,
                   files[fileId := image.dataUrl], ids.next);
  }

  /** The plain-text branch. */
  method PlaceSingleText(ids: IdSource, host: Host, p: FlowParams, rawText: string, files: map<string, string>)
    returns (r: ContentOutcome)
    modifies ids
    ensures r == TextContent(host, p, rawText, old(ids.next), files) && ids.next == r.nextId
  {
    var sanitizedText := QuizText.SanitizeQuizText(Some(rawText));
    var wrappedText := host.wrap(sanitizedText, p.fontSize, p.maxWidth);
    var textId := ids.Fresh();
    var size := host.measure(wrappedText, p.fontSize);
    return Content([TextElement(textId, p.x, p.y, wrappedText, size, p)], size.1, files, ids.next);
  }

  // ---------------------------------------------------------------------
  // The content factory as a value

  /** A content factory: what a text becomes, given where it goes, the next
      id and the files so far. */
  type ContentFn = (FlowParams, string, nat, map<string, string>) -> ContentOutcome

  /** `qc` is `createQuizContentElement` for this host and renderer. The
      trigger keeps the definition of `QuizContent` out of every proof that
      does not already mention it. */
  ghost predicate IsQuizContent(qc: ContentFn, host: Host, env: LR.MathJax) {
    forall p, raw, next, files {:trigger QuizContent(host, env, p, raw, next, files)} ::
      qc(p, raw, next, files) == QuizContent(host, env, p, raw, next, files)
  }

  /** The factory of a host and a MathJax instance. */
  function QuizContentFn(host: Host, env: LR.MathJax): (qc: ContentFn)
    ensures IsQuizContent(qc, host, env)
  {
    (p: FlowParams, raw: string, next: nat, files: map<string, string>) => QuizContent(host, env, p, raw, next, files)
  }

  /** Every outcome of `qc` is well formed, as `QuizContentPlaced` states of
      `createQuizContentElement`. */
  ghost predicate ContentWellFormed(qc: ContentFn) {
    forall p, raw, next, files :: ContentOk(p, next, files, qc(p, raw, next, files))
  }

  /** The factory of `createQuizContentElement` is well formed. */
  lemma QuizContentWellFormed(qc: ContentFn, host: Host, env: LR.MathJax)
    requires IsQuizContent(qc, host, env)
    ensures ContentWellFormed(qc)
  {
    forall p, raw, next, files
      ensures ContentOk(p, next, files, qc(p, raw, next, files))
    {
      QuizContentPlaced(host, env, p, raw, next, files);
    }
  }

  /** `createQuizContentElement` called through a factory value. */
  method MakeContent(renderer: LR.LatexRenderer, ids: IdSource, host: Host, ghost qc: ContentFn, p: FlowParams,
                     rawText: string, files: map<string, string>) returns (r: ContentOutcome)
    requires renderer.Valid() && IsQuizContent(qc, host, renderer.env)
    modifies renderer, ids
    ensures renderer.Valid()
    ensures r == qc(p, rawText, old(ids.next), files)
    ensures r.Content? ==> ids.next == r.nextId
  {
    r := CreateQuizContentElement(renderer, ids, host, p, rawText, files);
  }
}
