/** The scene element record as far as the quiz code reads and writes it:
    identity, geometry, the style fields the templates and the click rule
    change, and the `customData` the importer attaches. */
module Elements {
  import opened Wrappers
  import opened Strings

  datatype ElementType = Rectangle | Text | Image | Iframe | OtherType(name: string)

  /** The two roundness kinds the templates use (`ROUNDNESS.*`). */
  datatype Roundness = AdaptiveRadius | ProportionalRadius

  /** `customData.quizOption`: attached to an option's rectangle, label and
      content. Absent booleans read as `false`. */
  datatype QuizOption = QuizOption(
    optionIndex: Option<nat>,
    optionElementId: Option<string>,
    isCorrect: bool,
    role: Option<string>)

  /** `customData.answerButton`. */
  datatype AnswerButton = AnswerButton(explanationElementIds: Option<seq<string>>)

  /** The `customData` keys the quiz code looks at; `generationHtml` is the
      explanation card's `generationData.html`. */
  datatype CustomData = CustomData(
    quizOption: Option<QuizOption>,
    quizSlideBackground: bool,
    answerButton: Option<AnswerButton>,
    generationHtml: Option<string>)

  /** An element without `customData`. */
  const NoCustomData := CustomData(None, false, None, None)

  datatype Element = Element(
    id: string,
    kind: ElementType,
    x: real,
    y: real,
    width: real,
    height: real,
    backgroundColor: string,
    strokeColor: string,
    strokeWidth: real,
    roughness: real,
    roundness: Option<Roundness>,
    fillStyle: string,
    opacity: real,
    text: string,
    fileId: Option<string>,
    groupIds: seq<string>,
    customData: CustomData)

  /** Everything but the five template style fields agrees: identity,
      geometry, text, grouping, fill, opacity and `customData`. */
  predicate SameShape(a: Element, b: Element) {
    && a.id == b.id && a.kind == b.kind
    && a.x == b.x && a.y == b.y && a.width == b.width && a.height == b.height
    && a.fillStyle == b.fillStyle && a.opacity == b.opacity
    && a.text == b.text && a.fileId == b.fileId && a.groupIds == b.groupIds
    && a.customData == b.customData
  }

  /** The index of the first element with id `id`, as `Array.find` scans. */
  function FindById(scene: seq<Element>, id: string): (r: Option<nat>)
    ensures r.Some? ==> r.value < |scene| && scene[r.value].id == id
    ensures r.Some? ==> forall k :: 0 <= k < r.value ==> scene[k].id != id
    ensures r.None? ==> forall k :: 0 <= k < |scene| ==> scene[k].id != id
  {
    if scene == [] then None
    else if scene[0].id == id then Some(0)
    else match FindById(scene[1..], id)
      case None => None
      case Some(k) => Some(k + 1)
  }

  // ---------------------------------------------------------------------
  // Fresh ids

  /** The id handed out at step `n`; `randomId` is modelled as a counter. */
  function IdName(n: nat): string {
    NatToDigits(n)
  }

  /** Different steps give different ids. */
  lemma IdNameDistinct(a: nat, b: nat)
    requires a != b
    ensures IdName(a) != IdName(b)
  {
    assert DigitsValue(IdName(a)) != DigitsValue(IdName(b));
  }

  /** The ids handed out from step `lo` up to, not including, step `hi`. */
  ghost function IdRange(lo: nat, hi: nat): set<string> {
    set k: nat | lo <= k < hi :: IdName(k)
  }

  /** Ids handed out in disjoint step ranges never coincide. */
  lemma RangesDisjoint(lo: nat, mid: nat, hi: nat)
    requires lo <= mid <= hi
    ensures IdRange(lo, mid) !! IdRange(mid, hi)
  {
    forall a: nat, b: nat | lo <= a < mid <= b < hi
      ensures IdName(a) != IdName(b)
    {
      IdNameDistinct(a, b);
    }
  }

  /** An id handed out at a step outside a range is not in it. */
  lemma NotInRange(lo: nat, hi: nat, n: nat)
    requires n < lo || hi <= n
    ensures IdName(n) !in IdRange(lo, hi)
  {
    forall a: nat | lo <= a < hi
      ensures IdName(a) != IdName(n)
    {
      IdNameDistinct(a, n);
    }
  }

  /** The source of fresh ids shared by every factory call. */
  class IdSource {
    var next: nat

    constructor ()
      ensures next == 0
    {
      next := 0;
    }

    /** `randomId()`. */
    method Fresh() returns (id: string)
      modifies this
      ensures id == IdName(old(next)) && next == old(next) + 1
    {
      id := IdName(next);
      next := next + 1;
    }
  }
}
