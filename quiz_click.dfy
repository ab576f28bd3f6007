/** What a pointer-up on the canvas does to the scene in quiz mode: a click
    on an option colours that option's rectangle green or red, a click on
    an answer button shows or hides the explanations it names. */
module QuizClick {
  import opened Wrappers
  import opened Elements

  const CorrectColor := "#2ecc71"
  const WrongColor := "#e74c3c"
  const ShownOpacity: real := 100.0
  const HiddenOpacity: real := 0.0

  /** The pointer-up event as the handler sees it: whether the app's API is
      there, whether the pointer was dragged, and the element hit. */
  datatype PointerUp = PointerUp(hasApi: bool, dragged: bool, hit: Option<Element>)

  // ---------------------------------------------------------------------
  // Option clicks

  /** `quizOption?.optionElementId` when it is truthy, with `isCorrect`. */
  function OptionTarget(hit: Option<Element>): (r: Option<(string, bool)>)
    ensures r.Some? <==>
      hit.Some? && hit.value.customData.quizOption.Some?
      && hit.value.customData.quizOption.value.optionElementId.Some?
      && hit.value.customData.quizOption.value.optionElementId.value != ""
    ensures r.Some? ==> r.value.0 != ""
  {
    if hit.None? then None
    else match hit.value.customData.quizOption
      case None => None
      case Some(q) =>
        match q.optionElementId
        case Some(id) => if id != "" then Some((id, q.isCorrect)) else None
        case None => None
  }

  /** The colour that marks an answer as right or wrong. */
  function AnswerColor(isCorrect: bool): string {
    if isCorrect then CorrectColor else WrongColor
  }

  /** `sceneElements.map`: the element with the target id gets the answer
      colour and a solid fill, every other element is kept. */
  function RevealOption(scene: seq<Element>, target: string, isCorrect: bool): (r: seq<Element>)
    ensures |r| == |scene|
  {
    if scene == [] then []
    else
      var head := if scene[0].id != target then scene[0]
        else scene[0].(backgroundColor := AnswerColor(isCorrect), fillStyle := "solid");
      [head] + RevealOption(scene[1..], target, isCorrect)
  }

  /** Element by element: only elements with the target id change, and only
      in their background colour and fill style. */
  lemma {:induction false} RevealOptionAt(scene: seq<Element>, target: string, isCorrect: bool, k: nat)
    requires k < |scene|
    ensures scene[k].id != target ==> RevealOption(scene, target, isCorrect)[k] == scene[k]
    ensures scene[k].id == target ==> (RevealOption(scene, target, isCorrect)[k]
      == scene[k].(backgroundColor := AnswerColor(isCorrect), fillStyle := "solid"))
  {
    if k > 0 {
      RevealOptionAt(scene[1..], target, isCorrect, k - 1);
    }
  }

  /** Revealing keeps every id and position in the scene, and revealing
      the same option twice is the same as once. */
  lemma RevealOptionStable(scene: seq<Element>, target: string, isCorrect: bool)
    ensures forall k :: 0 <= k < |scene| ==>
      RevealOption(scene, target, isCorrect)[k].id == scene[k].id
      && RevealOption(scene, target, isCorrect)[k].x == scene[k].x
      && RevealOption(scene, target, isCorrect)[k].y == scene[k].y
    ensures RevealOption(RevealOption(scene, target, isCorrect), target, isCorrect)
      == RevealOption(scene, target, isCorrect)
  {
    var once := RevealOption(scene, target, isCorrect);
    var twice := RevealOption(once, target, isCorrect);
    forall k | 0 <= k < |scene|
      ensures once[k].id == scene[k].id && once[k].x == scene[k].x && once[k].y == scene[k].y
      ensures twice[k] == once[k]
    {
      RevealOptionAt(scene, target, isCorrect, k);
      RevealOptionAt(once, target, isCorrect, k);
    }
  }

  // ---------------------------------------------------------------------
  // Answer-button clicks

  /** `answerButton?.explanationElementIds` when it is non-empty. */
  function ExplanationIds(hit: Option<Element>): (r: Option<seq<string>>)
    ensures r.Some? <==>
      hit.Some? && hit.value.customData.answerButton.Some?
      && hit.value.customData.answerButton.value.explanationElementIds.Some?
      && hit.value.customData.answerButton.value.explanationElementIds.value != []
    ensures r.Some? ==> r.value == hit.value.customData.answerButton.value.explanationElementIds.value
  {
    if hit.None? then None
    else match hit.value.customData.answerButton
      case None => None
      case Some(b) =>
        match b.explanationElementIds
        case Some(ids) => if ids != [] then Some(ids) else None
        case None => None
  }

  /** The scene positions `find` gives for the listed ids, in list order,
      with ids that are not in the scene dropped. */
  function FoundIndices(scene: seq<Element>, ids: seq<string>): (r: seq<nat>)
    ensures forall j :: 0 <= j < |r| ==> r[j] < |scene|
  {
    if ids == [] then []
    else
      var rest := FoundIndices(scene, ids[1..]);
      match FindById(scene, ids[0])
      case Some(k) => [k] + rest
      case None => rest
  }

  /** `find` for one of `ids` stops at position `k`. */
  predicate FoundOne(scene: seq<Element>, ids: seq<string>, k: nat) {
    k < |scene| && scene[k].id in ids && FindById(scene, scene[k].id) == Some(k)
  }

  /** Every found position is where `find` stops for one of the ids. */
  lemma {:induction false} FoundAreFirst(scene: seq<Element>, ids: seq<string>)
    ensures forall j :: 0 <= j < |FoundIndices(scene, ids)| ==> FoundOne(scene, ids, FoundIndices(scene, ids)[j])
  {
    if ids != [] {
      FoundAreFirst(scene, ids[1..]);
      assert forall x :: x in ids[1..] ==> x in ids;
    }
  }

  /** Every id that is in the scene is found, and nothing is found exactly
      when no id is in the scene. */
  lemma {:induction false} FoundIndicesAre(scene: seq<Element>, ids: seq<string>)
    ensures forall i :: 0 <= i < |ids| && FindById(scene, ids[i]).Some? ==>
      FindById(scene, ids[i]).value in FoundIndices(scene, ids)
    ensures FoundIndices(scene, ids) == [] <==> forall i :: 0 <= i < |ids| ==> FindById(scene, ids[i]).None?
  {
    if ids != [] {
      FoundIndicesAre(scene, ids[1..]);
      assert forall i :: 1 <= i < |ids| ==> ids[i] == ids[1..][i - 1];
    }
  }

  /** `explanationElements.some(element => element.opacity === 0)`. */
  predicate ShouldShow(scene: seq<Element>, found: seq<nat>)
    requires forall j :: 0 <= j < |found| ==> found[j] < |scene|
  {
    exists j :: 0 <= j < |found| && scene[found[j]].opacity == HiddenOpacity
  }

  /** The opacity every found explanation gets. */
  function ToggledOpacity(show: bool): real {
    if show then ShownOpacity else HiddenOpacity
  }

  /** `forEach(mutateElement(..., { opacity }))` over the found positions,
      one after the other. */
  function SetOpacity(scene: seq<Element>, found: seq<nat>, v: real): (r: seq<Element>)
    requires forall j :: 0 <= j < |found| ==> found[j] < |scene|
    ensures |r| == |scene|
  {
    if found == [] then scene
    else
      var before := SetOpacity(scene, found[..|found| - 1], v);
      var k := found[|found| - 1];
      before[k := before[k].(opacity := v)]
  }

  /** Element by element: a found element has only its opacity set, any
      other element is kept. */
  lemma {:induction false} SetOpacityAt(scene: seq<Element>, found: seq<nat>, v: real, k: nat)
    requires forall j :: 0 <= j < |found| ==> found[j] < |scene|
    requires k < |scene|
    ensures k in found ==> SetOpacity(scene, found, v)[k] == scene[k].(opacity := v)
    ensures k !in found ==> SetOpacity(scene, found, v)[k] == scene[k]
  {
    if found != [] {
      var prefix := found[..|found| - 1];
      assert found == prefix + [found[|found| - 1]];
      SetOpacityAt(scene, prefix, v, k);
    }
  }

  /** An answer-button click with the ids `ids`: nothing when none of
      them is in the scene, else every found explanation is set to one
      opacity. */
  function Toggle(scene: seq<Element>, ids: seq<string>): (r: seq<Element>)
    ensures |r| == |scene|
  {
    var found := FoundIndices(scene, ids);
    if found == [] then scene
    else SetOpacity(scene, found, ToggledOpacity(ShouldShow(scene, found)))
  }

  /** What the handler does to the scene. */
  function PointerUpEffect(scene: seq<Element>, ev: PointerUp): (r: seq<Element>)
    ensures |r| == |scene|
  {
    if !ev.hasApi || ev.dragged then scene
    else match OptionTarget(ev.hit)
      case Some(t) => RevealOption(scene, t.0, t.1)
      case None =>
        match ExplanationIds(ev.hit)
        case None => scene
        case Some(ids) => Toggle(scene, ids)
  }

  /** A drag, or no API, changes nothing. */
  lemma DragIgnored(scene: seq<Element>, ev: PointerUp)
    requires !ev.hasApi || ev.dragged
    ensures PointerUpEffect(scene, ev) == scene
  {
  }

  /** An option click reveals that option whatever else the hit element
      carries: its answer-button data is never looked at. */
  lemma OptionClickWins(scene: seq<Element>, ev: PointerUp, button: Option<AnswerButton>, id: string)
    requires ev.hasApi && !ev.dragged && ev.hit.Some?
    requires ev.hit.value.customData.quizOption.Some?
    requires ev.hit.value.customData.quizOption.value.optionElementId == Some(id) && id != ""
    ensures var other := PointerUp(true, false,
        Some(ev.hit.value.(customData := ev.hit.value.customData.(answerButton := button))));
      PointerUpEffect(scene, other) == PointerUpEffect(scene, ev)
    ensures PointerUpEffect(scene, ev)
      == RevealOption(scene, id, ev.hit.value.customData.quizOption.value.isCorrect)
  {
  }

  /** An answer button without ids, or whose ids are all missing from the
      scene, changes nothing; neither does a hit on anything else. */
  lemma AnswerButtonWithoutTargets(scene: seq<Element>, ev: PointerUp)
    requires OptionTarget(ev.hit).None?
    requires ExplanationIds(ev.hit).Some? ==>
      forall i :: 0 <= i < |ExplanationIds(ev.hit).value| ==>
        FindById(scene, ExplanationIds(ev.hit).value[i]).None?
    ensures PointerUpEffect(scene, ev) == scene
  {
    if ExplanationIds(ev.hit).Some? {
      FoundIndicesAre(scene, ExplanationIds(ev.hit).value);
    }
  }

  /** A button click that the option rule does not take goes to the
      button's ids. */
  lemma AnswerButtonClick(scene: seq<Element>, ev: PointerUp)
    requires ev.hasApi && !ev.dragged && OptionTarget(ev.hit).None?
    requires ExplanationIds(ev.hit).Some?
    ensures PointerUpEffect(scene, ev) == Toggle(scene, ExplanationIds(ev.hit).value)
  {
  }

  /** With explanations in the scene all of them get the same opacity,
      100 when any was hidden and 0 otherwise, and nothing else changes. */
  lemma ToggleSetsAll(scene: seq<Element>, ids: seq<string>)
    requires FoundIndices(scene, ids) != []
    ensures var found := FoundIndices(scene, ids);
      var v := if exists j :: 0 <= j < |found| && scene[found[j]].opacity == 0.0 then 100.0 else 0.0;
      var r := Toggle(scene, ids);
      && (forall k :: 0 <= k < |scene| && k in found ==> r[k] == scene[k].(opacity := v))
      && (forall k :: 0 <= k < |scene| && k !in found ==> r[k] == scene[k])
  {
    var found := FoundIndices(scene, ids);
    var v := ToggledOpacity(ShouldShow(scene, found));
    forall k | 0 <= k < |scene|
      ensures k in found ==> SetOpacity(scene, found, v)[k] == scene[k].(opacity := v)
      ensures k !in found ==> SetOpacity(scene, found, v)[k] == scene[k]
    {
      SetOpacityAt(scene, found, v, k);
    }
  }

  /** Clicking the same answer button twice alternates: the second click
      hides what the first showed and shows what the first hid. */
  lemma ToggleAlternates(scene: seq<Element>, ids: seq<string>)
    requires FoundIndices(scene, ids) != []
    ensures var once := Toggle(scene, ids);
      var twice := Toggle(once, ids);
      var found := FoundIndices(scene, ids);
      && FoundIndices(once, ids) == found
      && forall j :: 0 <= j < |found| ==>
        (once[found[j]].opacity == ShownOpacity <==> twice[found[j]].opacity == HiddenOpacity)
  {
    var found := FoundIndices(scene, ids);
    var v := ToggledOpacity(ShouldShow(scene, found));
    var once := SetOpacity(scene, found, v);
    forall k | 0 <= k < |scene|
      ensures once[k].id == scene[k].id
      ensures k in found ==> once[k].opacity == v
    {
      SetOpacityAt(scene, found, v, k);
    }
    SameIdsSameFound(scene, once, ids);
    var w := ToggledOpacity(ShouldShow(once, found));
    assert ShouldShow(once, found) <==> v == HiddenOpacity by {
      if v == HiddenOpacity {
        assert once[found[0]].opacity == HiddenOpacity;
      }
    }
    var twice := SetOpacity(once, found, w);
    forall j | 0 <= j < |found|
      ensures twice[found[j]].opacity == w
    {
      SetOpacityAt(once, found, w, found[j]);
    }
  }

  /** `find` gives the same answers on scenes whose ids agree position by
      position. */
  lemma {:induction false} SameIdsSameFind(a: seq<Element>, b: seq<Element>, id: string)
    requires |a| == |b| && forall k :: 0 <= k < |a| ==> a[k].id == b[k].id
    ensures FindById(a, id) == FindById(b, id)
  {
    if a != [] && a[0].id != id {
      SameIdsSameFind(a[1..], b[1..], id);
    }
  }

  /** So the same ids are found there. */
  lemma {:induction false} SameIdsSameFound(a: seq<Element>, b: seq<Element>, ids: seq<string>)
    requires |a| == |b| && forall k :: 0 <= k < |a| ==> a[k].id == b[k].id
    ensures FoundIndices(a, ids) == FoundIndices(b, ids)
  {
    if ids != [] {
      SameIdsSameFind(a, b, ids[0]);
      SameIdsSameFound(a, b, ids[1..]);
    }
  }

  /** The scene the handler reads and updates. */
  class Scene {
    var elements: seq<Element>

    constructor (initial: seq<Element>)
      ensures elements == initial
    {
      elements := initial;
    }

    /** `handleQuizOptionPointerUp`: an option click replaces the scene by
      the revealed copy (`updateScene`); a button click sets the opacity of
      each found explanation in place (`mutateElement`). */
    method HandleQuizOptionPointerUp(ev: PointerUp)
      modifies this
      ensures elements == PointerUpEffect(old(elements), ev)
    {
      if !ev.hasApi || ev.dragged {
        return;
      }
      var target := OptionTarget(ev.hit);
      if target.Some? {
        elements := RevealOption(elements, target.value.0, target.value.1);
        return;
      }
      var ids := ExplanationIds(ev.hit);
      if ids.Some? {
        ToggleExplanations(ids.value);
      }
    }

    /** The answer-button branch: look the ids up, then set the opacity of
        each found explanation in turn. */
    method ToggleExplanations(ids: seq<string>)
      modifies this
      ensures elements == Toggle(old(elements), ids)
    {
      var found := FoundIndices(elements, ids);
      if found == [] {
        return;
      }
      var show := ShouldShow(elements, found);
      SetAll(found, if show then ShownOpacity else HiddenOpacity);
    }

    /** `forEach` over the found explanations, setting each one's opacity. */
    method SetAll(found: seq<nat>, v: real)
      requires forall j :: 0 <= j < |found| ==> found[j] < |elements|
      modifies this
      ensures elements == SetOpacity(old(elements), found, v)
    {
      ghost var scene := elements;
      var j := 0;
      while j < |found|
        invariant 0 <= j <= |found| && |elements| == |scene|
        invariant elements == SetOpacity(scene, found[..j], v)
      {
        assert found[..j + 1][..j] == found[..j];
        elements := elements[found[j] := elements[found[j]].(opacity := v)];
        j := j + 1;
      }
      assert found[..|found|] == found;
    }
  }
}
