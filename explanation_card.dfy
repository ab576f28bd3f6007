/** The script inside an explanation card: a toggle button that shows the
    card and "types" the explanation into it 60 characters per timer tick,
    with the button disabled until the whole text is in. Timers, the DOM,
    KaTeX and the resize message are not modelled; `shown` stands for the
    preview box's `innerHTML`. */
module ExplanationCard {

  /** Characters added per `typeNext` tick. */
  const ChunkSize: nat := 60

  /** `state` of the script together with what it shows and whether the
      button is disabled. */
  datatype CardState = CardState(
    visible: bool,
    typing: bool,
    index: nat,
    shown: string,
    buttonDisabled: bool)

  /** The card as the page loads: hidden, idle, nothing shown. */
  const Initial := CardState(false, false, 0, "", false)

  /** `Math.min(index + chunk, length)`. */
  function NextIndex(index: nat, len: nat): (r: nat)
    ensures r <= len
    ensures index < len ==> index < r && r - index <= ChunkSize
    ensures r < len ==> r == index + ChunkSize
  {
    if index + ChunkSize < len then index + ChunkSize else len
  }

  /** `startTyping`: ignored while typing, otherwise typing restarts from
      the first character with the button disabled. */
  function StartStep(s: CardState): CardState {
    if s.typing then s
    else s.(typing := true, index := 0, shown := "", buttonDisabled := true)
  }

  /** The button's click handler. */
  function ClickStep(s: CardState): CardState {
    if s.typing then s
    else
      var flipped := s.(visible := !s.visible);
      if flipped.visible then StartStep(flipped) else flipped
  }

  /** One run of `typeNext` over the card's text `html`: show one more
      chunk, or, once everything is in, show the whole text and stop. */
  function TypeStep(html: string, s: CardState): CardState {
    if s.index < |html| then
      var next := NextIndex(s.index, |html|);
      s.(index := next, shown := html[..next])
    else
      s.(shown := html, typing := false, buttonDisabled := false)
  }

  /** The state after `n` timer ticks. */
  function Ticks(html: string, s: CardState, n: nat): CardState {
    if n == 0 then s else TypeStep(html, Ticks(html, s, n - 1))
  }

  /** What the script keeps true between events: the preview holds a
      prefix of the text up to `index`, the button is disabled exactly
      while typing, and typing only happens on a visible card. */
  ghost predicate Inv(html: string, s: CardState) {
    && s.index <= |html|
    && s.shown == html[..s.index]
    && s.buttonDisabled == s.typing
    && (s.typing ==> s.visible)
  }

  /** The page starts in a state that keeps the invariant. */
  lemma InitialInv(html: string)
    ensures Inv(html, Initial)
  {
  }

  /** Clicks keep the invariant. */
  lemma ClickKeepsInv(html: string, s: CardState)
    requires Inv(html, s)
    ensures Inv(html, ClickStep(s))
  {
  }

  /** Ticks keep the invariant. */
  lemma TypeKeepsInv(html: string, s: CardState)
    requires Inv(html, s)
    ensures Inv(html, TypeStep(html, s))
  {
  }

  /** A click while typing changes nothing. */
  lemma ClickWhileTypingIgnored(s: CardState)
    requires s.typing
    ensures ClickStep(s) == s
  {
  }

  /** Otherwise a click flips visibility; showing restarts typing from the
      start with the preview cleared, hiding touches nothing else. */
  lemma ClickToggles(s: CardState)
    requires !s.typing
    ensures ClickStep(s).visible == !s.visible
    ensures ClickStep(s).visible ==>
      ClickStep(s) == CardState(true, true, 0, "", true)
    ensures !ClickStep(s).visible ==> ClickStep(s) == s.(visible := false)
  {
  }

  /** A tick before the end shows one more chunk, at most 60 characters,
      and leaves typing on; the tick at the end shows the whole text and
      stops typing. Visibility never changes. */
  lemma TickProgress(html: string, s: CardState)
    requires Inv(html, s)
    ensures TypeStep(html, s).visible == s.visible
    ensures s.index < |html| ==>
      && s.index < TypeStep(html, s).index <= s.index + ChunkSize
      && TypeStep(html, s).typing == s.typing
    ensures s.index == |html| ==>
      && !TypeStep(html, s).typing
      && TypeStep(html, s).shown == html
      && TypeStep(html, s).index == |html|
  {
  }

  /** Ticks needed from `index` until typing stops:
      `ceil((len - index) / 60)` chunks and the final render. */
  function TicksToFinish(index: nat, len: nat): nat
    requires index <= len
  {
    (len - index + ChunkSize - 1) / ChunkSize + 1
  }

  /** Before the last tick the card is still typing, and after `k` ticks
      it shows the first `min(index + 60k, len)` characters. */
  lemma {:induction false} TypingProgress(html: string, s: CardState, k: nat)
    requires Inv(html, s) && s.typing
    requires k < TicksToFinish(s.index, |html|)
    ensures Inv(html, Ticks(html, s, k))
    ensures Ticks(html, s, k).typing && Ticks(html, s, k).visible
    ensures Ticks(html, s, k).index ==
      (if s.index + ChunkSize * k < |html| then s.index + ChunkSize * k else |html|)
  {
    if k > 0 {
      TypingProgress(html, s, k - 1);
      var before := Ticks(html, s, k - 1);
      assert before.index < |html|;
      TypeKeepsInv(html, before);
    }
  }

  /** Typing terminates: after `TicksToFinish` ticks typing is over, the
      whole text is shown and the button is enabled again. */
  lemma TypingFinishes(html: string, s: CardState)
    requires Inv(html, s) && s.typing
    ensures var t := Ticks(html, s, TicksToFinish(s.index, |html|));
      && Inv(html, t) && !t.typing && t.visible
      && t.index == |html| && t.shown == html && !t.buttonDisabled
  {
    var n := TicksToFinish(s.index, |html|);
    TypingProgress(html, s, n - 1);
    TypeKeepsInv(html, Ticks(html, s, n - 1));
  }

  /** The script's state, with `html` its `fullHTML`. */
  class CardScript {
    const html: string
    var visible: bool
    var typing: bool
    var index: nat
    var shown: string
    var buttonDisabled: bool

    function State(): CardState
      reads this
    {
      CardState(visible, typing, index, shown, buttonDisabled)
    }

    ghost predicate Valid()
      reads this
    {
      Inv(html, State())
    }

    /** The page as loaded with the card's text. */
    constructor (fullHtml: string)
      ensures html == fullHtml && State() == Initial && Valid()
    {
      html := fullHtml;
      visible := false;
      typing := false;
      index := 0;
      shown := "";
      buttonDisabled := false;
    }

    /** `startTyping`, without scheduling the first tick. */
    method StartTyping()
      requires Valid() && visible
      modifies this
      ensures Valid() && State() == StartStep(old(State()))
    {
      if typing {
        return;
      }
      typing := true;
      index := 0;
      shown := "";
      buttonDisabled := true;
    }

    /** The click listener. */
    method Click()
      requires Valid()
      modifies this
      ensures Valid() && State() == ClickStep(old(State()))
    {
      if typing {
        return;
      }
      visible := !visible;
      if visible {
        StartTyping();
      }
    }

    /** One `typeNext` tick; the timer only runs while typing. */
    method TypeNext()
      requires Valid() && typing
      modifies this
      ensures Valid() && State() == TypeStep(html, old(State()))
    {
      if index < |html| {
        var next := if index + ChunkSize < |html| then index + ChunkSize else |html|;
        shown := html[..next];
        index := next;
      } else {
        shown := html;
        typing := false;
        buttonDisabled := false;
      }
    }
  }
}
