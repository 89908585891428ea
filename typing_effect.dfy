/** The typing animation (`app/components/TypingEffect.tsx`): `displayedText` reveals
    `text` one character per timer tick while `currentIndex < text.length`, and the
    reset effect puts `currentIndex` back to 0. The timers are abstracted into explicit
    `Tick` and `Reset` calls. */
module Typing {

  /** The component's two state variables. */
  datatype Reveal = Reveal(displayed: string, index: nat)

  /** One timer tick: fires only while characters remain, then shows one more. */
  function Step(text: string, s: Reveal): (r: Reveal)
    ensures s.index < |text| ==> r.index == s.index + 1 && r.displayed == text[..r.index]
    ensures s.index >= |text| ==> r == s
  {
    if s.index < |text| then Reveal(text[..s.index + 1], s.index + 1) else s
  }

  /** The reset effect: back to index 0, the shown text is left as it is. */
  function Restart(s: Reveal): (r: Reveal)
    ensures r.index == 0 && r.displayed == s.displayed
  {
    Reveal(s.displayed, 0)
  }

  /** The state the component keeps while `text` is fixed. */
  predicate Consistent(text: string, s: Reveal) {
    s.index <= |text| && s.displayed <= text
  }

  lemma StepKeepsConsistent(text: string, s: Reveal)
    requires Consistent(text, s)
    ensures Consistent(text, Step(text, s)) && Consistent(text, Restart(s))
  {
  }

  /** The state after `n` ticks. */
  function Steps(text: string, s: Reveal, n: nat): Reveal
    decreases n
  {
    if n == 0 then s else Steps(text, Step(text, s), n - 1)
  }

  /** From index `i`, each of the next ticks reveals one more character. */
  lemma {:induction false} StepsReveal(text: string, s: Reveal, k: nat)
    requires 1 <= k && s.index + k <= |text|
    ensures Steps(text, s, k) == Reveal(text[..s.index + k], s.index + k)
    decreases k
  {
    if k > 1 {
      StepsReveal(text, Step(text, s), k - 1);
    }
  }

  /** Starting at index 0 with any text shown, exactly |text| ticks reveal the whole
      text, none earlier shows it all, and no tick fires after that. */
  lemma RevealAll(text: string, shown: string)
    requires text != [] || shown == []
    ensures Steps(text, Reveal(shown, 0), |text|) == Reveal(text, |text|)
    ensures forall k :: 1 <= k < |text| ==> Steps(text, Reveal(shown, 0), k).displayed != text
    ensures Step(text, Reveal(text, |text|)) == Reveal(text, |text|)
  {
    if text != [] {
      StepsReveal(text, Reveal(shown, 0), |text|);
      assert text[..|text|] == text;
    }
    forall k | 1 <= k < |text|
      ensures Steps(text, Reveal(shown, 0), k).displayed != text
    {
      StepsReveal(text, Reveal(shown, 0), k);
    }
  }

  /** The component instance, for a fixed `text` prop. */
  class TypingEffect {
    const text: string
    var displayedText: string
    var currentIndex: nat

    function State(): Reveal
      reads this
    {
      Reveal(displayedText, currentIndex)
    }

    ghost predicate Valid()
      reads this
    {
      Consistent(text, State())
    }

    /** First render: nothing shown, index 0. */
    constructor (text: string)
      ensures this.text == text && State() == Reveal("", 0) && Valid()
    {
      this.text := text;
      displayedText := "";
      currentIndex := 0;
    }

    /** The tick effect; `fired` tells whether a timer was scheduled at all. */
    method Tick() returns (fired: bool)
      requires Valid()
      modifies this
      ensures Valid()
      ensures fired <==> old(currentIndex) < |text|
      ensures State() == Step(text, old(State()))
      ensures fired ==> displayedText == text[..currentIndex]
    {
      fired := currentIndex < |text|;
      if fired {
        displayedText := text[..currentIndex + 1];
        currentIndex := currentIndex + 1;
      }
    }

    /** The effect on `[delay, text]`: `setCurrentIndex(0)`. */
    method Reset()
      requires Valid()
      modifies this
      ensures Valid()
      ensures State() == Restart(old(State()))
    {
      currentIndex := 0;
    }
  }
}
