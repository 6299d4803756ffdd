/**
 The one-way typing effect of the landing page hero (src/components/Hero.tsx):
 the subtitle is revealed one character per step until it is complete. The
 subtitle is the parameter `fullText`, so every property holds for any text;
 the delay between steps is not modelled.
 */
module Hero {
  import opened Common

  datatype HeroState = HeroState(displayText: string, currentIndex: nat)

  /** `useState('')`, `useState(0)`. */
  const Initial := HeroState("", 0)

  /** What is shown is exactly the first `currentIndex` characters. */
  predicate Valid(fullText: string, s: HeroState) {
    s.currentIndex <= |fullText| && s.displayText == fullText[..s.currentIndex]
  }

  /** One firing of the effect: only while text remains, reveal one more character. */
  function Step(fullText: string, s: HeroState): (t: HeroState)
    ensures s.currentIndex >= |fullText| ==> t == s
    ensures s.currentIndex < |fullText| ==> t.currentIndex == s.currentIndex + 1
    ensures Valid(fullText, s) ==> Valid(fullText, t)
  {
    if s.currentIndex < |fullText| then
      HeroState(Prefix(fullText, s.currentIndex + 1), s.currentIndex + 1)
    else s
  }

  function Run(fullText: string, s: HeroState, k: nat): HeroState
    decreases k
  {
    if k == 0 then s else Run(fullText, Step(fullText, s), k - 1)
  }

  function Min(a: nat, b: nat): nat {
    if a <= b then a else b
  }

  /** After `k` steps from `i` revealed characters, `min(i + k, |fullText|)` are revealed. */
  lemma {:induction false} RunReveals(fullText: string, i: nat, k: nat)
    requires i <= |fullText|
    ensures Run(fullText, HeroState(fullText[..i], i), k)
         == HeroState(fullText[..Min(i + k, |fullText|)], Min(i + k, |fullText|))
    decreases k
  {
    if k > 0 {
      if i < |fullText| {
        RunReveals(fullText, i + 1, k - 1);
      } else {
        RunReveals(fullText, i, k - 1);
      }
    }
  }

  /**
   From the start, after `k` steps the first `min(k, |fullText|)` characters
   show; after `|fullText|` steps the whole text shows and no step changes it.
   */
  lemma TypingCompletes(fullText: string, k: nat)
    ensures Run(fullText, Initial, k).displayText == fullText[..Min(k, |fullText|)]
    ensures Valid(fullText, Run(fullText, Initial, k))
    ensures k >= |fullText| ==> Run(fullText, Initial, k) == HeroState(fullText, |fullText|)
    ensures k >= |fullText| ==> Step(fullText, Run(fullText, Initial, k)) == Run(fullText, Initial, k)
  {
    assert fullText[..0] == "";
    RunReveals(fullText, 0, k);
    assert fullText[..|fullText|] == fullText;
  }
}
