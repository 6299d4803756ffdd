/**
 The typewriter effect of `useTypewriter` (src/hooks/useTypewriter.ts) as a
 step function over its three pieces of state. One step is one run of the
 effect body together with the state update it schedules; the delays
 themselves are not modelled.
 */
module Typewriter {
  import opened Common

  datatype TypewriterState = TypewriterState(displayText: string, isDeleting: bool, wordIndex: nat)

  /** `useState(0)`, `useState('')`, `useState(false)`. */
  const Initial := TypewriterState("", false, 0)

  /** The state is consistent with the word list: a valid index and a prefix of that word. */
  predicate Valid(words: seq<string>, s: TypewriterState) {
    |words| > 0 ==> s.wordIndex < |words| && s.displayText <= words[s.wordIndex]
  }

  /**
   One step: pause then start deleting once the word is complete; move to
   the next word once deletion is complete; otherwise remove or add one
   character of the current word. An empty word list never changes anything.
   */
  function Step(words: seq<string>, s: TypewriterState): (t: TypewriterState)
    requires |words| == 0 || s.wordIndex < |words|
    ensures |words| == 0 ==> t == s
    ensures Valid(words, s) ==> Valid(words, t)
    ensures |words| > 0 ==>
      t.wordIndex == s.wordIndex
      || (s.isDeleting && s.displayText == "" && t.wordIndex == (s.wordIndex + 1) % |words|)
  {
    if |words| == 0 then s
    else
      var currentWord := words[s.wordIndex];
      if !s.isDeleting && s.displayText == currentWord then s.(isDeleting := true)
      else if s.isDeleting && s.displayText == "" then
        s.(isDeleting := false, wordIndex := (s.wordIndex + 1) % |words|)
      else if s.isDeleting then s.(displayText := Prefix(currentWord, |s.displayText| - 1))
      else s.(displayText := Prefix(currentWord, |s.displayText| + 1))
  }

  /** `k` steps from `s`. */
  function Run(words: seq<string>, s: TypewriterState, k: nat): TypewriterState
    requires Valid(words, s)
    decreases k
  {
    if k == 0 then s else Run(words, Step(words, s), k - 1)
  }

  /** The effect returns at once on an empty word list, so nothing ever changes. */
  lemma {:induction false} EmptyWordsNeverChange(s: TypewriterState, k: nat)
    ensures Run([], s, k) == s
    decreases k
  {
    if k > 0 {
      EmptyWordsNeverChange(s, k - 1);
    }
  }

  /**
   The four cases of a step, for a non-empty word list: a finished word
   starts deletion with the text unchanged; a finished deletion advances
   the index cyclically; otherwise deletion drops the last character and
   typing adds the next character of the word.
   */
  lemma StepCases(words: seq<string>, s: TypewriterState)
    requires |words| > 0 && Valid(words, s)
    ensures var t := Step(words, s); var w := words[s.wordIndex];
      && (!s.isDeleting && s.displayText == w ==> t == TypewriterState(w, true, s.wordIndex))
      && (s.isDeleting && s.displayText == "" ==> t == TypewriterState("", false, (s.wordIndex + 1) % |words|))
      && (s.isDeleting && s.displayText != "" ==>
            t.displayText == s.displayText[..|s.displayText| - 1] && t.isDeleting && t.wordIndex == s.wordIndex)
      && (!s.isDeleting && s.displayText != w ==>
            t.displayText == w[..|s.displayText| + 1] && !t.isDeleting && t.wordIndex == s.wordIndex)
  {
    var w := words[s.wordIndex];
    if s.isDeleting && s.displayText != "" {
      assert w[..|s.displayText|] == s.displayText;
    }
    if !s.isDeleting && s.displayText != w {
      assert |s.displayText| < |w|;
    }
  }

  /** From `w[..j]`, typing reaches the whole word `w` in `|w| - j` steps. */
  lemma {:induction false} TypingPhase(words: seq<string>, i: nat, j: nat)
    requires i < |words| && j <= |words[i]|
    ensures var w := words[i];
      Run(words, TypewriterState(w[..j], false, i), |w| - j) == TypewriterState(w, false, i)
    decreases |words[i]| - j
  {
    var w := words[i];
    if j < |w| {
      var s := TypewriterState(w[..j], false, i);
      assert s.displayText != w by { assert |s.displayText| != |w|; }
      assert Step(words, s) == TypewriterState(w[..j + 1], false, i);
      TypingPhase(words, i, j + 1);
    } else {
      assert w[..j] == w;
    }
  }

  /** From `w[..j]` while deleting, the text is empty after `j` steps. */
  lemma {:induction false} DeletingPhase(words: seq<string>, i: nat, j: nat)
    requires i < |words| && j <= |words[i]|
    ensures var w := words[i];
      Run(words, TypewriterState(w[..j], true, i), j) == TypewriterState("", true, i)
    decreases j
  {
    var w := words[i];
    if j > 0 {
      var s := TypewriterState(w[..j], true, i);
      assert s.displayText != "";
      assert Step(words, s) == TypewriterState(w[..j - 1], true, i);
      DeletingPhase(words, i, j - 1);
    }
  }

  lemma {:induction false} RunAdditive(words: seq<string>, s: TypewriterState, a: nat, b: nat)
    requires Valid(words, s)
    ensures Valid(words, Run(words, s, a))
    ensures Run(words, s, a + b) == Run(words, Run(words, s, a), b)
    decreases a
  {
    if a > 0 {
      RunAdditive(words, Step(words, s), a - 1, b);
    }
  }

  /**
   Words come in cyclic order: from an empty text at word `i`, typing the
   word, pausing, deleting it and advancing take `2 * |w| + 2` steps and end
   with an empty text at word `(i + 1) % |words|`.
   */
  lemma WordCycle(words: seq<string>, i: nat)
    requires i < |words|
    ensures var w := words[i];
      Run(words, TypewriterState("", false, i), 2 * |w| + 2) == TypewriterState("", false, (i + 1) % |words|)
  {
    var w := words[i];
    var start := TypewriterState("", false, i);
    assert w[..0] == "";
    TypingPhase(words, i, 0);
    RunAdditive(words, start, |w|, |w| + 2);
    var typed := TypewriterState(w, false, i);
    assert Step(words, typed) == TypewriterState(w, true, i);
    assert w[..|w|] == w;
    DeletingPhase(words, i, |w|);
    RunAdditive(words, TypewriterState(w, true, i), |w|, 1);
  }

  /** From the initial state every reachable state is valid. */
  lemma RunFromInitialValid(words: seq<string>, k: nat)
    ensures Valid(words, Initial)
    ensures Valid(words, Run(words, Initial, k))
  {
    RunAdditive(words, Initial, k, 0);
  }
}
