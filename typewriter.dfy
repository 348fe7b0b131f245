/** The typing effect of the ".typing" element.
    Three variables drive it: the index of the current role word, the number of
    its characters shown, and whether the word is being deleted. Every tick
    shows a prefix of the current word, then either types one character,
    deletes one, or flips the mode at the end of the word; a flip back to
    typing advances to the next word, cyclically. */
module Typewriter {

  /** The role words, in the order in which they are typed. */
  const Words: seq<string> := [" Lecturer", " Researcher", " Mathematician"]

  /** Pause, in milliseconds, after a word is fully shown, before deletion starts. */
  const HoldFullMs: nat := 700
  /** Pause, in milliseconds, after a word is fully deleted, before the next is typed. */
  const HoldEmptyMs: nat := 900

  /** The wait before the next tick. A keystroke waits 100 ms and a backspace
      40 ms, each plus a random jitter (below 60 ms and 30 ms respectively)
      that this model does not carry; a pause is a fixed number of ms. */
  datatype Delay = Keystroke | Backspace | Pause(ms: nat)

  datatype State = State(wordIndex: nat, charIndex: nat, deleting: bool)

  /** The state the effect starts in. */
  const Initial: State := State(0, 0, false)

  /** The word index names a word and the character index lies within it. */
  predicate WellFormed(s: State)
  {
    s.wordIndex < |Words| && s.charIndex <= |Words[s.wordIndex]|
  }

  /** What one tick produces: the state after it, the text it displays, and
      the delay it schedules. */
  datatype TickResult = TickResult(next: State, shown: string, delay: Delay)

  /** One tick of the effect. */
  function Next(s: State): (r: TickResult)
    requires WellFormed(s)
    ensures WellFormed(r.next)
    // the text shown is the prefix of the current word of length charIndex
    ensures r.shown <= Words[s.wordIndex] && |r.shown| == s.charIndex
    // the mode flips exactly at the ends: full word while typing, empty while deleting
    ensures r.next.deleting != s.deleting <==>
              s.charIndex == (if s.deleting then 0 else |Words[s.wordIndex]|)
    // without a flip, one character is typed or deleted and nothing else moves
    ensures r.next.deleting == s.deleting ==>
              r.next.wordIndex == s.wordIndex &&
              r.next.charIndex == (if s.deleting then s.charIndex - 1 else s.charIndex + 1) &&
              r.delay == (if s.deleting then Backspace else Keystroke)
    // at a flip the character index stays; only the flip back to typing advances the word
    ensures r.next.deleting != s.deleting ==>
              r.next.charIndex == s.charIndex &&
              r.next.wordIndex == (if s.deleting then (s.wordIndex + 1) % |Words| else s.wordIndex) &&
              r.delay == Pause(if s.deleting then HoldEmptyMs else HoldFullMs)
  {
    var current := Words[s.wordIndex];
    var shown := current[..s.charIndex];
    if !s.deleting && s.charIndex < |current| then
      TickResult(s.(charIndex := s.charIndex + 1), shown, Keystroke)
    else if s.deleting && s.charIndex > 0 then
      TickResult(s.(charIndex := s.charIndex - 1), shown, Backspace)
    else
      var deleting := !s.deleting;
      var wordIndex := if !deleting then (s.wordIndex + 1) % |Words| else s.wordIndex;
      TickResult(State(wordIndex, s.charIndex, deleting), shown,
                 Pause(if deleting then HoldFullMs else HoldEmptyMs))
  }

  /** The state after k ticks. */
  function Run(s: State, k: nat): (t: State)
    requires WellFormed(s)
    ensures WellFormed(t)
    decreases k
  {
    if k == 0 then s else Run(Next(s).next, k - 1)
  }

  /** The texts displayed by k ticks, in order. */
  function Transcript(s: State, k: nat): (shown: seq<string>)
    requires WellFormed(s)
    ensures |shown| == k
    decreases k
  {
    if k == 0 then [] else [Next(s).shown] + Transcript(Next(s).next, k - 1)
  }

  /** Ticks needed to type and delete word w, with the two pauses. */
  function CycleLength(w: nat): nat
    requires w < |Words|
  {
    2 * |Words[w]| + 2
  }

  /** Ticks needed to go through all the words once. */
  const Period: nat := 74

  /** Running a + b ticks is running a ticks and then b more, and the texts
      shown are those of the two runs one after the other. */
  lemma {:induction false} RunSplit(s: State, a: nat, b: nat)
    requires WellFormed(s)
    ensures Run(s, a + b) == Run(Run(s, a), b)
    ensures Transcript(s, a + b) == Transcript(s, a) + Transcript(Run(s, a), b)
    decreases a
  {
    if a > 0 {
      RunSplit(Next(s).next, a - 1, b);
      assert a + b - 1 == (a - 1) + b;
    }
  }

  /** While typing, k ticks type k more characters, and the i-th of them
      shows the word cut at c + i. */
  lemma {:induction false} TypingPhase(w: nat, c: nat, k: nat)
    requires w < |Words| && c + k <= |Words[w]|
    ensures Run(State(w, c, false), k) == State(w, c + k, false)
    ensures forall i :: 0 <= i < k ==> Transcript(State(w, c, false), k)[i] == Words[w][..c + i]
    decreases k
  {
    if k > 0 {
      TypingPhase(w, c + 1, k - 1);
      var t := Transcript(State(w, c, false), k);
      assert t == [Words[w][..c]] + Transcript(State(w, c + 1, false), k - 1);
      forall i | 0 <= i < k ensures t[i] == Words[w][..c + i] {
        if i > 0 {
          assert t[i] == Transcript(State(w, c + 1, false), k - 1)[i - 1];
        }
      }
    }
  }

  /** While deleting, k ticks delete k characters, and the i-th of them shows
      the word cut at c - i. */
  lemma {:induction false} DeletingPhase(w: nat, c: nat, k: nat)
    requires w < |Words| && k <= c <= |Words[w]|
    ensures Run(State(w, c, true), k) == State(w, c - k, true)
    ensures forall i :: 0 <= i < k ==> Transcript(State(w, c, true), k)[i] == Words[w][..c - i]
    decreases k
  {
    if k > 0 {
      DeletingPhase(w, c - 1, k - 1);
      var t := Transcript(State(w, c, true), k);
      assert t == [Words[w][..c]] + Transcript(State(w, c - 1, true), k - 1);
      forall i | 0 <= i < k ensures t[i] == Words[w][..c - i] {
        if i > 0 {
          assert t[i] == Transcript(State(w, c - 1, true), k - 1)[i - 1];
        }
      }
    }
  }

  /** Typing out word w, holding it, deleting it and holding the empty text
      takes CycleLength(w) ticks and arrives at the start of the next word. */
  lemma CycleEnd(w: nat)
    requires w < |Words|
    ensures Run(State(w, 0, false), CycleLength(w)) == State((w + 1) % |Words|, 0, false)
  {
    var n := |Words[w]|;
    var s0 := State(w, 0, false);
    TypingPhase(w, 0, n);
    assert Run(State(w, n, false), 1) == State(w, n, true);
    DeletingPhase(w, n, n);
    assert Run(State(w, 0, true), 1) == State((w + 1) % |Words|, 0, false);
    RunSplit(s0, n, 1);
    RunSplit(s0, n + 1, n);
    RunSplit(s0, 2 * n + 1, 1);
  }

  /** The texts shown while word w goes round: they grow by one character
      from the empty text up to the full word, then shrink by one character
      from the full word down to the empty text. */
  lemma CycleTranscript(w: nat)
    requires w < |Words|
    ensures forall i :: 0 <= i <= |Words[w]| ==>
              Transcript(State(w, 0, false), CycleLength(w))[i] == Words[w][..i]
    ensures forall i :: |Words[w]| < i < CycleLength(w) ==>
              Transcript(State(w, 0, false), CycleLength(w))[i] == Words[w][..CycleLength(w) - 1 - i]
  {
    var n := |Words[w]|;
    var s0, s2 := State(w, 0, false), State(w, n, true);
    var up, down := Transcript(s0, n + 1), Transcript(s2, n + 1);
    assert forall i :: 0 <= i <= n ==> up[i] == Words[w][..i] by {
      TypingPhase(w, 0, n);
      RunSplit(s0, n, 1);
      assert up == Transcript(s0, n) + [Words[w][..n]];
      forall i | 0 <= i <= n ensures up[i] == Words[w][..i] {
        if i < n {
          assert up[i] == Transcript(s0, n)[i];
        }
      }
    }
    assert forall j :: 0 <= j <= n ==> down[j] == Words[w][..n - j] by {
      DeletingPhase(w, n, n);
      RunSplit(s2, n, 1);
      assert down == Transcript(s2, n) + [Words[w][..0]];
      forall j | 0 <= j <= n ensures down[j] == Words[w][..n - j] {
        if j < n {
          assert down[j] == Transcript(s2, n)[j];
        }
      }
    }
    var t := Transcript(s0, CycleLength(w));
    assert t == up + down by {
      TypingPhase(w, 0, n);
      RunSplit(s0, n, 1);
      assert Run(s0, n + 1) == s2;
      assert CycleLength(w) == (n + 1) + (n + 1);
      RunSplit(s0, n + 1, n + 1);
    }
    assert CycleLength(w) - 1 == 2 * n + 1;
    forall i | n < i < CycleLength(w) ensures t[i] == Words[w][..CycleLength(w) - 1 - i] {
      assert t[i] == down[i - n - 1];
    }
  }

  /** From the start of any word, one full pass through the words brings the
      effect back to where it started. */
  lemma FullPass(w: nat)
    requires w < |Words|
    ensures Run(State(w, 0, false), Period) == State(w, 0, false)
  {
    var w1 := (w + 1) % |Words|;
    var w2 := (w1 + 1) % |Words|;
    assert (w2 + 1) % |Words| == w;
    assert CycleLength(0) == 20 && CycleLength(1) == 24 && CycleLength(2) == 30;
    assert CycleLength(w) + CycleLength(w1) + CycleLength(w2) == Period;
    CycleEnd(w);
    CycleEnd(w1);
    CycleEnd(w2);
    RunSplit(State(w, 0, false), CycleLength(w), CycleLength(w1));
    RunSplit(State(w, 0, false), CycleLength(w) + CycleLength(w1), CycleLength(w2));
  }

  /** The effect is periodic: from the start of a word, the state after k
      ticks depends only on k modulo the period. */
  lemma {:induction false} Periodic(w: nat, k: nat)
    requires w < |Words|
    ensures Run(State(w, 0, false), k) == Run(State(w, 0, false), k % Period)
    decreases k
  {
    if k >= Period {
      var s, rest := State(w, 0, false), k - Period;
      assert k % Period == rest % Period;
      FullPass(w);
      RunSplit(s, Period, rest);
      assert Run(s, k) == Run(s, rest);
      Periodic(w, rest);
    }
  }

  /** The effect as the page holds it: three variables that each tick updates. */
  class TypeEffect {
    var wordIndex: nat
    var charIndex: nat
    var isDeleting: bool

    /** The variables as a State value. */
    function Current(): State
      reads this
    {
      State(wordIndex, charIndex, isDeleting)
    }

    ghost predicate Valid()
      reads this
    {
      WellFormed(Current())
    }

    /** The effect starts on the first word, with nothing shown, typing. */
    constructor ()
      ensures Valid() && Current() == Initial
    {
      wordIndex, charIndex, isDeleting := 0, 0, false;
    }

    /** One tick: returns the text to display and the delay before the next tick. */
    method Tick() returns (displayed: string, delay: Delay)
      requires Valid()
      modifies this
      ensures Valid()
      ensures displayed <= Words[old(wordIndex)] && |displayed| == old(charIndex)
      ensures TickResult(Current(), displayed, delay) == Next(old(Current()))
    {
      var current := Words[wordIndex];
      displayed := current[..charIndex];
      if !isDeleting && charIndex < |current| {
        charIndex := charIndex + 1;
        delay := Keystroke;
      } else if isDeleting && charIndex > 0 {
        charIndex := charIndex - 1;
        delay := Backspace;
      } else {
        isDeleting := !isDeleting;
        if !isDeleting {
          wordIndex := (wordIndex + 1) % |Words|;
        }
        delay := Pause(if isDeleting then HoldFullMs else HoldEmptyMs);
      }
    }
  }
}
