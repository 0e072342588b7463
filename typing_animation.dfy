/** The typewriter of `src/lib/use-typing-animation.ts`: each text of `texts` is typed,
    held, and deleted, and then the next one follows. */
module TypingAnimation {
  import opened Wrappers

  const DefaultTypingSpeed: nat := 100
  const DefaultDeletingSpeed: nat := 50
  const DefaultPauseDuration: nat := 2000

  /** The four state variables of the hook. */
  datatype State = State(currentTextIndex: nat, currentText: string, isDeleting: bool, isPaused: bool)

  const Initial: State := State(0, "", false, false)

  /** What one `tick` does: the next state, and whether it starts the pause timeout. */
  datatype Step = Step(next: State, startsPause: bool)

  /** The text shown is a prefix of the text being animated. */
  predicate Inv(texts: seq<string>, s: State) {
    s.currentTextIndex < |texts| && s.currentText <= texts[s.currentTextIndex]
  }

  /** `prev.substring(0, prev.length - 1)`: the last character goes, and the empty
      string stays empty (a negative end index counts as 0). */
  function DropLast(prev: string): (r: string)
    ensures r <= prev
    ensures |r| == if prev == "" then 0 else |prev| - 1
  {
    if |prev| == 0 then "" else prev[..|prev| - 1]
  }

  /** `fullText.substring(0, prev.length + 1)`: one more character of the full text,
      as far as it goes. */
  function TypeOne(fullText: string, prev: string): (r: string)
    ensures r <= fullText
    ensures |r| == if |prev| + 1 <= |fullText| then |prev| + 1 else |fullText|
  {
    if |prev| + 1 <= |fullText| then fullText[..|prev| + 1] else fullText
  }

  /** One `tick`. */
  function Tick(texts: seq<string>, s: State): (r: Step)
    requires s.currentTextIndex < |texts|
    ensures r.startsPause ==> r.next.isPaused && !s.isPaused
    ensures r.next.currentTextIndex < |texts|
  {
    var fullText := texts[s.currentTextIndex];
    if s.isPaused then Step(s, false)
    else
      var text := if s.isDeleting then DropLast(s.currentText) else TypeOne(fullText, s.currentText);
      var finishedTyping := !s.isDeleting && s.currentText == fullText;
      var finishedDeleting := s.isDeleting && s.currentText == "";
      var index := if finishedDeleting then (s.currentTextIndex + 1) % |texts| else s.currentTextIndex;
      Step(State(index, text, s.isDeleting && !finishedDeleting, finishedTyping), finishedTyping)
  }

  /** The pause timeout's callback. */
  function EndPause(s: State): (r: State)
    ensures !r.isPaused && r.isDeleting && r.currentText == s.currentText
  {
    s.(isPaused := false, isDeleting := true)
  }

  /** While paused, a tick changes nothing. */
  lemma PausedTickIsNoop(texts: seq<string>, s: State)
    requires s.currentTextIndex < |texts| && s.isPaused
    ensures Tick(texts, s) == Step(s, false)
  {
  }

  /** A deleting tick drops the last character; an empty text stays empty and the
      animation moves on to the next text, typing. */
  lemma DeletingTick(texts: seq<string>, s: State)
    requires s.currentTextIndex < |texts| && s.isDeleting && !s.isPaused
    ensures var n := Tick(texts, s).next;
      && (s.currentText != "" ==> n == s.(currentText := s.currentText[..|s.currentText| - 1]))
      && (s.currentText == "" ==> n == State((s.currentTextIndex + 1) % |texts|, "", false, false))
  {
  }

  /** A typing tick on a text that is not yet complete types its next character. */
  lemma TypingTick(texts: seq<string>, s: State)
    requires Inv(texts, s) && !s.isDeleting && !s.isPaused
    requires s.currentText != texts[s.currentTextIndex]
    ensures var n := Tick(texts, s).next;
      && n.currentTextIndex == s.currentTextIndex && !n.isDeleting && !n.isPaused
      && |n.currentText| == |s.currentText| + 1 && n.currentText[..|s.currentText|] == s.currentText
  {
    var full := texts[s.currentTextIndex];
    assert s.currentText == full[..|s.currentText|];
  }

  /** A typing tick on the complete text keeps it and starts the pause. */
  lemma FullTextPauses(texts: seq<string>, s: State)
    requires s.currentTextIndex < |texts| && !s.isDeleting && !s.isPaused
    requires s.currentText == texts[s.currentTextIndex]
    ensures Tick(texts, s) == Step(s.(isPaused := true), true)
  {
  }

  /** `tick` and the end of the pause keep the shown text a prefix of the current text. */
  lemma TickPreservesInv(texts: seq<string>, s: State)
    requires Inv(texts, s)
    ensures Inv(texts, Tick(texts, s).next) && Inv(texts, EndPause(s))
  {
  }

  /** A tick that is not paused always changes the state, so the hook reschedules it. */
  lemma UnpausedTickProgresses(texts: seq<string>, s: State)
    requires Inv(texts, s) && !s.isPaused
    ensures Tick(texts, s).next != s
  {
    var full := texts[s.currentTextIndex];
    if !s.isDeleting && s.currentText != full {
      TypingTick(texts, s);
    }
  }

  /** The state after the next callback that fires: the end of the pause while paused,
      a tick otherwise. */
  function Next(texts: seq<string>, s: State): (r: State)
    requires s.currentTextIndex < |texts|
    ensures r.currentTextIndex < |texts|
  {
    if s.isPaused then EndPause(s) else Tick(texts, s).next
  }

  function Run(texts: seq<string>, s: State, n: nat): (r: State)
    requires s.currentTextIndex < |texts|
    ensures r.currentTextIndex < |texts|
    decreases n
  {
    if n == 0 then s else Run(texts, Next(texts, s), n - 1)
  }

  lemma {:induction false} RunAdd(texts: seq<string>, s: State, a: nat, b: nat)
    requires s.currentTextIndex < |texts|
    ensures Run(texts, s, a + b) == Run(texts, Run(texts, s, a), b)
    decreases a
  {
    if a > 0 {
      RunAdd(texts, Next(texts, s), a - 1, b);
    }
  }

  lemma {:induction false} TypingRun(texts: seq<string>, i: nat, m: nat, k: nat)
    requires i < |texts| && m + k <= |texts[i]|
    ensures Run(texts, State(i, texts[i][..m], false, false), k) == State(i, texts[i][..m + k], false, false)
    decreases k
  {
    if k > 0 {
      var s := State(i, texts[i][..m], false, false);
      assert Next(texts, s) == State(i, texts[i][..m + 1], false, false);
      TypingRun(texts, i, m + 1, k - 1);
    }
  }

  lemma {:induction false} DeletingRun(texts: seq<string>, i: nat, m: nat, k: nat)
    requires i < |texts| && k <= m <= |texts[i]|
    ensures Run(texts, State(i, texts[i][..m], true, false), k) == State(i, texts[i][..m - k], true, false)
    decreases k
  {
    if k > 0 {
      var s := State(i, texts[i][..m], true, false);
      assert texts[i][..m][..m - 1] == texts[i][..m - 1];
      assert Next(texts, s) == State(i, texts[i][..m - 1], true, false);
      DeletingRun(texts, i, m - 1, k - 1);
    }
  }

  /** One full round: a text is typed in one tick per character, held by one more tick
      and the pause, deleted one character per tick, and one last tick moves on to the
      next text, cyclically. */
  lemma {:induction false} TextRound(texts: seq<string>, i: nat)
    requires i < |texts|
    ensures Run(texts, State(i, "", false, false), 2 * |texts[i]| + 3)
         == State((i + 1) % |texts|, "", false, false)
  {
    var n := |texts[i]|;
    var s0 := State(i, "", false, false);
    assert texts[i][..0] == "";
    TypingRun(texts, i, 0, n);
    assert texts[i][..n] == texts[i];
    var typed := State(i, texts[i], false, false);
    assert Run(texts, typed, 1) == State(i, texts[i], false, true);
    var held := State(i, texts[i], false, true);
    assert Run(texts, held, 1) == State(i, texts[i], true, false);
    DeletingRun(texts, i, n, n);
    var deleted := State(i, "", true, false);
    assert Run(texts, deleted, 1) == State((i + 1) % |texts|, "", false, false);
    RunAdd(texts, s0, n, 1);
    RunAdd(texts, s0, n + 1, 1);
    RunAdd(texts, s0, n + 2, n);
    RunAdd(texts, s0, 2 * n + 2, 1);
  }

  /** The hook: its state variables, and the timeouts pending. */
  class Typewriter {
    const texts: seq<string>
    const typingSpeed: nat
    const deletingSpeed: nat
    const pauseDuration: nat
    var state: State
    /** A `tick` timeout is pending, after `tickDelay` milliseconds. */
    var tickScheduled: bool
    var tickDelay: nat
    /** The pause timeout is pending. */
    var pauseScheduled: bool

    predicate Valid()
      reads this
    {
      && (tickScheduled ==> |texts| > 0)
      && (|texts| > 0 ==> Inv(texts, state) && (!state.isPaused ==> tickScheduled))
      && (|texts| == 0 ==> state == Initial)
      && (pauseScheduled <==> state.isPaused)
    }

    /** Mounting: the speeds default as in the signature, and the effect schedules the
        first tick unless `texts` is empty. */
    constructor (texts: seq<string>, typingSpeed: Option<nat>, deletingSpeed: Option<nat>, pauseDuration: Option<nat>)
      ensures Valid() && this.texts == texts && state == Initial
      ensures this.typingSpeed == typingSpeed.GetOr(DefaultTypingSpeed)
      ensures this.deletingSpeed == deletingSpeed.GetOr(DefaultDeletingSpeed)
      ensures this.pauseDuration == pauseDuration.GetOr(DefaultPauseDuration)
      ensures tickScheduled <==> |texts| > 0
      ensures !pauseScheduled
    {
      this.texts := texts;
      this.typingSpeed := typingSpeed.GetOr(DefaultTypingSpeed);
      this.deletingSpeed := deletingSpeed.GetOr(DefaultDeletingSpeed);
      this.pauseDuration := pauseDuration.GetOr(DefaultPauseDuration);
      state := Initial;
      tickScheduled := |texts| > 0;
      tickDelay := this.typingSpeed;
      pauseScheduled := false;
    }

    /** The effect: after any change of the state it schedules a fresh `tick`, unless
        `texts` is empty. */
    method Reschedule(changed: bool)
      modifies this`tickScheduled, this`tickDelay
      ensures tickScheduled == (changed && |texts| > 0)
      ensures tickDelay == (if changed then (if state.isDeleting then deletingSpeed else typingSpeed) else old(tickDelay))
    {
      tickScheduled := false;
      if changed {
        tickDelay := if state.isDeleting then deletingSpeed else typingSpeed;
        if |texts| > 0 {
          tickScheduled := true;
        }
      }
    }

    /** The pending `tick` fires. */
    method RunTick()
      requires Valid() && tickScheduled
      modifies this
      ensures Valid()
      ensures state == Tick(texts, old(state)).next
      ensures pauseScheduled == (old(pauseScheduled) || Tick(texts, old(state)).startsPause)
      ensures tickScheduled <==> state != old(state)
    {
      var before := state;
      var fullText := texts[state.currentTextIndex];
      if !state.isPaused {
        var currentText := state.currentText;
        if state.isDeleting {
          state := state.(currentText := DropLast(currentText));
        } else {
          state := state.(currentText := TypeOne(fullText, currentText));
        }
        if !before.isDeleting && currentText == fullText {
          state := state.(isPaused := true);
          pauseScheduled := true;
        }
        if before.isDeleting && currentText == "" {
          state := state.(isDeleting := false);
          state := state.(currentTextIndex := (before.currentTextIndex + 1) % |texts|);
        }
      }
      TickPreservesInv(texts, before);
      if !before.isPaused {
        UnpausedTickProgresses(texts, before);
      }
      Reschedule(state != before);
    }

    /** The pause timeout fires: deleting starts. */
    method RunEndPause()
      requires Valid() && pauseScheduled
      modifies this
      ensures Valid()
      ensures state == EndPause(old(state)) && !pauseScheduled
      ensures tickScheduled && tickDelay == deletingSpeed
    {
      TickPreservesInv(texts, state);
      state := state.(isPaused := false, isDeleting := true);
      pauseScheduled := false;
      Reschedule(true);
    }
  }
}
