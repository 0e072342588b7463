/** The rotating placeholder of `src/lib/use-animated-placeholder.ts`: the shared prefix
    is typed once, then each suffix is typed, held, and backspaced before the next one. */
module AnimatedPlaceholder {
  import opened Wrappers

  const SharedPrefix: string := "Ask me about my "
  const Suffixes: seq<string> := ["projects", "skills", "experience"]

  const TypingSpeed: nat := 90
  const DeletingSpeed: nat := 55
  const PauseDuration: nat := 1050

  /** The contents of `stateRef`. */
  datatype State = State(suffixIndex: nat, isDeleting: bool, prefixLength: nat, suffixText: string)

  const Initial: State := State(0, false, 0, "")

  /** The pending timeout: none, the next `tick`, or the pause before deleting. */
  datatype Timer = Idle | TickIn(ms: nat) | PauseIn(ms: nat)

  /** What one `tick` does: the new state, the text it displays (if it sets one),
      and the timeout it schedules. */
  datatype Step = Step(next: State, display: Option<string>, timer: Timer)

  /** The state `tick` keeps: the prefix is typed before any suffix, and the suffix
      typed so far is a prefix of the current suffix. */
  predicate Inv(s: State) {
    && s.prefixLength <= |SharedPrefix|
    && s.suffixIndex < |Suffixes|
    && s.suffixText <= Suffixes[s.suffixIndex]
    && (s.prefixLength < |SharedPrefix| ==> s.suffixText == "" && !s.isDeleting)
  }

  /** The text a state stands for on screen. */
  function View(s: State): string
    requires s.prefixLength <= |SharedPrefix|
  {
    if s.prefixLength < |SharedPrefix| then SharedPrefix[..s.prefixLength] else SharedPrefix + s.suffixText
  }

  /** The suffix is fully typed and waits for the pause to end. */
  predicate Holding(s: State) {
    s.prefixLength >= |SharedPrefix| && !s.isDeleting
    && s.suffixIndex < |Suffixes| && |s.suffixText| >= |Suffixes[s.suffixIndex]|
  }

  /** One `tick`. */
  function Tick(s: State): (r: Step)
    requires s.suffixIndex < |Suffixes|
    ensures r.timer.PauseIn? <==> r.next == s && r.display == None
    ensures r.timer.PauseIn? <==> Holding(s)
    ensures r.timer != Idle
  {
    var current := Suffixes[s.suffixIndex];
    if s.prefixLength < |SharedPrefix| then
      var next := s.prefixLength + 1;
      Step(s.(prefixLength := next), Some(SharedPrefix[..next]), TickIn(TypingSpeed))
    else if s.isDeleting then
      if |s.suffixText| > 0 then
        var next := s.suffixText[..|s.suffixText| - 1];
        Step(s.(suffixText := next), Some(SharedPrefix + next), TickIn(DeletingSpeed))
      else
        Step(State((s.suffixIndex + 1) % |Suffixes|, false, |SharedPrefix|, ""), Some(SharedPrefix), TickIn(TypingSpeed))
    else if |s.suffixText| < |current| then
      var next := current[..|s.suffixText| + 1];
      Step(s.(suffixText := next), Some(SharedPrefix + next), TickIn(TypingSpeed))
    else
      Step(s, None, PauseIn(PauseDuration))
  }

  /** The callback that ends the pause. */
  function EndPause(s: State): (r: State)
    ensures r.isDeleting
  {
    s.(isDeleting := true)
  }

  /** `tick` keeps the invariant, and the text it displays is the view of the new state. */
  lemma TickPreservesInv(s: State)
    requires Inv(s)
    ensures Inv(Tick(s).next)
    ensures Tick(s).display.GetOr(View(s)) == View(Tick(s).next)
  {
    var t := s.suffixText;
    var current := Suffixes[s.suffixIndex];
    if s.prefixLength == |SharedPrefix| && s.isDeleting && |t| > 0 {
      assert t[..|t| - 1] <= t;
    } else if s.prefixLength == |SharedPrefix| && !s.isDeleting && |t| < |current| {
      assert t == current[..|t|];
    }
  }

  /** Ending the pause keeps the invariant and the view. */
  lemma EndPausePreservesInv(s: State)
    requires Inv(s) && Holding(s)
    ensures Inv(EndPause(s)) && View(EndPause(s)) == View(s)
  {
  }

  /** While the prefix is incomplete, a tick types one more character of it. */
  lemma PrefixPhase(s: State)
    requires Inv(s) && s.prefixLength < |SharedPrefix|
    ensures Tick(s).next.prefixLength == s.prefixLength + 1
    ensures Tick(s).display == Some(SharedPrefix[..s.prefixLength + 1])
  {
  }

  /** In the typing phase a tick extends the suffix by the next character of the current suffix. */
  lemma TypeSuffix(s: State)
    requires Inv(s) && s.prefixLength == |SharedPrefix| && !s.isDeleting
    requires |s.suffixText| < |Suffixes[s.suffixIndex]|
    ensures var n := Tick(s).next.suffixText;
      |n| == |s.suffixText| + 1 && n[..|s.suffixText|] == s.suffixText && n <= Suffixes[s.suffixIndex]
  {
    assert s.suffixText == Suffixes[s.suffixIndex][..|s.suffixText|];
  }

  /** In the deleting phase a tick removes the last character, or, once the suffix is
      gone, moves on to the next suffix in typing mode. */
  lemma DeleteSuffix(s: State)
    requires Inv(s) && s.prefixLength == |SharedPrefix| && s.isDeleting
    ensures |s.suffixText| > 0 ==> Tick(s).next == s.(suffixText := s.suffixText[..|s.suffixText| - 1])
    ensures s.suffixText == "" ==>
      Tick(s).next == State((s.suffixIndex + 1) % 3, false, |SharedPrefix|, "")
  {
  }

  /** The state after the next callback that changes it: a tick, or the end of the pause
      (the tick on a held suffix changes nothing but schedules the pause). */
  function Next(s: State): (r: State)
    requires s.suffixIndex < |Suffixes|
    ensures r.suffixIndex < |Suffixes|
  {
    if Holding(s) then EndPause(s) else Tick(s).next
  }

  function Run(s: State, n: nat): (r: State)
    requires s.suffixIndex < |Suffixes|
    ensures r.suffixIndex < |Suffixes|
    decreases n
  {
    if n == 0 then s else Run(Next(s), n - 1)
  }

  lemma {:induction false} RunAdd(s: State, a: nat, b: nat)
    requires s.suffixIndex < |Suffixes|
    ensures Run(s, a + b) == Run(Run(s, a), b)
    decreases a
  {
    if a > 0 {
      RunAdd(Next(s), a - 1, b);
    }
  }

  lemma {:induction false} PrefixRun(p: nat, k: nat)
    requires p + k <= |SharedPrefix|
    ensures Run(State(0, false, p, ""), k) == State(0, false, p + k, "")
    decreases k
  {
    if k > 0 {
      PrefixRun(p + 1, k - 1);
    }
  }

  lemma {:induction false} TypingRun(i: nat, m: nat, k: nat)
    requires i < |Suffixes| && m + k <= |Suffixes[i]|
    ensures Run(State(i, false, |SharedPrefix|, Suffixes[i][..m]), k) == State(i, false, |SharedPrefix|, Suffixes[i][..m + k])
    decreases k
  {
    if k > 0 {
      var s := State(i, false, |SharedPrefix|, Suffixes[i][..m]);
      assert Next(s) == State(i, false, |SharedPrefix|, Suffixes[i][..m + 1]);
      TypingRun(i, m + 1, k - 1);
    }
  }

  lemma {:induction false} DeletingRun(i: nat, m: nat, k: nat)
    requires i < |Suffixes| && k <= m <= |Suffixes[i]|
    ensures Run(State(i, true, |SharedPrefix|, Suffixes[i][..m]), k) == State(i, true, |SharedPrefix|, Suffixes[i][..m - k])
  {
    if k > 0 {
      var s := State(i, true, |SharedPrefix|, Suffixes[i][..m]);
      assert Suffixes[i][..m][..m - 1] == Suffixes[i][..m - 1];
      assert Next(s) == State(i, true, |SharedPrefix|, Suffixes[i][..m - 1]);
      DeletingRun(i, m - 1, k - 1);
    }
  }

  /** The prefix takes one step per character, after which the view is the whole prefix. */
  lemma {:induction false} PrefixTyped()
    ensures Run(Initial, |SharedPrefix|) == State(0, false, |SharedPrefix|, "")
    ensures View(Run(Initial, |SharedPrefix|)) == SharedPrefix
  {
    PrefixRun(0, |SharedPrefix|);
  }

  /** The number of steps of one round: type, hold, backspace, move on. */
  function RoundLength(i: nat): (n: nat)
    requires i < |Suffixes|
    ensures n == 2 * |Suffixes[i]| + 2
  {
    2 * |Suffixes[i]| + 2
  }

  /** One full round: from an empty suffix, type it, hold it, backspace it, and land on
      the next suffix, empty and typing. */
  lemma {:induction false} SuffixRound(i: nat)
    requires i < |Suffixes|
    ensures Run(State(i, false, |SharedPrefix|, ""), RoundLength(i))
         == State((i + 1) % |Suffixes|, false, |SharedPrefix|, "")
  {
    var n := |Suffixes[i]|;
    var s0 := State(i, false, |SharedPrefix|, "");
    assert Suffixes[i][..0] == "";
    TypingRun(i, 0, n);
    assert Suffixes[i][..n] == Suffixes[i];
    var typed := State(i, false, |SharedPrefix|, Suffixes[i]);
    assert Run(typed, 1) == State(i, true, |SharedPrefix|, Suffixes[i]);
    DeletingRun(i, n, n);
    var deleted := State(i, true, |SharedPrefix|, "");
    assert Run(deleted, 1) == State((i + 1) % |Suffixes|, false, |SharedPrefix|, "");
    RunAdd(s0, n, 1);
    RunAdd(s0, n + 1, n);
    RunAdd(s0, 2 * n + 1, 1);
  }

  /** Three rounds visit the suffixes in order, projects, skills, experience, and come
      back to the suffix they started from. */
  lemma {:induction false} SuffixCycle(i: nat)
    requires i < |Suffixes|
    ensures var s := State(i, false, |SharedPrefix|, "");
      var j, k := (i + 1) % |Suffixes|, (i + 2) % |Suffixes|;
      && Run(s, RoundLength(i)) == State(j, false, |SharedPrefix|, "")
      && Run(s, RoundLength(i) + RoundLength(j)) == State(k, false, |SharedPrefix|, "")
      && Run(s, RoundLength(i) + RoundLength(j) + RoundLength(k)) == s
  {
    var j, k := (i + 1) % |Suffixes|, (i + 2) % |Suffixes|;
    var s, sj, sk := State(i, false, |SharedPrefix|, ""), State(j, false, |SharedPrefix|, ""), State(k, false, |SharedPrefix|, "");
    assert (j + 1) % |Suffixes| == k && (k + 1) % |Suffixes| == i;
    SuffixRound(i);
    SuffixRound(j);
    SuffixRound(k);
    assert Run(s, RoundLength(i)) == sj;
    assert Run(sj, RoundLength(j)) == sk;
    assert Run(sk, RoundLength(k)) == s;
    RunAdd(s, RoundLength(i), RoundLength(j));
    RunAdd(s, RoundLength(i) + RoundLength(j), RoundLength(k));
  }

  /** The hook: `stateRef`, the displayed text, the pending timeout and `isActive`. */
  class Placeholder {
    var state: State
    var displayText: string
    var timer: Timer
    var isActive: bool

    predicate Valid()
      reads this
    {
      && Inv(state)
      && displayText == View(state)
      && (timer != Idle <==> isActive)
      && (timer.PauseIn? ==> Holding(state))
    }

    /** Mounting: the state starts empty, and an active hook ticks at once. */
    constructor (isActive: bool)
      ensures Valid() && this.isActive == isActive
      ensures state == (if isActive then Tick(Initial).next else Initial)
    {
      state := Initial;
      displayText := "";
      timer := Idle;
      this.isActive := isActive;
      new;
      if isActive {
        TickPreservesInv(state);
        RunTick();
      }
    }

    /** `tick`, updating `stateRef` field by field. */
    method RunTick()
      requires state.suffixIndex < |Suffixes|
      modifies this
      ensures state == Tick(old(state)).next && timer == Tick(old(state)).timer
      ensures displayText == Tick(old(state)).display.GetOr(old(displayText))
      ensures isActive == old(isActive)
    {
      var current := Suffixes[state.suffixIndex];
      if state.prefixLength < |SharedPrefix| {
        var nextPrefixLength := state.prefixLength + 1;
        state := state.(prefixLength := nextPrefixLength);
        displayText := SharedPrefix[..nextPrefixLength];
        timer := TickIn(TypingSpeed);
      } else if state.isDeleting {
        if |state.suffixText| > 0 {
          var nextSuffix := state.suffixText[..|state.suffixText| - 1];
          state := state.(suffixText := nextSuffix);
          displayText := SharedPrefix + nextSuffix;
          timer := TickIn(DeletingSpeed);
        } else {
          var nextIndex := (state.suffixIndex + 1) % |Suffixes|;
          state := State(nextIndex, false, |SharedPrefix|, "");
          displayText := SharedPrefix;
          timer := TickIn(TypingSpeed);
        }
      } else if |state.suffixText| < |current| {
        var nextSuffix := current[..|state.suffixText| + 1];
        state := state.(suffixText := nextSuffix);
        displayText := SharedPrefix + nextSuffix;
        timer := TickIn(TypingSpeed);
      } else {
        timer := PauseIn(PauseDuration);
      }
    }

    /** The pending timeout fires: a tick, or the end of the pause. */
    method Fire()
      requires Valid() && timer != Idle
      modifies this
      ensures Valid() && isActive
      ensures state == (if old(timer).PauseIn? then EndPause(old(state)) else Tick(old(state)).next)
    {
      if timer.PauseIn? {
        state := state.(isDeleting := true);
        timer := TickIn(DeletingSpeed);
      } else {
        TickPreservesInv(state);
        RunTick();
      }
    }

    /** A change of `isActive`: going inactive cancels the pending timeout and keeps
        `stateRef`; going active ticks at once. */
    method SetActive(active: bool)
      requires Valid()
      modifies this
      ensures Valid() && isActive == active
      ensures !active ==> state == old(state) && displayText == old(displayText) && timer == Idle
      ensures active && !old(isActive) ==> state == Tick(old(state)).next
      ensures active && old(isActive) ==> state == old(state) && timer == old(timer)
    {
      if active != isActive {
        isActive := active;
        if !active {
          timer := Idle;
        } else {
          TickPreservesInv(state);
          RunTick();
        }
      }
    }
  }
}
