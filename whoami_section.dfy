/** The intro sequencer of src/components/layout/sections/whoami/FromShellToName.tsx: the
    same typing and scramble as the other version, without the transparency phase, and
    with a removal timer whose callback tests the isScrambleDone value it captured when
    its effect ran (on mount, and again when the scramble is done). */
module WhoamiSection {
  import opened Scramble
  import opened Terminal

  datatype State = State(
    shell: Shell,
    isContentVisible: bool,
    removalPending: bool,     // the removal timer is armed and has not fired
    removalSeesDone: bool)    // the isScrambleDone value its callback captured

  /** On mount the removal effect has run once, with isScrambleDone false. */
  const Start: State := State(Mounted, true, true, false)

  datatype Event =
    | TypingInterval
    | BlinkInterval
    | ScrambleTimer
    | ScrambleInterval(picks: seq<char>)
    | RemovalTimer

  predicate Enabled(s: State, e: Event) {
    match e
    case TypingInterval => CanType(s.shell)
    case BlinkInterval => true
    case ScrambleTimer => CanStartScramble(s.shell)
    case ScrambleInterval(picks) =>
      CanScrambleTick(s.shell) && |picks| == |TargetText| && Symbols(picks)
    case RemovalTimer => s.removalPending
  }

  function Step(s: State, e: Event): State
    requires Enabled(s, e)
  {
    match e
    case TypingInterval => s.(shell := TypingTick(s.shell))
    case BlinkInterval => s.(shell := BlinkTick(s.shell))
    case ScrambleTimer => s.(shell := StartScramble(s.shell))
    case ScrambleInterval(picks) =>
      var t := ScrambleTick(s.shell, picks);
      // isScrambleDone changed: the effect clears the old timer and arms a new one
      if t.isScrambleDone then State(t, s.isContentVisible, true, true) else s.(shell := t)
    case RemovalTimer =>
      s.(isContentVisible := if s.removalSeesDone then false else s.isContentVisible,
         removalPending := false)
  }

  predicate Inv(s: State) {
    ShellInv(s.shell)
    && (s.removalSeesDone <==> s.shell.isScrambleDone)
    && (!s.isContentVisible ==> s.removalSeesDone && !s.removalPending)
    && (s.removalSeesDone ==> s.removalPending || !s.isContentVisible)
  }

  predicate Admits(s: State, trace: seq<Event>)
    decreases |trace|
  {
    trace == [] || (Enabled(s, trace[0]) && Admits(Step(s, trace[0]), trace[1..]))
  }

  function Run(s: State, trace: seq<Event>): State
    requires Admits(s, trace)
    decreases |trace|
  {
    if trace == [] then s else Run(Step(s, trace[0]), trace[1..])
  }

  function TypingCount(trace: seq<Event>): nat {
    if trace == [] then 0
    else (if trace[0].TypingInterval? then 1 else 0) + TypingCount(trace[1..])
  }

  function ScrambleCount(trace: seq<Event>): nat {
    if trace == [] then 0
    else (if trace[0].ScrambleInterval? then 1 else 0) + ScrambleCount(trace[1..])
  }

  lemma StepKeepsInv(s: State, e: Event)
    requires Inv(s) && Enabled(s, e)
    ensures Inv(Step(s, e))
    ensures TypingProgress(Step(s, e).shell) == TypingProgress(s.shell) + if e.TypingInterval? then 1 else 0
    ensures Step(s, e).shell.pos == s.shell.pos + if e.ScrambleInterval? then 1 else 0
  {
    match e
    case TypingInterval => TypingTickSpec(s.shell);
    case BlinkInterval => BlinkTickSpec(s.shell);
    case ScrambleTimer => StartScrambleSpec(s.shell);
    case ScrambleInterval(picks) => ScrambleTickSpec(s.shell, picks);
    case RemovalTimer =>
  }

  lemma {:induction false} RunKeepsInv(s: State, trace: seq<Event>)
    requires Inv(s) && Admits(s, trace)
    ensures Inv(Run(s, trace))
    ensures TypingProgress(Run(s, trace).shell) == TypingProgress(s.shell) + TypingCount(trace)
    ensures Run(s, trace).shell.pos == s.shell.pos + ScrambleCount(trace)
    decreases |trace|
  {
    if trace != [] {
      StepKeepsInv(s, trace[0]);
      RunKeepsInv(Step(s, trace[0]), trace[1..]);
    }
  }

  /** After k <= 6 typing ticks the command line holds the first k letters of "whoami";
      the seventh stops typing and leaves the text as it was. */
  lemma TypingAfterTicks(trace: seq<Event>)
    requires Admits(Start, trace)
    ensures TypingCount(trace) <= |TypingText| + 1
    ensures TypingCount(trace) <= |TypingText| ==>
      Run(Start, trace).shell.commandText == TypingText[..TypingCount(trace)]
      && !Run(Start, trace).shell.isTypingDone
    ensures TypingCount(trace) == |TypingText| + 1 ==>
      Run(Start, trace).shell.commandText == TypingText && Run(Start, trace).shell.isTypingDone
  {
    RunKeepsInv(Start, trace);
  }

  /** After exactly ScrambleLength scramble ticks the name line is the name and the
      scramble is done; before that each tick shows the frame of its counter. */
  lemma ScrambleAfterTicks(trace: seq<Event>)
    requires Admits(Start, trace)
    ensures ScrambleCount(trace) <= ScrambleLength
    ensures 0 < ScrambleCount(trace) < ScrambleLength ==>
      IsFrame(Run(Start, trace).shell.outputText, ScrambleCount(trace) - 1)
    ensures Run(Start, trace).shell.isScrambleDone <==> ScrambleCount(trace) == ScrambleLength
    ensures ScrambleCount(trace) == ScrambleLength ==> Run(Start, trace).shell.outputText == TargetText
  {
    RunKeepsInv(Start, trace);
  }

  /** This version's scramble-start timer only starts the interval: both lines stay as
      they were. */
  lemma ScrambleStartKeepsText(s: State)
    requires Enabled(s, ScrambleTimer)
    ensures Step(s, ScrambleTimer).shell.commandText == s.shell.commandText
    ensures Step(s, ScrambleTimer).shell.outputText == s.shell.outputText
    ensures Step(s, ScrambleTimer).shell.scrambleStarted && Step(s, ScrambleTimer).shell.pos == 0
  {
  }

  /** The removal timer hides the content only when its callback saw the scramble done;
      one that fires earlier leaves the content visible. */
  lemma RemovalGuarded(s: State)
    requires Inv(s) && Enabled(s, RemovalTimer)
    ensures !s.shell.isScrambleDone ==> Step(s, RemovalTimer).isContentVisible == s.isContentVisible == true
    ensures s.shell.isScrambleDone ==> !Step(s, RemovalTimer).isContentVisible
  {
  }

  /** In every reachable state, hidden content means the scramble is done, and once the
      scramble is done a removal timer is still armed until the content is hidden. */
  lemma HiddenOnlyAfterScramble(trace: seq<Event>)
    requires Admits(Start, trace)
    ensures var s := Run(Start, trace);
      (!s.isContentVisible ==> s.shell.isScrambleDone)
      && (s.shell.isScrambleDone && s.isContentVisible ==> Enabled(s, RemovalTimer))
  {
    RunKeepsInv(Start, trace);
  }

  predicate CommandCursorShown(s: State) {
    s.isContentVisible && !s.shell.isTypingDone && s.shell.showUnderscore
  }

  predicate OutputCursorShown(s: State) {
    s.isContentVisible && s.shell.isTypingDone && s.shell.showUnderscore
  }

  /** The command-line cursor shows iff typing is not done and the blink flag is on; it
      never shows together with the cursor after the name. */
  lemma Cursors(s: State)
    requires Inv(s)
    ensures CommandCursorShown(s) <==> !s.shell.isTypingDone && s.shell.showUnderscore
    ensures !(CommandCursorShown(s) && OutputCursorShown(s))
  {
  }

  class FromShellToName {
    var commandText: string
    var outputText: string
    var showUnderscore: bool
    var isTypingDone: bool
    var isScrambleDone: bool
    var isContentVisible: bool
    var typingIndex: nat
    var scrambleStarted: bool
    var pos: nat
    var removalPending: bool
    var removalSeesDone: bool

    function Snapshot(): State
      reads this
    {
      State(Shell(commandText, outputText, showUnderscore, typingIndex, isTypingDone,
                  scrambleStarted, pos, isScrambleDone),
            isContentVisible, removalPending, removalSeesDone)
    }

    ghost predicate Valid()
      reads this
    {
      Inv(Snapshot())
    }

    constructor ()
      ensures Valid() && Snapshot() == Start
    {
      commandText, outputText := "", "";
      showUnderscore := true;
      isTypingDone, isScrambleDone := false, false;
      isContentVisible := true;
      typingIndex, scrambleStarted, pos := 0, false, 0;
      removalPending, removalSeesDone := true, false;
    }

    method OnTypingInterval()
      requires Valid() && Enabled(Snapshot(), TypingInterval)
      modifies this
      ensures Valid() && Snapshot() == Step(old(Snapshot()), TypingInterval)
    {
      StepKeepsInv(Snapshot(), TypingInterval);
      if typingIndex < |TypingText| {
        commandText := TypingText[..typingIndex + 1];
        typingIndex := typingIndex + 1;
      } else {
        isTypingDone := true;
      }
    }

    method OnBlinkInterval()
      requires Valid()
      modifies this
      ensures Valid() && Snapshot() == Step(old(Snapshot()), BlinkInterval)
    {
      StepKeepsInv(Snapshot(), BlinkInterval);
      showUnderscore := !showUnderscore;
    }

    method OnScrambleTimer()
      requires Valid() && Enabled(Snapshot(), ScrambleTimer)
      modifies this
      ensures Valid() && Snapshot() == Step(old(Snapshot()), ScrambleTimer)
    {
      StepKeepsInv(Snapshot(), ScrambleTimer);
      Scramble();
    }

    /** scramble(): its closure counter starts at 0 and its interval is set. */
    method Scramble()
      modifies this
      ensures pos == 0 && scrambleStarted
      ensures commandText == old(commandText) && outputText == old(outputText)
      ensures showUnderscore == old(showUnderscore) && typingIndex == old(typingIndex)
      ensures isTypingDone == old(isTypingDone) && isScrambleDone == old(isScrambleDone)
      ensures isContentVisible == old(isContentVisible)
      ensures removalPending == old(removalPending) && removalSeesDone == old(removalSeesDone)
    {
      pos := 0;
      scrambleStarted := true;
    }

    method OnScrambleInterval(picks: seq<char>)
      requires Valid() && Enabled(Snapshot(), ScrambleInterval(picks))
      modifies this
      ensures Valid() && Snapshot() == Step(old(Snapshot()), ScrambleInterval(picks))
    {
      StepKeepsInv(Snapshot(), ScrambleInterval(picks));
      var scrambled := Frame(pos, picks);
      outputText := scrambled;
      pos := pos + 1;
      if pos >= ScrambleLength {
        StopScramble();
        RemovalEffect();
      }
    }

    /** stopScramble(): clears the interval, shows the name and marks the scramble done. */
    method StopScramble()
      modifies this
      ensures outputText == TargetText && isScrambleDone
      ensures commandText == old(commandText) && showUnderscore == old(showUnderscore)
      ensures typingIndex == old(typingIndex) && isTypingDone == old(isTypingDone)
      ensures scrambleStarted == old(scrambleStarted) && pos == old(pos)
      ensures isContentVisible == old(isContentVisible)
      ensures removalPending == old(removalPending) && removalSeesDone == old(removalSeesDone)
    {
      outputText := TargetText;
      isScrambleDone := true;
    }

    /** The effect on isScrambleDone re-runs: its cleanup clears the pending timer and it
        arms a new one whose callback sees the current isScrambleDone. */
    method RemovalEffect()
      modifies this
      ensures removalPending && removalSeesDone == isScrambleDone
      ensures commandText == old(commandText) && outputText == old(outputText)
      ensures showUnderscore == old(showUnderscore) && typingIndex == old(typingIndex)
      ensures isTypingDone == old(isTypingDone) && isScrambleDone == old(isScrambleDone)
      ensures scrambleStarted == old(scrambleStarted) && pos == old(pos)
      ensures isContentVisible == old(isContentVisible)
    {
      removalPending := true;
      removalSeesDone := isScrambleDone;
    }

    method OnRemovalTimer()
      requires Valid() && Enabled(Snapshot(), RemovalTimer)
      modifies this
      ensures Valid() && Snapshot() == Step(old(Snapshot()), RemovalTimer)
    {
      StepKeepsInv(Snapshot(), RemovalTimer);
      if removalSeesDone {
        isContentVisible := false;
      }
      removalPending := false;
    }
  }
}
