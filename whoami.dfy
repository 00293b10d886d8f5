/** The intro sequencer of src/components/whoami/FromShellToName.tsx: type "whoami",
    scramble the name into view, fade the command line, then remove the content. Every
    interval or timer firing is an Event; Step says what one firing does and Run replays
    any sequence of firings that the timers allow. */
module Whoami {
  import opened Scramble
  import opened Terminal

  datatype State = State(shell: Shell, isWhoamiTransparent: bool, isContentVisible: bool)

  const Start: State := State(Mounted, false, true)

  datatype Event =
    | TypingInterval                        // every 200 ms until typing is done
    | BlinkInterval                         // every 300 ms while mounted
    | ScrambleTimer                         // 2 s after typing is done
    | ScrambleInterval(picks: seq<char>)    // every 50 ms, with that tick's random symbols
    | FadeTimer                             // 0.5 s after the scramble is done
    | RemoveTimer                           // 2.5 s after the command line turned transparent

  /** When each timer can fire: it is armed and has not fired or been cleared yet. */
  predicate Enabled(s: State, e: Event) {
    match e
    case TypingInterval => CanType(s.shell)
    case BlinkInterval => true
    case ScrambleTimer => CanStartScramble(s.shell)
    case ScrambleInterval(picks) =>
      CanScrambleTick(s.shell) && |picks| == |TargetText| && Symbols(picks)
    case FadeTimer => s.shell.isScrambleDone && !s.isWhoamiTransparent
    case RemoveTimer => s.isWhoamiTransparent && s.isContentVisible
  }

  function Step(s: State, e: Event): State
    requires Enabled(s, e)
  {
    match e
    case TypingInterval => s.(shell := TypingTick(s.shell))
    case BlinkInterval => s.(shell := BlinkTick(s.shell))
    case ScrambleTimer =>
      s.(shell := StartScramble(s.shell.(commandText := TypingText, outputText := "")))
    case ScrambleInterval(picks) => s.(shell := ScrambleTick(s.shell, picks))
    case FadeTimer => s.(isWhoamiTransparent := true)
    case RemoveTimer => s.(isContentVisible := false)
  }

  /** The invariant: the shell invariant and the phase flags switched on in order. */
  predicate Inv(s: State) {
    ShellInv(s.shell)
    && (s.isWhoamiTransparent ==> s.shell.isScrambleDone)
    && (!s.isContentVisible ==> s.isWhoamiTransparent)
  }

  /** trace is a sequence of firings the timers allow, starting in s. */
  predicate Admits(s: State, trace: seq<Event>)
    decreases |trace|
  {
    trace == [] || (Enabled(s, trace[0]) && Admits(Step(s, trace[0]), trace[1..]))
  }

  function Run(s: State, trace: seq<Event>): State
    requires Admits(s, trace)
    decreases |trace|
  {
    if trace == [] then s else Run(Step(s, trace[0]), trace[1..])
  }

  function TypingCount(trace: seq<Event>): nat {
    if trace == [] then 0
    else (if trace[0].TypingInterval? then 1 else 0) + TypingCount(trace[1..])
  }

  function ScrambleCount(trace: seq<Event>): nat {
    if trace == [] then 0
    else (if trace[0].ScrambleInterval? then 1 else 0) + ScrambleCount(trace[1..])
  }

  /** Every firing keeps the invariant; only typing ticks advance the typing progress and
      only scramble ticks advance the scramble counter, by one each. */
  lemma StepKeepsInv(s: State, e: Event)
    requires Inv(s) && Enabled(s, e)
    ensures Inv(Step(s, e))
    ensures TypingProgress(Step(s, e).shell) == TypingProgress(s.shell) + if e.TypingInterval? then 1 else 0
    ensures Step(s, e).shell.pos == s.shell.pos + if e.ScrambleInterval? then 1 else 0
  {
    match e
    case TypingInterval => TypingTickSpec(s.shell);
    case BlinkInterval => BlinkTickSpec(s.shell);
    case ScrambleTimer => StartScrambleSpec(s.shell);
    case ScrambleInterval(picks) => ScrambleTickSpec(s.shell, picks);
    case FadeTimer =>
    case RemoveTimer =>
  }

  lemma {:induction false} RunKeepsInv(s: State, trace: seq<Event>)
    requires Inv(s) && Admits(s, trace)
    ensures Inv(Run(s, trace))
    ensures TypingProgress(Run(s, trace).shell) == TypingProgress(s.shell) + TypingCount(trace)
    ensures Run(s, trace).shell.pos == s.shell.pos + ScrambleCount(trace)
    decreases |trace|
  {
    if trace != [] {
      StepKeepsInv(s, trace[0]);
      RunKeepsInv(Step(s, trace[0]), trace[1..]);
    }
  }

  /** After k typing ticks, whatever else fired in between, the command line holds the
      first k letters of "whoami" while k <= 6; the seventh tick stops typing with the text
      unchanged, and there is no eighth. */
  lemma TypingAfterTicks(trace: seq<Event>)
    requires Admits(Start, trace)
    ensures TypingCount(trace) <= |TypingText| + 1
    ensures TypingCount(trace) <= |TypingText| ==>
      Run(Start, trace).shell.commandText == TypingText[..TypingCount(trace)]
      && !Run(Start, trace).shell.isTypingDone
    ensures TypingCount(trace) == |TypingText| + 1 ==>
      Run(Start, trace).shell.commandText == TypingText && Run(Start, trace).shell.isTypingDone
  {
    RunKeepsInv(Start, trace);
  }

  /** After k scramble ticks the name line is the frame of counter k - 1; after exactly
      ScrambleLength ticks it is the name itself and the scramble is done, and not before. */
  lemma ScrambleAfterTicks(trace: seq<Event>)
    requires Admits(Start, trace)
    ensures ScrambleCount(trace) <= ScrambleLength
    ensures 0 < ScrambleCount(trace) < ScrambleLength ==>
      IsFrame(Run(Start, trace).shell.outputText, ScrambleCount(trace) - 1)
    ensures Run(Start, trace).shell.isScrambleDone <==> ScrambleCount(trace) == ScrambleLength
    ensures ScrambleCount(trace) == ScrambleLength ==> Run(Start, trace).shell.outputText == TargetText
  {
    RunKeepsInv(Start, trace);
  }

  /** The phase flags switch on in order in every reachable state: typing done before the
      scramble starts, the scramble done before the fade, the fade before removal. */
  lemma PhasesInOrder(trace: seq<Event>)
    requires Admits(Start, trace)
    ensures var s := Run(Start, trace);
      (s.shell.scrambleStarted ==> s.shell.isTypingDone)
      && (s.isWhoamiTransparent ==> s.shell.isScrambleDone)
      && (!s.isContentVisible ==> s.isWhoamiTransparent)
  {
    RunKeepsInv(Start, trace);
  }

  /** The scramble-start timer shows exactly "whoami" and an empty name line; in a
      reachable state both were already so, so the reset changes nothing there. */
  lemma ScrambleStartResets(s: State)
    requires Inv(s) && Enabled(s, ScrambleTimer)
    ensures Step(s, ScrambleTimer).shell.commandText == TypingText
    ensures Step(s, ScrambleTimer).shell.outputText == ""
    ensures Step(s, ScrambleTimer).shell == StartScramble(s.shell)
  {
  }

  /** Cursor on the command line: rendered inside the content, when typing is not done
      and the blink flag is on. */
  predicate CommandCursorShown(s: State) {
    s.isContentVisible && !s.shell.isTypingDone && s.shell.showUnderscore
  }

  /** Cursor after the name: rendered inside the content, once typing is done and while
      the blink flag is on. */
  predicate OutputCursorShown(s: State) {
    s.isContentVisible && s.shell.isTypingDone && s.shell.showUnderscore
  }

  /** In a reachable state the command cursor shows iff typing is not done and the blink
      flag is on (the content cannot be gone while typing); the two cursors never show
      together, and one of them shows whenever the flag is on and the content is there. */
  lemma Cursors(s: State)
    requires Inv(s)
    ensures CommandCursorShown(s) <==> !s.shell.isTypingDone && s.shell.showUnderscore
    ensures !(CommandCursorShown(s) && OutputCursorShown(s))
    ensures s.isContentVisible && s.shell.showUnderscore ==> CommandCursorShown(s) || OutputCursorShown(s)
  {
  }

  /** The component with its React state and closure counters as fields; each method is
      the callback of one interval or timer. */
  class FromShellToName {
    var commandText: string
    var outputText: string
    var showUnderscore: bool
    var isTypingDone: bool
    var isScrambleDone: bool
    var isWhoamiTransparent: bool
    var isContentVisible: bool
    var typingIndex: nat
    var scrambleStarted: bool
    var pos: nat

    function Snapshot(): State
      reads this
    {
      State(Shell(commandText, outputText, showUnderscore, typingIndex, isTypingDone,
                  scrambleStarted, pos, isScrambleDone),
            isWhoamiTransparent, isContentVisible)
    }

    ghost predicate Valid()
      reads this
    {
      Inv(Snapshot())
    }

    constructor ()
      ensures Valid() && Snapshot() == Start
    {
      commandText, outputText := "", "";
      showUnderscore := true;
      isTypingDone, isScrambleDone := false, false;
      isWhoamiTransparent, isContentVisible := false, true;
      typingIndex, scrambleStarted, pos := 0, false, 0;
    }

    method OnTypingInterval()
      requires Valid() && Enabled(Snapshot(), TypingInterval)
      modifies this
      ensures Valid() && Snapshot() == Step(old(Snapshot()), TypingInterval)
    {
      StepKeepsInv(Snapshot(), TypingInterval);
      if typingIndex < |TypingText| {
        commandText := TypingText[..typingIndex + 1];
        typingIndex := typingIndex + 1;
      } else {
        isTypingDone := true;
      }
    }

    method OnBlinkInterval()
      requires Valid()
      modifies this
      ensures Valid() && Snapshot() == Step(old(Snapshot()), BlinkInterval)
    {
      StepKeepsInv(Snapshot(), BlinkInterval);
      showUnderscore := !showUnderscore;
    }

    method OnScrambleTimer()
      requires Valid() && Enabled(Snapshot(), ScrambleTimer)
      modifies this
      ensures Valid() && Snapshot() == Step(old(Snapshot()), ScrambleTimer)
    {
      StepKeepsInv(Snapshot(), ScrambleTimer);
      commandText := TypingText;
      outputText := "";
      Scramble();
    }

    /** scramble(): its closure counter starts at 0 and its interval is set. */
    method Scramble()
      requires isTypingDone && !scrambleStarted
      modifies this
      ensures pos == 0 && scrambleStarted
      ensures commandText == old(commandText) && outputText == old(outputText)
      ensures showUnderscore == old(showUnderscore) && typingIndex == old(typingIndex)
      ensures isTypingDone == old(isTypingDone) && isScrambleDone == old(isScrambleDone)
      ensures isWhoamiTransparent == old(isWhoamiTransparent) && isContentVisible == old(isContentVisible)
    {
      pos := 0;
      scrambleStarted := true;
    }

    method OnScrambleInterval(picks: seq<char>)
      requires Valid() && Enabled(Snapshot(), ScrambleInterval(picks))
      modifies this
      ensures Valid() && Snapshot() == Step(old(Snapshot()), ScrambleInterval(picks))
    {
      StepKeepsInv(Snapshot(), ScrambleInterval(picks));
      var scrambled := Frame(pos, picks);
      outputText := scrambled;
      pos := pos + 1;
      if pos >= ScrambleLength {
        StopScramble();
      }
    }

    /** stopScramble(): clears the interval, shows the name and marks the scramble done. */
    method StopScramble()
      modifies this
      ensures outputText == TargetText && isScrambleDone
      ensures commandText == old(commandText) && showUnderscore == old(showUnderscore)
      ensures typingIndex == old(typingIndex) && isTypingDone == old(isTypingDone)
      ensures scrambleStarted == old(scrambleStarted) && pos == old(pos)
      ensures isWhoamiTransparent == old(isWhoamiTransparent) && isContentVisible == old(isContentVisible)
    {
      outputText := TargetText;
      isScrambleDone := true;
    }

    method OnFadeTimer()
      requires Valid() && Enabled(Snapshot(), FadeTimer)
      modifies this
      ensures Valid() && Snapshot() == Step(old(Snapshot()), FadeTimer)
    {
      isWhoamiTransparent := true;
    }

    method OnRemoveTimer()
      requires Valid() && Enabled(Snapshot(), RemoveTimer)
      modifies this
      ensures Valid() && Snapshot() == Step(old(Snapshot()), RemoveTimer)
    {
      isContentVisible := false;
    }
  }
}
