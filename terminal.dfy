/** The terminal part of the FromShellToName sequencer that both versions share: the
    React state shown on the two lines, the closure counters of the typing and scramble
    intervals, and what one firing of each of those intervals does to them. */
module Terminal {
  import opened Scramble

  datatype Shell = Shell(
    commandText: string,     // the "$ whoami" line typed so far
    outputText: string,      // the scrambled name line
    showUnderscore: bool,    // blink flag of the cursor
    typingIndex: nat,        // closure counter of the typing interval
    isTypingDone: bool,
    scrambleStarted: bool,   // scramble() has been called and its interval set
    pos: nat,                // closure counter of the scramble interval
    isScrambleDone: bool)

  /** The state on mount: nothing typed, cursor visible, no scramble yet. */
  const Mounted: Shell := Shell("", "", true, 0, false, false, 0, false)

  /** What holds of the shell in every state the timers can reach. */
  predicate ShellInv(t: Shell) {
    t.typingIndex <= |TypingText| && t.commandText == TypingText[..t.typingIndex]
    && (t.isTypingDone ==> t.typingIndex == |TypingText|)
    && (t.scrambleStarted ==> t.isTypingDone)
    && (!t.scrambleStarted ==> t.pos == 0)
    && t.pos <= ScrambleLength
    && (t.isScrambleDone <==> t.pos == ScrambleLength)
    && (t.pos == 0 ==> t.outputText == "")
    && (0 < t.pos < ScrambleLength ==> IsFrame(t.outputText, t.pos - 1))
    && (t.isScrambleDone ==> t.outputText == TargetText)
  }

  /** Typing interval firings so far: one per typed letter plus the final one that stops it. */
  function TypingProgress(t: Shell): nat {
    t.typingIndex + if t.isTypingDone then 1 else 0
  }

  /** The typing interval runs until it has cleared itself. */
  predicate CanType(t: Shell) {
    !t.isTypingDone
  }

  function TypingTick(t: Shell): Shell
    requires CanType(t)
  {
    if t.typingIndex < |TypingText| then
      t.(commandText := TypingText[..t.typingIndex + 1], typingIndex := t.typingIndex + 1)
    else
      t.(isTypingDone := true)
  }

  function BlinkTick(t: Shell): Shell {
    t.(showUnderscore := !t.showUnderscore)
  }

  /** The scramble-start timer is armed when typing is done and fires once. */
  predicate CanStartScramble(t: Shell) {
    t.isTypingDone && !t.scrambleStarted
  }

  /** scramble(): a fresh counter pos = 0 and a running interval. */
  function StartScramble(t: Shell): Shell
    requires CanStartScramble(t)
  {
    t.(scrambleStarted := true, pos := 0)
  }

  /** The scramble interval runs from scramble() until stopScramble() clears it. */
  predicate CanScrambleTick(t: Shell) {
    t.scrambleStarted && !t.isScrambleDone
  }

  function StopScramble(t: Shell): Shell {
    t.(outputText := TargetText, isScrambleDone := true)
  }

  function ScrambleTick(t: Shell, picks: seq<char>): Shell
    requires CanScrambleTick(t) && |picks| == |TargetText| && Symbols(picks)
  {
    var next := t.(outputText := Frame(t.pos, picks), pos := t.pos + 1);
    if next.pos >= ScrambleLength then StopScramble(next) else next
  }

  /** A typing tick types the next letter; the tick after the last letter leaves the text
      alone and stops typing. Either way it counts one more firing and keeps the invariant. */
  lemma TypingTickSpec(t: Shell)
    requires ShellInv(t) && CanType(t)
    ensures ShellInv(TypingTick(t))
    ensures TypingProgress(TypingTick(t)) == TypingProgress(t) + 1
    ensures t.typingIndex < |TypingText| ==>
      TypingTick(t).commandText == TypingText[..t.typingIndex + 1] && !TypingTick(t).isTypingDone
    ensures t.typingIndex == |TypingText| ==>
      TypingTick(t).commandText == t.commandText && TypingTick(t).isTypingDone
    ensures TypingTick(t).(commandText := t.commandText, typingIndex := t.typingIndex,
                           isTypingDone := t.isTypingDone) == t
  {
  }

  /** A blink tick flips the cursor flag and nothing else; two of them cancel out. */
  lemma BlinkTickSpec(t: Shell)
    ensures BlinkTick(t).showUnderscore == !t.showUnderscore
    ensures BlinkTick(t).(showUnderscore := t.showUnderscore) == t
    ensures BlinkTick(BlinkTick(t)) == t
    ensures ShellInv(t) ==> ShellInv(BlinkTick(t))
  {
  }

  /** Starting the scramble keeps the invariant and does not touch either line. */
  lemma StartScrambleSpec(t: Shell)
    requires ShellInv(t) && CanStartScramble(t)
    ensures ShellInv(StartScramble(t)) && CanScrambleTick(StartScramble(t))
    ensures StartScramble(t).commandText == TypingText && StartScramble(t).outputText == ""
    ensures StartScramble(t).pos == t.pos == 0
  {
  }

  /** A scramble tick shows the frame of the current counter and advances it; the tick
      that brings it to ScrambleLength stops the interval and shows the whole name. */
  lemma ScrambleTickSpec(t: Shell, picks: seq<char>)
    requires ShellInv(t) && CanScrambleTick(t) && |picks| == |TargetText| && Symbols(picks)
    ensures ShellInv(ScrambleTick(t, picks))
    ensures ScrambleTick(t, picks).pos == t.pos + 1
    ensures |ScrambleTick(t, picks).outputText| == |TargetText|
    ensures t.pos + 1 < ScrambleLength ==>
      ScrambleTick(t, picks).outputText == Frame(t.pos, picks) && !ScrambleTick(t, picks).isScrambleDone
    ensures t.pos + 1 == ScrambleLength ==>
      ScrambleTick(t, picks).outputText == TargetText && ScrambleTick(t, picks).isScrambleDone
    ensures TypingProgress(ScrambleTick(t, picks)) == TypingProgress(t)
    ensures ScrambleTick(t, picks).commandText == t.commandText
  {
  }
}
