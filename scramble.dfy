/** Constants of the "whoami" intro and the per-tick scramble frame, shared by both
    FromShellToName components. */
module Scramble {

  const TargetText: string := "Weslley Miranda"
  const CyclesPerLetter: nat := 2
  const TypingText: string := "whoami"
  const Chars: string := "!@#$%^&*():{};|,.<>/?"

  /** Number of scramble ticks after which the interval stops (15 letters, 2 cycles each). */
  const ScrambleLength: nat := |TargetText| * CyclesPerLetter

  /** Position i shows its true letter once pos / CyclesPerLetter > i. The division is a
      floating-point one, so for natural numbers the test is pos > CyclesPerLetter * i. */
  predicate Locked(pos: nat, i: nat) {
    pos > CyclesPerLetter * i
  }

  /** Symbols drawn from Chars: the random picks of one tick, one per position. */
  predicate Symbols(s: seq<char>) {
    forall k :: 0 <= k < |s| ==> s[k] in Chars
  }

  /** What a scramble frame at counter pos looks like: locked positions hold the name's
      letter, every other position a symbol of Chars. */
  predicate IsFrame(s: string, pos: nat) {
    |s| == |TargetText| &&
    forall i :: 0 <= i < |s| ==> if Locked(pos, i) then s[i] == TargetText[i] else s[i] in Chars
  }

  /** The split/map/join of one scramble tick, with the random symbols given as picks. */
  function Frame(pos: nat, picks: seq<char>): (r: string)
    requires |picks| == |TargetText| && Symbols(picks)
    ensures IsFrame(r, pos)
  {
    seq(|TargetText|, i requires 0 <= i < |TargetText| =>
      if Locked(pos, i) then TargetText[i] else picks[i])
  }

  /** How many letters, counted from the left, a frame at counter pos reveals. */
  function Revealed(pos: nat): nat {
    if (pos + 1) / CyclesPerLetter < |TargetText| then (pos + 1) / CyclesPerLetter else |TargetText|
  }

  /** No letter of the name is a scramble symbol, so a revealed letter is never mistaken
      for a random one. */
  lemma TargetHasNoSymbol(i: nat)
    requires i < |TargetText|
    ensures TargetText[i] !in Chars
  {
  }

  /** A frame shows the true letter exactly at the first Revealed(pos) positions: letters
      lock from left to right, one every CyclesPerLetter ticks. */
  lemma FrameRevealsPrefix(pos: nat, picks: seq<char>, i: nat)
    requires |picks| == |TargetText| && Symbols(picks)
    requires i < |TargetText|
    ensures Frame(pos, picks)[i] == TargetText[i] <==> i < Revealed(pos)
  {
    TargetHasNoSymbol(i);
    assert Locked(pos, i) <==> i < Revealed(pos);
  }

  /** A frame equals the full name exactly when every position is locked, i.e. from
      counter ScrambleLength - 1 on (the 30th tick); earlier frames always show a symbol. */
  lemma FrameIsTargetIff(pos: nat, picks: seq<char>)
    requires |picks| == |TargetText| && Symbols(picks)
    ensures Frame(pos, picks) == TargetText <==> pos >= ScrambleLength - 1
  {
    var f := Frame(pos, picks);
    if pos >= ScrambleLength - 1 {
      forall i | 0 <= i < |TargetText| ensures f[i] == TargetText[i] {
        assert Locked(pos, i);
      }
    } else {
      var i := (pos + 1) / CyclesPerLetter;
      assert !Locked(pos, i);
      TargetHasNoSymbol(i);
      assert f[i] != TargetText[i];
    }
  }

  /** Locking is monotone: a position locked at counter pos stays locked, with the same
      letter, at every later counter, whatever symbols the later tick draws. */
  lemma LockedStaysLocked(pos: nat, later: nat, i: nat, picks: seq<char>, laterPicks: seq<char>)
    requires |picks| == |TargetText| && Symbols(picks)
    requires |laterPicks| == |TargetText| && Symbols(laterPicks)
    requires pos <= later && i < |TargetText| && Locked(pos, i)
    ensures Locked(later, i) && Frame(later, laterPicks)[i] == Frame(pos, picks)[i] == TargetText[i]
  {
  }
}
