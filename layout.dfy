/** The two pieces of decision logic in src/components/layout/AppContent.tsx: the width
    callback that swaps the intro scene for the content, and the font-size fitting of the
    heading. */
module Layout {
  import opened Width

  /** The part of the page handleWidthChange decides. */
  datatype Scene = Scene(show3D: bool, showContent: bool, starAnimation: bool, backgroundColor: string)

  const IntroScene: Scene := Scene(true, false, false, "#320809")
  const ContentScene: Scene := Scene(false, true, true, "#fff")

  /** The scene after handleWidthChange(width): it depends on width alone. */
  function SceneFor(width: string): Scene
    requires InGrammar(width)
  {
    if IsFullWidth(width) then ContentScene else IntroScene
  }

  /** Full-viewport widths of at least 100vw show the content; every other width (another
      unit such as "16rem", or a vw value below 100) shows the intro scene. */
  lemma SceneForCanonical(n: int, u: string)
    requires |NatToString(if n < 0 then -n else n)| <= MaxDigits && UnitOk(u)
    ensures InGrammar(IntToString(n) + u)
    ensures SceneFor(IntToString(n) + u) == if u == "vw" && n >= 100 then ContentScene else IntroScene
  {
    ParseCanonical(n, u);
  }

  /** The content is shown exactly for the canonical widths "<n>vw" with n >= 100. */
  lemma ContentSceneIff(width: string)
    requires InGrammar(width)
    ensures SceneFor(width) == ContentScene <==> exists n: int :: 100 <= n && width == IntToString(n) + "vw"
    ensures SceneFor(width) == ContentScene || SceneFor(width) == IntroScene
  {
    FullWidthIff(width);
  }

  /** Largest font size the heading may keep. */
  const MaxFontSize: int := 60
  /** The countdown starts here and does not go below MinFontSize. */
  const StartFontSize: int := 100
  const MinFontSize: int := 10

  /** The size the countdown stops at, scanning down from size: the first one whose
      measured width fits the viewport, or MinFontSize. */
  function FirstFit(viewportWidth: int, measuredWidth: int -> int, size: int): int
    decreases size
  {
    if measuredWidth(size) > viewportWidth && size > MinFontSize then
      FirstFit(viewportWidth, measuredWidth, size - 1)
    else
      size
  }

  function Cap(size: int): int {
    if size > MaxFontSize then MaxFontSize else size
  }

  /** The countdown stops in [MinFontSize, size]. */
  lemma {:induction false} FirstFitBounds(viewportWidth: int, measuredWidth: int -> int, size: int)
    requires size >= MinFontSize
    ensures MinFontSize <= FirstFit(viewportWidth, measuredWidth, size) <= size
    decreases size
  {
    if measuredWidth(size) > viewportWidth && size > MinFontSize {
      FirstFitBounds(viewportWidth, measuredWidth, size - 1);
    }
  }

  /** The stopping size fits the viewport unless it is MinFontSize, and every larger size
      up to the starting one was measured wider than the viewport. */
  lemma {:induction false} FirstFitIsFirst(viewportWidth: int, measuredWidth: int -> int, size: int)
    requires size >= MinFontSize
    ensures var stop := FirstFit(viewportWidth, measuredWidth, size);
      (stop == MinFontSize || measuredWidth(stop) <= viewportWidth)
      && forall t :: stop < t <= size ==> measuredWidth(t) > viewportWidth
    decreases size
  {
    if measuredWidth(size) > viewportWidth && size > MinFontSize {
      FirstFitIsFirst(viewportWidth, measuredWidth, size - 1);
    }
  }

  /** The loop of adjustFontSize: from 100 down by one while the measured width exceeds
      the viewport and the size is above 10, then capped at 60. */
  method FitFontSize(viewportWidth: int, measuredWidth: int -> int) returns (size: int)
    ensures MinFontSize <= size <= MaxFontSize
    ensures size == Cap(FirstFit(viewportWidth, measuredWidth, StartFontSize))
  {
    var newFontSize := StartFontSize;
    while measuredWidth(newFontSize) > viewportWidth && newFontSize > MinFontSize
      invariant MinFontSize <= newFontSize <= StartFontSize
      invariant FirstFit(viewportWidth, measuredWidth, newFontSize)
             == FirstFit(viewportWidth, measuredWidth, StartFontSize)
      decreases newFontSize
    {
      newFontSize := newFontSize - 1;
    }
    if newFontSize > MaxFontSize {
      newFontSize := MaxFontSize;
    }
    size := newFontSize;
  }

  /** The final size is below the cap only when the countdown stopped there; then it fits
      the viewport or is 10, and every size above it up to 100 was too wide. */
  lemma FittedSizeMeaning(viewportWidth: int, measuredWidth: int -> int)
    ensures var size := Cap(FirstFit(viewportWidth, measuredWidth, StartFontSize));
      MinFontSize <= size <= MaxFontSize
      && (size < MaxFontSize ==>
            (size == MinFontSize || measuredWidth(size) <= viewportWidth)
            && forall t :: size < t <= StartFontSize ==> measuredWidth(t) > viewportWidth)
  {
    FirstFitBounds(viewportWidth, measuredWidth, StartFontSize);
    FirstFitIsFirst(viewportWidth, measuredWidth, StartFontSize);
  }

  /** Text that already fits at 100px gets the cap. */
  lemma FitsAtStartGivesCap(viewportWidth: int, measuredWidth: int -> int)
    requires measuredWidth(StartFontSize) <= viewportWidth
    ensures Cap(FirstFit(viewportWidth, measuredWidth, StartFontSize)) == MaxFontSize
  {
  }

  /** The component's state that these callbacks write, with the inline background color
      of document.body ("" until first written). */
  class AppContent {
    var show3D: bool
    var showContent: bool
    var starAnimation: bool
    var backgroundColor: string
    var fontSize: int

    function CurrentScene(): Scene
      reads this
    {
      Scene(show3D, showContent, starAnimation, backgroundColor)
    }

    constructor ()
      ensures show3D && !showContent && !starAnimation && backgroundColor == ""
      ensures fontSize == 30
    {
      show3D, showContent, starAnimation := true, false, false;
      backgroundColor := "";
      fontSize := 30;
    }

    /** handleWidthChange: splits the width into number and unit and sets the scene from
        them alone, whatever the scene was. */
    method HandleWidthChange(width: string)
      requires InGrammar(width)
      modifies this
      ensures CurrentScene() == SceneFor(width)
      ensures fontSize == old(fontSize)
    {
      var numericValue := ParseFloat(width);
      var unit := ReplaceFirst(width, NumberToString(numericValue));
      if unit == "vw" && numericValue.Int? && numericValue.value >= 100 {
        show3D := false;
        showContent := true;
        starAnimation := true;
        backgroundColor := "#fff";
      } else {
        show3D := true;
        showContent := false;
        starAnimation := false;
        backgroundColor := "#320809";
      }
    }

    /** adjustFontSize: the heading is rendered only while show3D holds, so textRef is set
        exactly then; when it is, the heading's size is fitted to the viewport. */
    method AdjustFontSize(viewportWidth: int, measuredWidth: int -> int)
      modifies this
      ensures fontSize == if show3D then Cap(FirstFit(viewportWidth, measuredWidth, StartFontSize))
                          else old(fontSize)
      ensures CurrentScene() == old(CurrentScene())
    {
      if show3D {
        var newFontSize := FitFontSize(viewportWidth, measuredWidth);
        fontSize := newFontSize;
      }
    }
  }

  /** Only the last width counts: the same width twice gives the scene of one call, and a
      non-full width after "100vw" restores the intro scene exactly. */
  method WidthReplay(page: AppContent, first: string, second: string)
    requires InGrammar(first) && InGrammar(second)
    modifies page
    ensures page.CurrentScene() == SceneFor(second)
    ensures first == second ==> page.CurrentScene() == SceneFor(first)
    ensures first == "100vw" && !IsFullWidth(second) ==> page.CurrentScene() == IntroScene
  {
    page.HandleWidthChange(first);
    page.HandleWidthChange(second);
  }
}
