# Intro sequencer and layout glue of the portfolio landing page

This project models the discrete logic of a personal portfolio page written in React:

- the `FromShellToName` intro, a timer-driven text sequencer that types `whoami` on a
  fake shell prompt, scrambles the name `Weslley Miranda` into view, then hides itself.
  It exists in two versions, `src/components/whoami/FromShellToName.tsx` (with a fade
  phase) and `src/components/layout/sections/whoami/FromShellToName.tsx` (without it, and
  with a guarded removal timer). Both are modelled.
- two pieces of `AppContent` (`src/components/layout/AppContent.tsx`):
  - `handleWidthChange` decides between the intro scene and the content from the
    animated width string.
  - `adjustFontSize` counts the heading's font size down until it fits the viewport.

## How the model is built

- `scramble.dfy` (module `Scramble`): the constants (`TARGET_TEXT`, `CYCLES_PER_LETTER`,
  `TYPING_TEXT`, `CHARS`) and one scramble frame. `Frame` is a function of the counter
  `pos` and of the random symbols of that tick, given as a parameter `picks` whose
  elements are all in `CHARS`.
- `terminal.dfy` (module `Terminal`): the state both versions share, a `Shell` value.
  It holds the React state of the two text lines and the closure counters `typingIndex`
  and `pos`. It also defines what one firing of the typing, blink and scramble intervals
  does, and the invariant `ShellInv`.
- `whoami.dfy` and `whoami_section.dfy` (modules `Whoami` and `WhoamiSection`): one per
  version. In each:
  - an `Event` is one firing of an interval or timer;
  - `Enabled` says when that timer can fire (armed, not yet fired or cleared);
  - `Step` says what the firing does;
  - `Run` replays any sequence of firings the timers allow, in any interleaving.
  The lemmas hold for every such sequence. The class `FromShellToName` has the React state
  and counters as fields. Each callback is a method whose `ensures` ties the new state to
  `Step` of the old one.
- `width.dfy` (module `Width`): `parseFloat`, `Number.prototype.toString` and
  `String.prototype.replace` (first occurrence, string pattern) on a restricted grammar
  of width strings. `layout.dfy` (module `Layout`): the `AppContent` class, the scene
  decision and the font-size countdown loop.

Behaviour of the code that the model keeps as written:

- The lock test `pos / CYCLES_PER_LETTER > index` divides in floating point. So position
  `i` locks when `pos > 2 * i`, i.e. at counter `2i + 1`. The first letter is revealed on
  the second tick (counter 1), and the frame at counter 29 (the 30th tick) already shows the whole
  name. `stopScramble` then writes it once more.
- The 2-second pause before scrambling is a timer armed when `isTypingDone` becomes true.
  The blink interval keeps running to the end. In the second version the removal timer is
  armed once on mount, with `isScrambleDone` false, so that first firing does nothing. It
  is armed again when the scramble finishes.
- Scene switching is decided by parsing the formatted width string, not by a progress
  threshold.

Timing is not modelled: only which timers are armed. Any interleaving of armed timers is
allowed, which covers the real schedule. The random symbol choice is a parameter. The DOM
measurement in `adjustFontSize` is a function parameter `measuredWidth` from font size to
measured width. The viewport width is an integer parameter.

## Model

| member | source | states |
|---|---|---|
| Scramble.Frame | src/components/whoami/FromShellToName.tsx:28-39 | a frame has 15 characters; every position with `pos/2 > i` holds the name's letter, every other one a symbol of `CHARS` |
| Scramble.FrameRevealsPrefix | src/components/whoami/FromShellToName.tsx:28-39 | a frame position shows the true letter iff it lies among the first `Revealed(pos)` positions (left to right, one per two ticks) |
| Scramble.FrameIsTargetIff | src/components/whoami/FromShellToName.tsx:28-45 | a frame is exactly "Weslley Miranda" iff `pos >= 29`; every earlier frame shows at least one symbol |
| Scramble.LockedStaysLocked | src/components/layout/sections/whoami/FromShellToName.tsx:25-32 | a position locked at `pos` stays locked with the same letter at every later counter, whatever symbols are drawn |
| Terminal.TypingTickSpec | src/components/whoami/FromShellToName.tsx:58-68 | a typing tick before the end types the next letter of "whoami"; after all 6 it leaves the text, sets `isTypingDone`, and changes no other field |
| Terminal.BlinkTickSpec | src/components/whoami/FromShellToName.tsx:71-73 | a blink tick flips `showUnderscore`, changes nothing else, and two ticks restore the state |
| Terminal.StartScrambleSpec | src/components/whoami/FromShellToName.tsx:24-27 | `scramble()` starts the interval with `pos = 0`, "whoami" on the command line and an empty name line |
| Terminal.ScrambleTickSpec | src/components/whoami/FromShellToName.tsx:27-54 | a scramble tick shows the frame of the current counter and advances it; the tick reaching 30 shows the name and sets `isScrambleDone` |
| Whoami.StepKeepsInv | src/components/whoami/FromShellToName.tsx:27-121 | every timer firing keeps the sequencer invariant; only typing ticks advance typing, only scramble ticks advance `pos` |
| Whoami.RunKeepsInv | src/components/whoami/FromShellToName.tsx:13-121 | any sequence of firings keeps the invariant, and the typing and scramble progress equal the number of their ticks |
| Whoami.TypingAfterTicks | src/components/whoami/FromShellToName.tsx:58-67 | after k <= 6 typing ticks the command line is the first k letters of "whoami"; the 7th stops typing with the text unchanged; there is no 8th |
| Whoami.ScrambleAfterTicks | src/components/whoami/FromShellToName.tsx:24-54 | after k < 30 scramble ticks the name line is a frame of counter k-1; after exactly 30 it is "Weslley Miranda" and the scramble is done, and not before |
| Whoami.PhasesInOrder | src/components/whoami/FromShellToName.tsx:82-121 | in every reachable state: scramble started only after typing; transparent only after the scramble is done; content removed only after transparency |
| Whoami.ScrambleStartResets | src/components/whoami/FromShellToName.tsx:84-87 | the scramble-start timer shows exactly "whoami" and an empty name line, which in a reachable state they already were |
| Whoami.Cursors | src/components/whoami/FromShellToName.tsx:129-161 | the command cursor shows iff typing is not done and the blink flag is on; the two cursors never show together |
| Whoami.FromShellToName.constructor | src/components/whoami/FromShellToName.tsx:15-21 | the mounted state: empty lines, cursor on, all phase flags off, content visible |
| Whoami.FromShellToName.OnTypingInterval | src/components/whoami/FromShellToName.tsx:60-68 | the typing callback performs the typing step and keeps the invariant |
| Whoami.FromShellToName.OnBlinkInterval | src/components/whoami/FromShellToName.tsx:71-73 | the blink callback performs the blink step |
| Whoami.FromShellToName.OnScrambleTimer | src/components/whoami/FromShellToName.tsx:84-88 | the scramble-start callback resets both lines and calls `scramble()` |
| Whoami.FromShellToName.Scramble | src/components/whoami/FromShellToName.tsx:24-27 | `scramble()` sets a fresh counter and starts the interval, touching nothing else |
| Whoami.FromShellToName.OnScrambleInterval | src/components/whoami/FromShellToName.tsx:27-47 | the scramble callback shows the frame, increments `pos` and stops at 30 |
| Whoami.FromShellToName.StopScramble | src/components/whoami/FromShellToName.tsx:50-54 | `stopScramble()` shows the name and sets `isScrambleDone`, touching nothing else |
| Whoami.FromShellToName.OnFadeTimer | src/components/whoami/FromShellToName.tsx:98-108 | the fade timer, armed by `isScrambleDone`, sets `isWhoamiTransparent` |
| Whoami.FromShellToName.OnRemoveTimer | src/components/whoami/FromShellToName.tsx:111-121 | the removal timer, armed by `isWhoamiTransparent`, hides the content |
| WhoamiSection.StepKeepsInv | src/components/layout/sections/whoami/FromShellToName.tsx:22-84 | every firing keeps the invariant of this version, including the captured `isScrambleDone` of the removal timer |
| WhoamiSection.RunKeepsInv | src/components/layout/sections/whoami/FromShellToName.tsx:13-84 | any sequence of firings keeps the invariant, with progress equal to the number of ticks |
| WhoamiSection.TypingAfterTicks | src/components/layout/sections/whoami/FromShellToName.tsx:45-55 | after k <= 6 typing ticks the command line is the first k letters of "whoami"; the 7th stops typing without changing it |
| WhoamiSection.ScrambleAfterTicks | src/components/layout/sections/whoami/FromShellToName.tsx:22-43 | after exactly 30 scramble ticks the name line is "Weslley Miranda" and `isScrambleDone` holds; earlier ones show frames |
| WhoamiSection.ScrambleStartKeepsText | src/components/layout/sections/whoami/FromShellToName.tsx:67-77 | this version's scramble start leaves both lines unchanged and only starts the interval |
| WhoamiSection.RemovalGuarded | src/components/layout/sections/whoami/FromShellToName.tsx:79-84 | the removal timer hides the content iff its callback saw the scramble done; an earlier firing leaves it visible |
| WhoamiSection.HiddenOnlyAfterScramble | src/components/layout/sections/whoami/FromShellToName.tsx:79-84 | in every reachable state hidden content implies `isScrambleDone`, and after the scramble a removal timer stays armed until it hides the content |
| WhoamiSection.Cursors | src/components/layout/sections/whoami/FromShellToName.tsx:92-124 | the command cursor shows iff `!isTypingDone && showUnderscore`; the two cursors never show together |
| WhoamiSection.FromShellToName.constructor | src/components/layout/sections/whoami/FromShellToName.tsx:14-20 | the mounted state, with the removal timer armed on mount seeing `isScrambleDone` false |
| WhoamiSection.FromShellToName.OnTypingInterval | src/components/layout/sections/whoami/FromShellToName.tsx:47-55 | the typing callback performs the typing step |
| WhoamiSection.FromShellToName.OnBlinkInterval | src/components/layout/sections/whoami/FromShellToName.tsx:57-59 | the blink callback performs the blink step |
| WhoamiSection.FromShellToName.OnScrambleTimer | src/components/layout/sections/whoami/FromShellToName.tsx:69-71 | the scramble-start callback calls `scramble()` only |
| WhoamiSection.FromShellToName.Scramble | src/components/layout/sections/whoami/FromShellToName.tsx:22-24 | `scramble()` sets a fresh counter and starts the interval |
| WhoamiSection.FromShellToName.OnScrambleInterval | src/components/layout/sections/whoami/FromShellToName.tsx:24-36 | the scramble callback shows the frame, increments `pos`, stops at 30 and re-arms the removal timer |
| WhoamiSection.FromShellToName.StopScramble | src/components/layout/sections/whoami/FromShellToName.tsx:39-43 | `stopScramble()` shows the name and sets `isScrambleDone` |
| WhoamiSection.FromShellToName.RemovalEffect | src/components/layout/sections/whoami/FromShellToName.tsx:79-84 | the effect on `isScrambleDone` re-arms the removal timer with the current value captured |
| WhoamiSection.FromShellToName.OnRemovalTimer | src/components/layout/sections/whoami/FromShellToName.tsx:80-82 | the removal callback hides the content only if its captured `isScrambleDone` is true |
| Width.NatToStringDigits | src/components/layout/AppContent.tsx:69-70 | the printed form of a natural number is a non-empty digit string whose value is that number |
| Width.ParseCanonical | src/components/layout/AppContent.tsx:69-70 | for a printed integer followed by a unit that ends the number, `parseFloat` reads the integer back and the unit is the input with the printed number removed |
| Width.ReplaceKeepsHead | src/components/layout/AppContent.tsx:70 | `replace` with a pattern that is not a prefix keeps the first character |
| Width.FullWidthIff | src/components/layout/AppContent.tsx:69-71 | a width passes the `unit === "vw" && numericValue >= 100` test iff it is exactly the printed form of some n >= 100 followed by "vw" |
| Width.KnownWidths | src/components/layout/AppContent.tsx:69-71 | "100vw" splits into (100, "vw") and is full; "16rem" splits into (16, "rem") and is not |
| Width.NumberIsNotFull | src/components/layout/AppContent.tsx:68-71 | a plain number passed to the callback never counts as full width |
| Width.NonNumericIsNotFull | src/components/layout/AppContent.tsx:69-71 | a width with no number in front parses to NaN and never counts as full |
| Layout.SceneForCanonical | src/components/layout/AppContent.tsx:71-81 | `<n><unit>` gives show3D=false, showContent=true, starAnimation=true, background "#fff" iff the unit is "vw" and n >= 100, and the intro scene with "#320809" otherwise |
| Layout.ContentSceneIff | src/components/layout/AppContent.tsx:68-82 | the content scene is chosen exactly for canonical `<n>vw` with n >= 100; every other width gives the intro scene |
| Layout.FirstFitBounds | src/components/layout/AppContent.tsx:93-99 | the countdown stops between 10 and its starting size |
| Layout.FirstFitIsFirst | src/components/layout/AppContent.tsx:93-99 | the stopping size fits the viewport or is 10, and every larger size up to the start was measured wider than the viewport |
| Layout.FitFontSize | src/components/layout/AppContent.tsx:89-105 | the loop's result lies in [10, 60] and is the capped first fitting size scanning down from 100 |
| Layout.FittedSizeMeaning | src/components/layout/AppContent.tsx:89-105 | a final size below 60 fits the viewport or is 10, and every size above it up to 100 was too wide |
| Layout.FitsAtStartGivesCap | src/components/layout/AppContent.tsx:89-105 | text that fits at 100px gets the cap 60 |
| Layout.AppContent.constructor | src/components/layout/AppContent.tsx:19-31 | initial state: 3D scene shown, content and star animation off, no inline background, font size 30 |
| Layout.AppContent.HandleWidthChange | src/components/layout/AppContent.tsx:68-82 | the new scene is `SceneFor(width)`, independent of the previous state; the font size is unchanged |
| Layout.AppContent.AdjustFontSize | src/components/layout/AppContent.tsx:86-110 | while the heading is rendered (show3D) the font size becomes the fitted size; otherwise nothing changes; the scene is untouched |
| Layout.WidthReplay | src/components/layout/AppContent.tsx:68-82 | after two calls the scene is that of the last width: the same width twice equals once, and a non-full width after "100vw" restores the intro scene exactly |

## Left out

- Wall-clock durations (200 ms, 300 ms, 2 s, 50 ms, 0.5 s, 2.5 s, 8 s): only which timers are armed is modelled, and any interleaving of armed timers is allowed.
- Timer and listener cleanup on unmount, the debounce helper and listener registration: timer plumbing with no decision logic.
- The random symbol choice: it is the `picks` parameter of a scramble tick.
- Scramble.Frame: takes one pick per position; the source draws a random symbol only for unlocked positions.
- Opacity, scale and other framer-motion animation props, and the pulse styling of the cursor: presentation only.
- Width.ParseFloat and Layout.AppContent.HandleWidthChange: cover only the restricted grammar: an optional sign, 1 to 15 digits and a unit that ends the number, or a string that is empty or starts with an ASCII letter other than `I`. Fractions, exponents, leading whitespace, longer digit runs and `Infinity` depend on `parseFloat`/`toString` floating-point behaviour and are outside the model.
- Layout.AppContent.AdjustFontSize: the writes of `textRef.current.style.fontSize` inside the loop are not kept: `measuredWidth` stands for measuring after each write. The DOM is not modelled.
- The load handler (scroll to top, body overflow), the 8-second `isVisible` timer and the scroll-progress computations of `AppContent`: DOM plumbing and float division.
- All 3D, particle, shader and scroll-interpolation code (BlackHole, Star, StarsGroup, DisintegrateParticles, ShootingStarsCanvas, MotionBox, GlassScroll, AnimatedStarWithText, 3D_Gradients) and App.tsx composition: floating-point geometry, randomness and calls into rendering libraries.
