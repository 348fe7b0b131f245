# Portfolio page script: typewriter, background population, in-page links

This project models, in Dafny, the three pieces of logic in the portfolio
site's front-end script (`script.js`) that can be stated apart from the
browser:

- **The typewriter effect** (module `Typewriter`). The ".typing" element
  cycles through the role words " Lecturer", " Researcher" and
  " Mathematician". The effect is three variables: the word index, the
  character index and the deleting flag. A class `TypeEffect` holds them,
  and its `Tick` method updates them in place as the page's `tick` does.
  `Tick` returns the text displayed and the delay chosen. Its contract ties
  it to the pure step function `Next`. Lemmas over `Run` (k ticks) and
  `Transcript` (the texts k ticks display) prove three things. Each word is
  typed out one character at a time and deleted one character at a time.
  Each word takes 2·length + 2 ticks. The whole effect repeats every 74
  ticks.
- **The size of the animated background's populations** (modules
  `Population` and `MathBackground`). The particle count is the viewport
  area over 12000, rounded as `Math.round` does and clamped to 48..160.
  There are max(6, round(0.06·n)) floating symbols for n particles. The
  class `Background` holds the viewport size and the two populations as
  sequence fields. `InitParticles` empties both and refills them with
  loops. `Resize` records the new viewport size and rebuilds them. The
  values `Math.random()` returns are an input: a stream of draws in [0, 1),
  numbered in the order in which the rebuild makes its calls.
- **In-page navigation links** (module `NavLinks`). A click is intercepted
  only when the `href` starts with `#`. The target id is the `href` without
  its first character. The fragment pushed to the history is `"#" + id`,
  which is the `href` again.

## Model

| member | source | states |
|---|---|---|
| `Typewriter.Next` | script.js:78-93 | The text shown is the prefix of the current word of length charIndex. Well-formedness is kept. The mode flips exactly when the word is full while typing or empty while deleting. Without a flip, charIndex moves by exactly one and nothing else changes, with a keystroke or backspace delay. At a flip, charIndex stays. Only the flip back to typing advances the word, to (wordIndex + 1) mod 3. The pause is 700 ms entering deletion and 900 ms entering typing. |
| `Typewriter.Run` | script.js:78-95 | Any number of ticks from a well-formed state leaves charIndex within the current word and wordIndex within the word list. |
| `Typewriter.Transcript` | script.js:79-81 | k ticks display exactly k texts. |
| `Typewriter.RunSplit` | script.js:85-92 | Running a + b ticks is running a and then b. The texts displayed are those of the two runs, concatenated. |
| `Typewriter.TypingPhase` | script.js:83-85 | While typing, k ticks type exactly k characters. The i-th tick shows the word cut at c + i. |
| `Typewriter.DeletingPhase` | script.js:86-88 | While deleting, k ticks delete exactly k characters. The i-th tick shows the word cut at c - i. |
| `Typewriter.CycleEnd` | script.js:89-92 | From the empty start of word w, 2·length + 2 ticks reach the empty start of word (w + 1) mod 3, in typing mode. |
| `Typewriter.CycleTranscript` | script.js:79-92 | During that cycle, the texts displayed grow one character at a time from empty to the full word, then shrink one character at a time from the full word back to empty. |
| `Typewriter.FullPass` | script.js:75-92 | From the start of any word, 74 ticks (one pass through the three words) return to the same state. |
| `Typewriter.Periodic` | script.js:75-92 | From the start of a word, the state after k ticks equals the state after k mod 74 ticks. |
| `Typewriter.TypeEffect.constructor` | script.js:75-76 | The effect starts on the first word, with nothing shown, in typing mode. |
| `Typewriter.TypeEffect.Tick` | script.js:78-93 | It returns the prefix of the current word of length charIndex. It updates the three variables in place exactly as `Next` prescribes. It keeps the indices in range. |
| `Population.RoundDiv` | script.js:173 | `Math.round(p / q)` for q > 0: the result r satisfies r - 1/2 <= p/q < r + 1/2, so halves round up. |
| `Population.RoundDivUnique` | script.js:173 | Only one integer meets that rounding condition, so `RoundDiv` is exactly JavaScript's rounding. |
| `Population.RoundDivMonotone` | script.js:173 | A larger numerator never rounds to a smaller integer. |
| `Population.IdealCount` | script.js:172-173 | The particle count lies in 48..160. It is 48 exactly when the area is below 582000. It is 160 exactly when the area is at least 1914000. In between, it is the integer nearest to area / 12000. |
| `Population.IdealCountMonotone` | script.js:172-173 | A larger viewport area never gets fewer particles. |
| `Population.SymbolCount` | script.js:203 | The symbol count is at least 6. It is exactly 6 when n <= 108. Above that, it is the integer nearest to 0.06·n. |
| `Population.SymbolCountRange` | script.js:173-174 | For every particle count a viewport can produce (48..160), there are 6 to 10 symbols, and 10 at 160 particles. |
| `MathBackground.Rand` | script.js:162 | `rand(min, max)` of a draw in [0, 1) lies in [min, max), and equals min when min = max. |
| `MathBackground.NewParticle` | script.js:178-181 | A new particle's fields lie in the ranges the page draws them from. Its position is inside the viewport. Its speed is in [8, 30), its heading in [0, 2π), its radius in [0.6, 2.6) and its opacity in [0.18, 0.8). |
| `MathBackground.GlyphIndex` | script.js:206 | `Math.floor(u·12)` for a draw u is the integer part of u·12, and names one of the 12 glyphs. |
| `MathBackground.NewSymbol` | script.js:205-213 | A new symbol's glyph is one of the fixed 12 and its opacity starts at 0. Its position is inside the viewport. Its size is in [14, 34), its life in [2.4, 7) and its phase in [0, 2π). |
| `MathBackground.Background.constructor` | script.js:157-160 | Set-up sizes the background to the viewport and populates it, so the population invariant holds from the start. |
| `MathBackground.Background.InitParticles` | script.js:191-215 | Afterwards there are exactly n particles and exactly `SymbolCount(n)` symbols. Each one is built from its own draws, in order, so no earlier element survives. The viewport size is unchanged. |
| `MathBackground.Background.Resize` | script.js:164-175 | The new size is recorded. The populations are rebuilt to `IdealCount(width·height)` particles (48..160) and the matching 6..10 symbols, and the population invariant holds. |
| `NavLinks.TargetId` | script.js:33 | `href.slice(1)` is the href without its first character, one shorter. |
| `NavLinks.Fragment` | script.js:37 | The fragment for an id is '#' followed by the id. |
| `NavLinks.OnClick` | script.js:29-40 | The default navigation is cancelled exactly when the href starts with '#'. The page then scrolls exactly when the href minus its '#' names an element, and to that element. It pushes a fragment exactly when it scrolls, and the fragment it pushes is the original href. |
| `NavLinks.FragmentRoundTrip` | script.js:30-37 | For an intercepted href, `"#" + href.slice(1)` is the href again. |
| `NavLinks.IdRoundTrip` | script.js:33-37 | The fragment of any id is intercepted, and slicing off its '#' gives the id back. |

## Left out

- The typewriter's timing: `setTimeout` scheduling and the random jitter
  added to the keystroke (up to 60 ms) and backspace (up to 30 ms) delays.
  A delay is modelled by its kind, and a pause by its fixed length.
- The DOM write `element.textContent = displayed`. `Tick` returns the text
  instead.
- Particle velocities: the page stores `vx = cos(angle)·speed` and
  `vy = sin(angle)·speed`. The model keeps the speed and the heading angle
  instead, because trigonometry is outside the model.
- Floating point: the model computes `area / 12000`, `n·0.06` and the
  `rand` products in exact rational arithmetic, not IEEE-754 doubles.
  `TwoPi` is the double value of 2π written as a decimal.
- The rest of `resize`: canvas pixel dimensions from the device pixel ratio,
  CSS sizes and the context transform. These are drawing set-up. The
  160 ms debounce of resize events is timing.
- The animation loop and everything it draws or moves: the sine waves,
  particle steps and edge wrapping, proximity lines, symbol drift and fade,
  the occasional large symbol, the frame-time clamp and the visibility
  throttle. This is floating-point numerics feeding draw calls. The model
  treats the populations only as they stand after a rebuild.
- `scrollIntoView` and `history.pushState` are effects. `OnClick` reports
  them as the `ClickEffect` it returns. The document's elements appear
  only as the set of their ids.
- The other browser wiring: card and section intersection observers,
  active-link highlighting, the progress bar, deep-link scrolling on load,
  the profile photo tilt, the back-to-top button and the CV download
  labels. These are DOM and style updates with no logic beyond one-line
  syncs.
