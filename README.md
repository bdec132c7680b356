# Celestial Draw — a Dafny model of the draw-and-simulate core

Celestial Draw is a number-drawing toy. The user picks a highest number and a
count of numbers to draw, then presses start. A 3D scene of drifting
particles (one per number) freezes the chosen particles for a moment and then
reports the drawn numbers in ascending order. This project models the logic
behind that scene and proves properties about it:

- `motion.dfy` (module `Motion`): one particle's animation frame. It moves by
  its velocity, and on each axis it bounces off the walls of the 10-unit box
  and is clamped back inside.
- `draw_selection.dfy` (module `DrawSelection`): the draw's selection as
  specification functions. The pool of particle indices is sampled without
  replacement by removing each pick (`splice`). The drawn numbers are sorted
  ascending.
- `particle_canvas.dfy` (module `ParticleCanvas`): the `Canvas` class, which
  holds the particle array, the `isAnimatingDrawRef` guard and the scheduled
  completion. `InitScene` creates the particles, `Step` is one animation
  frame, `DrawEffect` is the draw effect, `Complete` is the timeout firing and
  `Dispose` is the unmount cleanup.
- `control_panel.dfy` (module `ControlPanel`): the clamps of the two numeric
  inputs and the `disabled={isDrawing}` gating.
- `localization.dfy` (module `Localization`): `t` covers the locale table and
  the English fallback, the key fallback and the `{i}` replacement. It also
  has the two shipped tables and the provider's locale state.
- `page.dfy` (module `CelestialDrawPage`): the page's state (`Page`), and
  `CelestialDraw`, which wires the page, the control panel and the canvas
  together. A draw is then one handshake: the page raises `isDrawing`, the
  canvas samples, the timeout reports, and the page stores the numbers.

Particles are datatype records in an array. The source shares mesh objects
between `particlesRef`, `availableParticles` and `selectedForDraw`; the model
refers to them by their index in that array. A pending completion keeps a
reference to the array it was started on.

`Math.random` and `randFloatSpread` are replaced by values the caller passes
in: a start position and velocity per particle, and a pick per sampling
step. Each pick is an index below the pool's current size. An animation
frame is `Step`. The mount effect runs `initScene` and then calls the frame
function once directly, so a mount or a rebuild ends with one `Step`; every
later `requestAnimationFrame` callback is also `Step`. The `setTimeout`
callback is `Complete`.

Some behaviours of the code are easy to miss; the model follows the code:
- When a draw completes, `isBeingDrawn` is set to false on the drawn
  particles, and the frame step tests only `isBeingDrawn`. So drawn particles
  start moving again; they do not stay frozen.
- Every flag is reset before the pool is filtered. So the pool is always the
  whole particle list, and the draw size is `min(numToDraw, particle count)`.
- The unmount cleanup neither cancels the pending timeout nor clears the
  guard. A rebuild while a draw is pending leaves that completion to mark
  particles of the old array. It still reports and clears the guard later.
- The max-number input has no upper clamp. `max="1000"` is only an HTML
  attribute.
- The canvas itself accepts any `numToDraw`. A negative value makes
  `numbersToSelect` negative, which is not `0`. Sampling then takes nothing
  and the completion reports `[]` after `1000 + 200·n` ms. The control panel
  never passes such a value.

## Model

| member | source | states |
|---|---|---|
| `Motion.ReflectAxis` | src/components/celestial-draw/ParticleCanvas.tsx:122-128 | the result lies within ±B/2; the speed on the axis is unchanged; a coordinate inside the walls keeps its position and velocity; one beyond a wall gets a negated velocity and is put on that wall, on the same side |
| `Motion.Advance` | src/components/celestial-draw/ParticleCanvas.tsx:119-129 | after the move and the three wall tests the particle lies in the box; number and flags are kept; per-axis speeds are unchanged; a move that stays inside the box is just position + velocity with the velocity unchanged |
| `Motion.StepParticle` | src/components/celestial-draw/ParticleCanvas.tsx:117-129 | no contract of its own; `StepFreezesOnlyBeingDrawn` states what a frame does to a particle |
| `Motion.StepFreezesOnlyBeingDrawn` | src/components/celestial-draw/ParticleCanvas.tsx:117-119 | a particle being drawn keeps position and velocity; any other particle moves and ends inside the box |
| `Motion.AdvanceReflectsPerAxis` | src/components/celestial-draw/ParticleCanvas.tsx:122-128 | on each axis on its own, the velocity is negated and the coordinate put on the wall exactly when the moved coordinate is beyond the wall; otherwise both are kept |
| `ParticleCanvas.Canvas.constructor` | src/components/celestial-draw/ParticleCanvas.tsx:32-34 | no particles, guard clear, nothing scheduled |
| `ParticleCanvas.Canvas.InitScene` | src/components/celestial-draw/ParticleCanvas.tsx:84-109 | a fresh particle array with exactly maxNumber particles (none if maxNumber ≤ 0), numbered 1..maxNumber in order, both flags false, at the injected start values (within ±0.4·B); guard and scheduled completion untouched; the canvas invariant holds |
| `ParticleCanvas.Canvas.Dispose` | src/components/celestial-draw/ParticleCanvas.tsx:154-186 | the particle list becomes empty; the guard and a scheduled completion are left as they were (no cancellation) |
| `ParticleCanvas.Canvas.Step` | src/components/celestial-draw/ParticleCanvas.tsx:114-131 | every particle becomes `StepParticle` of itself; the invariant (every particle in the box, speeds within the spawn range, frozen particles exactly those of the pending draw) is preserved |
| `ParticleCanvas.Canvas.ClearAllFlags` | src/components/celestial-draw/ParticleCanvas.tsx:194-202 | every particle has `isDrawn` and `isBeingDrawn` false and is otherwise unchanged |
| `ParticleCanvas.Canvas.Available` | src/components/celestial-draw/ParticleCanvas.tsx:205 | the filtered pool holds exactly the indices of the particles not marked drawn, in ascending order; when no particle is drawn it is the whole list 0..n-1 |
| `ParticleCanvas.Canvas.SampleFrom` | src/components/celestial-draw/ParticleCanvas.tsx:216-223 | the loop selects exactly `Sample(pool, picks)`, marks exactly those particles as being drawn and records their numbers in pick order |
| `ParticleCanvas.Canvas.DrawEffect` | src/components/celestial-draw/ParticleCanvas.tsx:190-244 | without active drawing, particles or a clear guard, nothing changes and nothing is reported; otherwise all flags are reset; a size of 0 reports `[]` at once and clears the guard; else the guard is set, exactly the sampled particles are frozen, and the completion is scheduled with their sorted numbers and delay 1000 + 200·n |
| `ParticleCanvas.Canvas.Complete` | src/components/celestial-draw/ParticleCanvas.tsx:234-242 | exactly the selected particles of the draw's array become drawn and not frozen; every other particle is unchanged; the scheduled numbers are returned (reported once) and the guard is cleared |
| `ParticleCanvas.PendingValuesAreStrictlyAscending` | src/components/celestial-draw/ParticleCanvas.tsx:216-240 | the numbers a scheduled draw reports are one per selected particle, strictly ascending, each within 1..particle count |
| `DrawSelection.Range` | src/components/celestial-draw/ParticleCanvas.tsx:205 | the pool of all indices is 0..n-1 in order |
| `DrawSelection.Sample` | src/components/celestial-draw/ParticleCanvas.tsx:216-223 | sampling by index removal takes as many entries as there are picks and leaves the pool smaller by that many |
| `DrawSelection.RemoveAtKeepsOthers` | src/components/celestial-draw/ParticleCanvas.tsx:222 | `splice(k, 1)` on distinct entries keeps them distinct, removes exactly the k-th entry and shortens the pool by one |
| `DrawSelection.SampleIsPartition` | src/components/celestial-draw/ParticleCanvas.tsx:216-223 | the chosen entries are distinct, disjoint from the rest of the pool, and together with it make up the original pool |
| `DrawSelection.Insert` | src/components/celestial-draw/ParticleCanvas.tsx:225 | inserting adds exactly one element to the multiset |
| `DrawSelection.InsertKeepsAscending` | src/components/celestial-draw/ParticleCanvas.tsx:225 | inserting into an ascending sequence keeps it ascending |
| `DrawSelection.SortAscending` | src/components/celestial-draw/ParticleCanvas.tsx:225 | the numeric sort is ascending and a permutation of its input |
| `DrawSelection.InsertFreshIsStrict` | src/components/celestial-draw/ParticleCanvas.tsx:225 | inserting a new value into a strictly ascending sequence keeps it strictly ascending |
| `DrawSelection.SortDistinctIsStrict` | src/components/celestial-draw/ParticleCanvas.tsx:225 | sorting pairwise different numbers gives a strictly ascending sequence |
| `DrawSelection.RangeIsDistinct` | src/components/celestial-draw/ParticleCanvas.tsx:205 | the full pool has no repeated index and holds exactly 0..n-1 |
| `DrawSelection.SortedNumbersOfDistinct` | src/components/celestial-draw/ParticleCanvas.tsx:216-225 | the sorted numbers of distinct indices below n are as many as the indices, strictly ascending and within 1..n |
| `DrawSelection.DrawResultIsStrictSubrange` | src/components/celestial-draw/ParticleCanvas.tsx:206-225 | a draw reports exactly as many numbers as picks, strictly ascending, each within 1..maxNumber |
| `DrawSelection.StrictlyAscendingFillsRange` | src/components/celestial-draw/ParticleCanvas.tsx:225 | n strictly ascending integers within 1..n are exactly 1, 2, ..., n |
| `DrawSelection.FullDrawReportsEveryNumber` | src/components/celestial-draw/ParticleCanvas.tsx:206-225 | drawing as many numbers as there are particles reports every number 1..maxNumber in order, whatever the picks |
| `ControlPanel.ClampMaxNumber` | src/components/celestial-draw/ControlPanel.tsx:49 | the result is at least 10; a parse of 10 or more is kept; NaN, 0 or anything below 10 gives 10; there is no upper clamp |
| `ControlPanel.ClampNumToDraw` | src/components/celestial-draw/ControlPanel.tsx:74-75 | the result lies in 1..10; values in range are kept; above 10 gives 10; NaN, 0 and negatives give 1 |
| `ControlPanel.MaxNumberChange` | src/components/celestial-draw/ControlPanel.tsx:49-53 | the input fires a change exactly when no draw runs, and then hands over a value ≥ 10 that keeps any parse ≥ 10 |
| `ControlPanel.NumToDrawChange` | src/components/celestial-draw/ControlPanel.tsx:73-80 | the input fires a change exactly when no draw runs, and then hands over a value in 1..10 that keeps any parse in range |
| `Localization.ReplaceAllAbsent` | src/contexts/LocalizationContext.tsx:39 | a global replace of a pattern that does not occur returns the string unchanged |
| `Localization.FillWithoutPlaceholders` | src/contexts/LocalizationContext.tsx:38-40 | when no `{k}` of a remaining argument occurs in the message, the argument loop returns it unchanged |
| `Localization.TranslateWithoutArgs` | src/contexts/LocalizationContext.tsx:37-42 | with no arguments `t` returns the looked-up message as it is |
| `Localization.MissingLocaleFallsBackToEnglish` | src/contexts/LocalizationContext.tsx:34 | a locale without a table translates as English does |
| `Localization.MissingKeyYieldsKey` | src/contexts/LocalizationContext.tsx:35 | a missing or empty entry yields the key's own name, provided the name holds no `{k}` that one of the arguments would fill |
| `Localization.ArgsWithoutPlaceholdersChangeNothing` | src/contexts/LocalizationContext.tsx:37-42 | arguments whose `{i}` does not occur in the message leave it unchanged |
| `Localization.Lookup` | src/contexts/LocalizationContext.tsx:34-35 | no contract of its own; its fallbacks are stated by `MissingKeyYieldsKey` and `ShippedTablesCoverEveryKey` |
| `Localization.ReplaceAll` | src/contexts/LocalizationContext.tsx:39 | no contract of its own; `ReplaceAllAbsent` and `ReplaceAllAtOccurrence` state what the global replace does |
| `Localization.FillFrom` | src/contexts/LocalizationContext.tsx:38-40 | no contract of its own; `FillWithoutPlaceholders`, `SinglePlaceholderIsFilled` and `LaterArgumentsFillEarlierOutput` state the argument loop |
| `Localization.Translate` | src/contexts/LocalizationContext.tsx:33-43 | no contract of its own; its properties are the lemmas `TranslateWithoutArgs`, `MissingLocaleFallsBackToEnglish`, `MissingKeyYieldsKey`, `ArgsWithoutPlaceholdersChangeNothing`, `SinglePlaceholderIsFilled` and `LaterArgumentsFillEarlierOutput` |
| `Localization.ReplaceAllAtOccurrence` | src/contexts/LocalizationContext.tsx:39 | for a pattern whose opening character does not recur in it (every `{i}`), the first occurrence is replaced, the text before it is kept and the scan goes on right after it |
| `Localization.SinglePlaceholderIsFilled` | src/contexts/LocalizationContext.tsx:33-43 | a message with one `{0}` and one argument comes out as the text before it, `String(arg)`, and the text after it |
| `Localization.LaterArgumentsFillEarlierOutput` | src/contexts/LocalizationContext.tsx:38-40 | for every pair of arguments and a message that is `{0}`, the result is the first argument with every `{1}` in it replaced by the second: each argument is applied to the previous step's output |
| `Localization.SecondArgumentFillsFirst` | src/contexts/LocalizationContext.tsx:38-40 | an instance of the previous row: the arguments `"{1}"` and `7` turn `{0}` into `7` |
| `Localization.ShippedTablesCoverEveryKey` | src/contexts/LocalizationContext.tsx:15 | both shipped tables hold every English key with a non-empty text, so `t` never falls back to the key for them |
| `Localization.LocalizationProvider.constructor` | src/contexts/LocalizationContext.tsx:20 | the locale starts as English |
| `Localization.LocalizationProvider.T` | src/contexts/LocalizationContext.tsx:33-43 | `t` at the current locale; a shipped key without arguments yields that locale's own non-empty text |
| `Localization.LocalizationProvider.SetLocale` | src/contexts/LocalizationContext.tsx:28-31 | the locale becomes the given one; the provider has no other state |
| `CelestialDrawPage.Page.constructor` | src/app/page.tsx:16-20 | loading, max number 90, five numbers to draw, no drawn numbers, not drawing |
| `CelestialDrawPage.Page.HandleDrawStart` | src/app/page.tsx:31-35 | the drawn numbers are cleared and `isDrawing` is raised; nothing else changes |
| `CelestialDrawPage.Page.HandleNumbersDrawn` | src/app/page.tsx:37-40 | exactly the received list is stored and `isDrawing` is lowered; nothing else changes |
| `CelestialDrawPage.Page.HandleSceneLoaded` | src/app/page.tsx:42-44 | loading ends and nothing else changes |
| `CelestialDrawPage.Page.SetMaxNumber` | src/app/page.tsx:17 | the max-number state takes the value and nothing else changes |
| `CelestialDrawPage.Page.SetNumToDraw` | src/app/page.tsx:18 | the numbers-to-draw state takes the value and nothing else changes |
| `CelestialDrawPage.Page.ShowResults` | src/app/page.tsx:105 | no contract of its own; `TimerFires` and `DrawRound` state when the results card shows |
| `CelestialDrawPage.CelestialDraw.constructor` | src/app/page.tsx:16-44 | after mounting, loading has ended and nothing is drawn or shown; the scene holds 90 particles, particle j numbered j+1, unflagged and at its injected start values after the first frame's step; the joint invariant holds |
| `CelestialDrawPage.CelestialDraw.Frame` | src/components/celestial-draw/ParticleCanvas.tsx:114-131 | an animation frame steps every particle and keeps the joint invariant |
| `CelestialDrawPage.CelestialDraw.ClickStartDraw` | src/app/page.tsx:31-35 | while a draw runs, a click changes nothing; otherwise the page is drawing with no results shown, and the canvas has scheduled the sorted draw of `numToDraw` numbers from 1..maxNumber with delay 1000 + 200·numToDraw; the selected particles are `Sample` of the first `numToDraw` picks; every particle keeps its position and velocity, has its flags reset and is frozen exactly when selected; `isDrawing` holds exactly while the canvas guard is set |
| `CelestialDrawPage.CelestialDraw.TimerFires` | src/app/page.tsx:37-40 | the scheduled numbers reach the page, which then holds `numToDraw` strictly ascending numbers within 1..maxNumber, is no longer drawing and shows the results; exactly the selected particles become drawn and move again, and every other particle is unchanged |
| `CelestialDrawPage.CelestialDraw.EnterMaxNumber` | src/components/celestial-draw/ControlPanel.tsx:49-53 | ignored while drawing; otherwise max number becomes the clamped value; when it changed, the scene is rebuilt with particles numbered 1..maxNumber at the injected start values and takes its first frame's step, and when it did not, the canvas and every particle are kept |
| `CelestialDrawPage.CelestialDraw.EnterNumToDraw` | src/components/celestial-draw/ControlPanel.tsx:73-80 | ignored while drawing; otherwise numbers to draw becomes the clamped value |
| `CelestialDrawPage.DrawRound` | src/app/page.tsx:97-105 | start, a second click during the draw, frames and the timeout leave the page showing exactly the sorted draw of the first click's picks; the second click is dropped; the particle array is the same one, so rounds can follow each other |

## Left out

- Three.js scene plumbing is not modelled: scene, camera, renderer, orbit controls, lighting, starfield, the resize handler and the dispose traversal. It is foreign library code with no logic to check.
- Colours are not modelled: the random HSL hues, the recolouring on reset and the accent colour. They are visual only.
- Scheduling is explicit. The first frame of the mount effect and each `requestAnimationFrame` callback are calls of `Step`. The `setTimeout` is the `pending` record, and the callback is a call of `Complete`. The delay is recorded, but time is not modelled. `cancelAnimationFrame` in the cleanup is not modelled.
- Randomness is passed in by the caller (spawn values and picks). The model makes no claim that the draw is uniform.
- Coordinates are Dafny reals, so floating-point rounding is not modelled.
- `initScene`'s early return when there is no mount element is React lifecycle and is not modelled. So is the mount and hydration gating of the localization provider and of the page.
- The canvas's `onSceneLoaded` and `onNumbersDrawn` callbacks are wired by `CelestialDraw`. `DrawEffect` and `Complete` return the report, and the caller passes it to the page.
- The draw effect also re-runs when `isDrawing` drops or when an input changes while no draw runs. `isDrawingActive` is then false, so those runs do nothing, and `CelestialDraw` does not issue them.
- Replacement in `t` is literal. JavaScript's special replacement patterns (`$&`, `$1`, …) inside `String(arg)` are not modelled. Numeric arguments are integers only.
- `parseInt` is abstracted as an `Option<int>` input, with `None` for NaN.
- All JSX layout, `LanguageSwitcher.tsx`, `LoadingSpinner.tsx` and `layout.tsx` hold only UI and are not part of this model. The page passes `isLoadingScene` to the control panel, which ignores it, so the model does not gate the start button on loading.
