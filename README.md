# Particle field and billing switch of the marketing site

This Dafny project models the two pieces of behaviour in the site's components that are more than markup.

- **The hero header's particle field** (`ParticleCanvas` in `components/HeroSection.tsx`). When the canvas mounts, 60 particles are seeded from random draws inside the canvas rectangle. Each animation frame does the following:
  - strokes a line between every pair of particles closer than 120 logical pixels, with an alpha that fades with distance;
  - fills one disc per particle;
  - moves every particle by its velocity, negating a velocity component when the new coordinate is out of bounds;
  - requests the next frame only while the canvas is visible.

  An intersection observer switches visibility and restarts the loop when the canvas scrolls back into view. A resize listener sizes the backing store to the logical size times the device pixel ratio. The cleanup hides the canvas, cancels the last requested frame, disconnects the observer and removes the listener.
- **The pricing section's billing period** (`components/PricingSection.tsx`). It has a yearly/monthly state cell. A switch button flips it. Two labels set it, each only when it differs. The Pro card's price and its struck-through old price follow it, and so does the "-20%" badge next to the yearly label. Each card also shows its feature rows, with a check or close mark decided by the feature alone.

Files:
- `option.dfy`: the `Option` type.
- `particle_field.dfy` (module `ParticleField`): particles, seeding, the link pass, the disc-and-move pass, and bounds over many frames.
- `particle_canvas.dfy` (module `ParticleCanvasEffect`): class `ParticleCanvas`, the mounted effect with its host state.
- `pricing.dfy` (module `Pricing`).

Modelling choices:
- Coordinates are `real`.
- The random draws, the canvas rectangle and the pixel ratio are parameters.
- Drawing calls become emitted records:
  - `Link(i, j, dist2)` for a stroked line;
  - `Disc(index, x, y, r, alpha, color)` for a filled disc.
- The square root is avoided. The pass compares squared distances with 14400. A line's alpha is stated for any `d >= 0` with `d * d == dist2`.
- The browser's frame scheduler is part of the object's state:
  - `pending` is the set of frame handles requested and neither fired nor cancelled;
  - `nextFrameId` is the handle the next request returns.

  More than one frame loop can be alive at once. The invariant `Valid()` bounds their number by one plus the number of times the canvas came back into view.

Behaviour of the code that is easy to misread; the model follows it as written:
- Visibility starts as visible, because `isVisible` is initialised to `true` (components/HeroSection.tsx:50). Setup ends with a direct `draw()`, so one frame is outstanding right after mounting.
- Positions are never clamped to `[0, width] × [0, height]`:
  - `OvershootExample` shows one frame leaving the bounds.
  - `OvershootBound` proves the real guarantee: while the size is fixed, a coordinate that starts inside stays within one frame's travel of the bounds.
  - `StuckOutside` proves that a coordinate left outside by a shrinking resize, and still outside after its next move, never comes back. A coordinate just past the new edge and moving inward does come back: x = 200.1 with vx = −0.2 in a 200-wide canvas ends at 199.9 (`ReturnsInward`).
- A particle at x = 199 with vx = 0.3 in a 200-wide canvas does not bounce, because 199.3 is not beyond 200 (`NoFlipInside`).
- Cleanup cancels only the most recently requested frame. A frame requested by an earlier loop can still fire once afterwards. It draws and requests nothing (`TwoLoopsAfterQuickReshow`).
- A zero-sized canvas gets no special case: `draw` (components/HeroSection.tsx:52-84) and the observer setup (components/HeroSection.tsx:86-95) run the same whatever the size, and neither has a fallback for a missing observer or frame scheduler.

## Model

| member | source | states |
|---|---|---|
| `ParticleCanvasEffect.PixelRatio` | components/HeroSection.tsx:17 | the ratio is never 0: it is the reported ratio when one is reported and non-zero, and 1 otherwise |
| `ParticleCanvasEffect.ResizeExamples` | components/HeroSection.tsx:17-24 | a 300×200 canvas at ratio 2 gets a 600×400 backing store; with no ratio, or ratio 0, the backing store is 300 wide |
| `ParticleField.SeedParticle` | components/HeroSection.tsx:38-46 | a seeded particle:<br>- has x in [0, width) and y in [0, height) (only 0 when the size is 0);<br>- has vx, vy in [-0.2, 0.2), radius in [0.5, 2.5) and alpha in [0.1, 0.6);<br>- is orange ("251,98,63") iff its first draw is below 0.3, and light ("245,245,245") otherwise |
| `ParticleField.Seeded` | components/HeroSection.tsx:33-48 | seeding makes one particle per draw record, each in the ranges above, orange exactly when its colour draw is below 0.3 |
| `ParticleField.SeedParticles` | components/HeroSection.tsx:33-48 | the seeding loop fills a fresh array whose contents are the seeded particle list |
| `ParticleField.LinkThreshold` | components/HeroSection.tsx:60-61 | comparing the squared distance with 14400 decides the same as comparing the distance with 120 |
| `ParticleField.LinkAlpha` | components/HeroSection.tsx:63 | below the threshold, the stroke alpha is in (0, 0.08], and equals 0.08 only at distance 0 |
| `ParticleField.LinkAlphaDecreasing` | components/HeroSection.tsx:63 | a farther pair gets a strictly fainter line |
| `ParticleField.RowLinksFacts` | components/HeroSection.tsx:57-69 | the inner loop for particle i, run up to index m, strokes exactly the near pairs (i, j) with i < j < m, with their squared distances, in increasing j |
| `ParticleField.LinkPassFacts` | components/HeroSection.tsx:56-70 | the outer loop, run for the first n particles, strokes exactly the near pairs i < j with i < n, in loop order |
| `ParticleField.Links` | components/HeroSection.tsx:56-70 | a frame's lines are exactly the near pairs i < j, each with its squared distance, in loop order (outer index, then inner index) |
| `ParticleField.LinksVisitPairsOnce` | components/HeroSection.tsx:56-70 | the link pass strokes a line for a pair i < j iff the pair is within the threshold; every line belongs to such a pair, with that pair's squared distance; no pair is stroked twice |
| `ParticleField.LinkAlphaInRange` | components/HeroSection.tsx:56-70 | every stroked line is shorter than 120 and has alpha in (0, 0.08] |
| `ParticleField.LinkAtFifty` | components/HeroSection.tsx:58-63 | particles at (0,0) and (50,0) produce exactly one line, with alpha 7/150 (0.08 × (1 − 50/120)) |
| `ParticleField.StrokeLinks` | components/HeroSection.tsx:56-70 | the nested loops emit exactly the lines of the link pass, in loop order |
| `ParticleField.Bounce` | components/HeroSection.tsx:77-80 | one axis of one frame: the coordinate moves by its velocity; the velocity is negated iff the new coordinate is below 0 or beyond the size, and kept otherwise, so the speed never changes |
| `ParticleField.Moved` | components/HeroSection.tsx:77-80 | one particle's move: both coordinates move by their velocities, each velocity component is negated iff its new coordinate is out of bounds on that axis, and radius, alpha and colour are kept |
| `ParticleField.MovedIsBounce` | components/HeroSection.tsx:77-80 | a particle's move is the one-axis move on x with the width and on y with the height, so the frame-count lemmas on one axis apply to every particle |
| `ParticleField.MoveAll` | components/HeroSection.tsx:72-81 | the move keeps the particle count and moves every particle, in place of its old state |
| `ParticleField.FrameMovesEachParticle` | components/HeroSection.tsx:72-81 | a frame keeps the particle count. Each particle moves by exactly its velocity. A velocity component is negated iff the new coordinate on that axis is below 0 or beyond the size, and is kept otherwise. Speed, radius, alpha and colour do not change |
| `ParticleField.Discs` | components/HeroSection.tsx:72-76 | one disc per particle, in order, at the particle's position before it moves, with its radius, alpha and colour |
| `ParticleField.FillAndMove` | components/HeroSection.tsx:72-81 | the disc-and-move loop emits the discs of the old positions and leaves the array equal to every particle moved once |
| `ParticleField.RecoveringForever` | components/HeroSection.tsx:77-80 | while the size is fixed, a coordinate inside the bounds or one move from them stays so on every later frame, and its speed never changes |
| `ParticleField.OvershootBound` | components/HeroSection.tsx:77-80 | while the size is fixed, a coordinate that starts inside [0, size] stays within [−abs(v), size + abs(v)] on every later frame |
| `ParticleField.StuckOutside` | components/HeroSection.tsx:77-80 | a coordinate that is out of bounds, and still out after its next move, stays out of bounds on every later frame |
| `ParticleField.OvershootExample` | components/HeroSection.tsx:77-79 | x = 199.9 moving at 0.2 in a 200-wide canvas ends at 200.1, outside the bounds, with its velocity negated |
| `ParticleField.ReturnsInward` | components/HeroSection.tsx:77-79 | x = 200.1 moving at −0.2 in a 200-wide canvas ends at 199.9, inside the bounds, with its velocity unchanged |
| `ParticleField.NoFlipInside` | components/HeroSection.tsx:77-79 | x = 199 moving at 0.3 in a 200-wide canvas ends at 199.3 with its velocity unchanged |
| `ParticleCanvasEffect.ParticleCanvas.Mount` | components/HeroSection.tsx:10-95 | without a canvas or a context, nothing is created: no particles, frames, listener or observer. Otherwise setup:<br>- sizes the backing store to the logical size times the ratio;<br>- registers the listener and the observer;<br>- seeds 60 particles and draws once, leaving them moved once;<br>- leaves exactly one frame (handle 1) outstanding |
| `ParticleCanvasEffect.ParticleCanvas.RequestFrame` | components/HeroSection.tsx:83 | a new frame request gets a fresh handle, which is added to the outstanding requests |
| `ParticleCanvasEffect.ParticleCanvas.Draw` | components/HeroSection.tsx:52-84 | one frame:<br>- the lines and discs are those of the positions before the frame;<br>- the particles are moved once;<br>- a new frame is requested and becomes the last handle iff the canvas is visible; nothing else changes |
| `ParticleCanvasEffect.ParticleCanvas.FrameFired` | components/HeroSection.tsx:83 | a fired frame stops being outstanding and draws. While visible, the number of outstanding frames stays the same. While hidden or after cleanup, it drops by one and nothing is requested |
| `ParticleCanvasEffect.ParticleCanvas.OnIntersect` | components/HeroSection.tsx:86-91 | a connected observer sets visibility to the entry's value. It draws directly (starting one more loop) iff the canvas goes from not visible to visible. A disconnected observer changes nothing |
| `ParticleCanvasEffect.ParticleCanvas.OnResize` | components/HeroSection.tsx:19-24 | while the listener is registered, the backing store becomes the logical size times the ratio read at setup; afterwards, nothing changes |
| `ParticleCanvasEffect.ParticleCanvas.Dispose` | components/HeroSection.tsx:97-102 | cleanup:<br>- makes the canvas not visible;<br>- cancels exactly the last requested frame;<br>- disconnects the observer and removes the listener.<br>Without a mounted setup it changes nothing |
| `ParticleCanvasEffect.UnmountedDoesNothing` | components/HeroSection.tsx:11-14 | without a canvas or a 2D context, for any reported ratio and size, setup and cleanup leave no particles and no outstanding frame |
| `ParticleCanvasEffect.TwoLoopsAfterQuickReshow` | components/HeroSection.tsx:83-99 | hidden then visible again before the outstanding frame fires gives two outstanding frames. Cleanup leaves the older one. That frame fires once and leaves none |
| `Pricing.AfterSwitch` | components/PricingSection.tsx:467 | the switch handler always changes the period |
| `Pricing.AfterMonthlyLabel` | components/PricingSection.tsx:266 | after "Ежемесячно" the period is monthly; it changes iff it was yearly |
| `Pricing.AfterYearlyLabel` | components/PricingSection.tsx:302 | after "Ежегодно" the period is yearly; it changes iff it was monthly |
| `Pricing.SwitchTwiceRestores` | components/PricingSection.tsx:272 | two presses of the switch restore the period |
| `Pricing.LabelsIdempotent` | components/PricingSection.tsx:266-302 | clicking the same label twice is the same as clicking it once |
| `Pricing.BillingPeriod.constructor` | components/PricingSection.tsx:454 | the period starts as yearly |
| `Pricing.BillingPeriod.PressSwitch` | components/PricingSection.tsx:272 | the button flips the state cell |
| `Pricing.BillingPeriod.ClickMonthly` | components/PricingSection.tsx:266 | the monthly label leaves the cell monthly |
| `Pricing.BillingPeriod.ClickYearly` | components/PricingSection.tsx:302 | the yearly label leaves the cell yearly |
| `Pricing.FreeCard` | components/PricingSection.tsx:471-480 | the free card's price is "0₽" per month, with no old price and no custom price, in either period |
| `Pricing.ProCard` | components/PricingSection.tsx:484-485 | with the three price strings of components/PricingSection.tsx:455-457, the Pro price is "2 390₽" when yearly and "2 990₽" when monthly; the old price "2 990₽" is passed iff yearly |
| `Pricing.EnterpriseCard` | components/PricingSection.tsx:495-508 | the enterprise card has the custom price "По запросу", no old price and no period, in either period |
| `Pricing.PriceBlockOf` | components/PricingSection.tsx:161-196 | a custom-priced card shows only its price. Otherwise the card shows its price, a struck-through old price iff the period is yearly and an old price is present and non-empty, and its period iff the period is non-empty |
| `Pricing.ProPriceBlock` | components/PricingSection.tsx:481-494 | the Pro card shows "2 990₽" struck through, then "2 390₽" per month, when yearly; "2 990₽" per month alone when monthly |
| `Pricing.OtherPriceBlocks` | components/PricingSection.tsx:471-508 | the free card always shows "0₽" per month with no old price; the enterprise card always shows "По запросу" alone |
| `Pricing.DiscountBadge` | components/PricingSection.tsx:306-318 | the "-20%" badge is shown iff the period is yearly |
| `Pricing.RowOf` | components/PricingSection.tsx:233-245 | a feature's row has its text, and a check mark, full opacity and medium weight exactly when the feature is included |
| `Pricing.FeatureRows` | components/PricingSection.tsx:232-246 | one row per feature, in list order, with the feature's text. Included features get a check mark, full opacity and medium weight. Excluded ones get a close mark, half opacity and normal weight |

## Left out

- Pixels: clearing, arcs, strokes, fills, line width and the formatting of colour strings. Frames are modelled by the lines and discs they emit.
- Floating point: IEEE rounding and the square root. Coordinates are exact reals, and the link test uses squared distances.
- `Math.random`: its draws are parameters (seven per particle, in source order). The colour share of about 30% is a statistical property and is not stated.
- `getBoundingClientRect`: the canvas rectangle is a parameter of every event. Setup's three reads of it (resize, seeding, first frame) are taken to return the same size.
- The platform's conversion of `canvas.width`/`canvas.height` to whole numbers is left out; the backing size is the exact product.
- Whether `ctx.scale` accumulates across resizes is platform behaviour and is left out.
- `PixelRatio`: does not model a NaN ratio, which is also falsy, because reals have no NaN.
- The observer callback destructures only the first entry. The model takes one visibility value per callback, and entries batched into one callback are left out.
- The order in which the browser interleaves frame callbacks with observer callbacks is free in the model: any outstanding frame may fire between any two events.
- React's effect lifecycle is left out: re-runs, development-mode double mounting, and batching of state updates between clicks. Each handler runs on the current state.
- Pricing: the label colours, switch knob, glow and tilt animations, button styles and the plan feature lists themselves (copy) are left out. Card functions take the feature list as a parameter.
- The other components (features demo, security, problem, header, icons, UI primitives, layout and configuration) are markup, copy or library-driven animation and are not part of this model.
