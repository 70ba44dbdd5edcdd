# Scratch & Win, modelled in Dafny

A model of the logic of a single-page scratch-card game. It has three parts:

- **The reward generator** (`game_logic.dfy`, module `GameLogic`). It draws one of four reward categories from the weight table better_luck 50, points_10 30, points_50 15, points_100 5. It maps each category to its points and builds a coupon with the id `coupon-<milliseconds>`. The sample `Math.random()` and the clock `Date.now()` are parameters.
- **The scratch card** (`scratch_card.dfy`, module `Scratch`). This is a class over the canvas's RGBA bytes, an `array<int>` of length `4 * width * height`. Each stroke reads the card's client rectangle and `devicePixelRatio` afresh, scales the pointer onto the canvas and fills a disc with Porter-Duff "destination out" (section 9.1 of W3C Compositing and Blending Level 1). The fill happens under the context transform `scale(dpr, dpr)` set when the card was mounted. Measurement counts the alpha bytes below 128. The card is revealed, and `onReveal` is called once, when more than 50 % is erased. The mouse and touch handlers drive an `isScratching` flag.
- **The host application** (`app.dfy`, module `App`). This is a class holding the game-state cell, the mounted card and a ghost history of revealed coupons. `handleReveal` credits the current coupon. `handleRetry` installs a new coupon.

`types.dfy` (module `Types`) holds the records: `RewardType`, `Coupon`, `GameState` and `Option` for `Coupon | null`.

The central facts proved:
- The draw loop selects the category whose cumulative-weight interval holds the sample. A boundary value goes to the earlier category.
- The fallback `better_luck` is taken only for samples above the total weight, which `Math.random()` never produces.
- Each category's interval is as long as its weight.
- The erased count only grows, and a revealed card no longer changes.
- The card is revealed exactly when more than half of its pixels are erased, and `onReveal` runs at most once per card.
- The game's totals always equal the sum over the revealed coupons and their number.
- Two defects of the program as written: the mount-time context scale is applied to strokes a second time, and a retry keeps the revealed card mounted (see "## Findings").

## Model

| member | source | states |
|---|---|---|
| `GameLogic.TotalWeight` | src/utils/gameLogic.ts:5-13 | the weights of the table sum to 100 |
| `GameLogic.Index` | src/utils/gameLogic.ts:5-10 | every one of the four categories has an entry in the weight table, at a fixed position |
| `GameLogic.DrawCategoryAt` | src/utils/gameLogic.ts:16-21 | the entry at position i is selected by every sample above the weights before it and at most the weights up to it |
| `GameLogic.GetRandomRewardType` | src/utils/gameLogic.ts:12-24 | subtracting the weights in table order and stopping at the first remainder <= 0 draws the category of the interval table (<= 50, <= 80, <= 95, <= 100); the fallback is reached exactly when the scaled sample exceeds the total weight, never for a sample in [0, 1) |
| `GameLogic.DrawInterval` | src/utils/gameLogic.ts:14-21 | for a sample in [0, 100), a category is drawn if and only if the sample lies in that category's cumulative-weight interval; only better_luck also takes the lower end 0 |
| `GameLogic.IntervalLength` | src/utils/gameLogic.ts:5-13 | each category's interval is exactly as long as its weight (50, 30, 15, 5), and the intervals together span the total weight |
| `GameLogic.DrawMonotone` | src/utils/gameLogic.ts:16-21 | a larger sample, up to the total weight, never selects an earlier category |
| `GameLogic.PointsValue` | src/utils/gameLogic.ts:37-48 | the points are always one of 0, 10, 50, 100, and 0 exactly for better_luck |
| `GameLogic.PointsOrder` | src/utils/gameLogic.ts:37-48 | distinct categories give distinct points, and a category with a larger weight gives fewer points |
| `GameLogic.NatToString` | src/utils/gameLogic.ts:30 | the decimal rendering of the timestamp is a non-empty digit string without a leading zero |
| `GameLogic.ParseNatToString` | src/utils/gameLogic.ts:30 | reading the rendered timestamp back gives the timestamp |
| `GameLogic.CouponIdCollision` | src/utils/gameLogic.ts:30 | two coupon ids are equal if and only if they were made in the same millisecond |
| `GameLogic.GenerateCoupon` | src/utils/gameLogic.ts:26-35 | the coupon has the id of the given time and the drawn category; its points are that category's points; it is not revealed |
| `Scratch.TransparentCount` | src/components/ScratchCard.tsx:75-79 | the count of erased pixels never exceeds the number of pixels scanned |
| `Scratch.CountReadsAlphaOnly` | src/components/ScratchCard.tsx:75-79 | buffers with the same alpha bytes have the same count: colour bytes are ignored |
| `Scratch.CountMonotone` | src/components/ScratchCard.tsx:56-79 | lowering alpha bytes, as destination-out erasing does, never lowers the erased count |
| `Scratch.OpaqueCountsZero` | src/components/ScratchCard.tsx:29-42 | a fully opaque cover has no erased pixel |
| `Scratch.RevealThreshold` | src/components/ScratchCard.tsx:81-84 | the test `percentage > 50` holds if and only if 2 * transparent > pixels, so a card exactly half erased stays hidden |
| `Scratch.PercentInRange` | src/components/ScratchCard.tsx:81 | a count within the pixel count gives a percentage in [0, 100] |
| `Scratch.DestinationOut` | src/components/ScratchCard.tsx:56-65 | compositing never raises an alpha; full brush coverage clears it, no coverage keeps it |
| `Scratch.Erased` | src/components/ScratchCard.tsx:56-65 | filling the disc keeps the buffer a byte buffer of the same length, never raises an alpha and leaves every colour byte unchanged; when no disc is filled the buffer is unchanged |
| `Scratch.ScaleFactor` | src/components/ScratchCard.tsx:52-54 | the scale factor maps the rectangle's size onto the canvas size |
| `Scratch.ScaleFactorIsRatio` | src/components/ScratchCard.tsx:25-26 | a canvas sized at rectangle size times d has the scale factor d |
| `Scratch.BrushDisc` | src/components/ScratchCard.tsx:52-61 | the arc a stroke asks for: nothing when the rectangle read at the stroke has no area, otherwise a disc of radius 30 * `devicePixelRatio` as read at the stroke |
| `Scratch.BrushDiscAsWritten` | src/components/ScratchCard.tsx:27 | the disc actually filled: nothing exactly when the rectangle has no area, otherwise a disc whose radius is multiplied once more by the context scale |
| `Scratch.AsWrittenAtScaleOne` | src/components/ScratchCard.tsx:27 | with a context scale of 1 the filled disc is the one asked for, so the defect does not show at ratio 1 |
| `Scratch.BrushDiscOnCanvas` | src/components/ScratchCard.tsx:52-61 | a pointer over the card puts the centre of the disc asked for on the canvas, whatever the rectangle is at the stroke |
| `Scratch.SteadyLayout` | src/components/ScratchCard.tsx:25-27 | while the rectangle is the one the canvas was sized from at ratio d, the disc asked for is centred at the pointer offset times d, and the filled one at the offset times d * d with the radius times d |
| `Scratch.ScaleExample` | src/components/ScratchCard.tsx:52-61 | at pixel ratio 2, the disc asked for at the point (100, 100) of a 300 x 200 card is centred at canvas point (200, 200) with radius 60 |
| `Scratch.AsWrittenMissesCanvas` | src/components/ScratchCard.tsx:27 | at ratio 2, a press at (200, 150) on a 300 x 200 card asks for (400, 300), but the filled disc is centred at (800, 600) with radius 120 and covers no pixel of the 600 x 400 canvas |
| `Scratch.ScratchCard.constructor` | src/components/ScratchCard.tsx:15-43 | the mounted card is sized at the rectangle size times `devicePixelRatio`, or 1 when that is 0; every byte is 255, so the cover is fully opaque; not scratching, not revealed, at 0 % |
| `Scratch.ScratchCard.CountTransparent` | src/components/ScratchCard.tsx:70-79 | the loop over offsets 3, 7, 11, ... counts exactly the pixels whose alpha is below 128, without changing the buffer |
| `Scratch.ScratchCard.CheckScratchPercentage` | src/components/ScratchCard.tsx:70-88 | the published percentage is the measured one; `onReveal` is called, and the card revealed, exactly when it was hidden and more than half is erased |
| `Scratch.ScratchCard.EraseDisc` | src/components/ScratchCard.tsx:56-65 | the buffer becomes the disc-erased buffer |
| `Scratch.ScratchCard.Scratch` | src/components/ScratchCard.tsx:45-68 | on a revealed card the buffer, the percentage and the callback count are unchanged; otherwise the disc computed from the layout read at this stroke, under the mount-time context scale, is erased, the percentage is re-measured, and the card is revealed with one callback exactly when more than half is erased; the erased count never falls, and the card invariant (revealed if and only if more than half erased, at most one callback) is kept |
| `Scratch.ScratchCard.HandleMouseDown` | src/components/ScratchCard.tsx:90-93 | sets scratching and scratches once at the pointer |
| `Scratch.ScratchCard.HandleMouseMove` | src/components/ScratchCard.tsx:95-99 | scratches only while scratching; otherwise nothing changes |
| `Scratch.ScratchCard.HandleMouseUp` | src/components/ScratchCard.tsx:101-103 | clears scratching and changes neither the buffer nor the reveal state |
| `Scratch.ScratchCard.HandleTouchStart` | src/components/ScratchCard.tsx:105-109 | sets scratching and scratches once at the first touch |
| `Scratch.ScratchCard.HandleTouchMove` | src/components/ScratchCard.tsx:111-117 | scratches at the first touch only while scratching; otherwise nothing changes |
| `Scratch.ScratchCard.HandleTouchEnd` | src/components/ScratchCard.tsx:119-121 | clears scratching and changes neither the buffer nor the reveal state |
| `Scratch.ScaleExampleAsWritten` | src/components/ScratchCard.tsx:27 | on a mounted card at ratio 2, the point (100, 100) is filled at canvas point (400, 400) with radius 120 |
| `Scratch.StrokeOffCanvasExample` | src/components/ScratchCard.tsx:27 | on a mounted 300 x 200 card at ratio 2, a press at (200, 150) leaves no erased pixel |
| `Scratch.ScratchCard.Dispatch` | src/components/ScratchCard.tsx:176-182 | for every event: the gesture flag follows down/move/up/leave/touch; a press or touch start scratches at its point, a move scratches only while scratching and otherwise changes nothing, and up, leave and touch end change nothing but the flag; the callback fires only on the hidden-to-revealed step and never more than once; a revealed card stays revealed and unchanged; the erased count never falls; the published percentage stays in [0, 100] |
| `App.PointsOfBounds` | src/App.tsx:20-21 | a total of points from well-formed coupons is a non-negative multiple of 10, at most 100 per coupon |
| `App.TotalsBounded` | src/App.tsx:15-33 | in every valid game state, the total points are a non-negative multiple of 10 and at most 100 per game |
| `App.App.constructor` | src/App.tsx:8-13 | the initial state has a freshly generated coupon, is not revealed, and has 0 points and 0 games |
| `App.App.HandleReveal` | src/App.tsx:15-24 | with a coupon: revealed, points grow by exactly the coupon's points, games by exactly 1, the coupon is unchanged and is appended to the history; without a coupon: nothing changes |
| `App.App.HandleRetry` | src/App.tsx:26-33 | the totals are kept, the game is hidden again, a generated coupon is installed, and a freshly mounted card with no erased pixel covers it |
| `App.App.HandleRetryAsWritten` | src/App.tsx:26-33 | the totals are kept and a generated coupon is installed, but the mounted card is kept, so a revealed card stays revealed while the game is hidden |
| `App.App.CardEvent` | src/App.tsx:52-57 | the card takes the event exactly as its own wiring does (the gesture flag, the scratch or the no-op for each of the seven events, a count that never falls); the game state and the history are unchanged unless the event reveals the card, and then the coupon is kept, the game is marked revealed, one game and the coupon's points are credited and the coupon is appended to the history; a card and game that agree stay in agreement, and a revealing event brings up the retry button |
| `App.RetryAsWrittenStrandsGame` | src/App.tsx:51-69 | after the unkeyed retry of a revealed game, no later card event is credited and the retry button stays hidden |
| `App.OnePixelErased` | src/components/ScratchCard.tsx:56-79 | on a one-pixel card at ratio 1, a press at its corner fills a disc of radius 30 around the canvas origin, which erases the pixel |
| `App.RetryAsWrittenExample` | src/App.tsx:51-69 | on a one-pixel card: reveal, unkeyed retry, scratch again leaves 1 game played and no retry button |
| `App.RetryExample` | src/App.tsx:26-33 | with the card remounted on retry, the same steps give 2 games played and the retry button shown |

## Left out

- Painting the cover (gradient, fonts, text): the cover is all bytes 255, which is opaque. Its colours are presentation.
- Rasterisation of `arc` + `fill`: a pixel is covered when its centre lies in the disc. There is no anti-aliasing. `DestinationOut` rounds down where a browser may round to nearest. Either way no alpha is raised, which is all the monotonicity proofs use.
- Premultiplied storage: a browser reads a fully erased pixel back with colour bytes 0. The model keeps the colour bytes. The count ignores them (`CountReadsAlphaOnly`).
- Floating point: the sample, the weight subtraction, the percentage, the scale factor and the disc are exact reals. Pointer coordinates, the rectangle's position and size and `devicePixelRatio` are integers. The truncation in `canvas.width = rect.width * dpr` does not arise.
- `getBoundingClientRect()` and `window.devicePixelRatio` are reads of the page: each stroke takes them as the parameter `at`, and a remount takes the layout of that moment. The context transform is the uniform `scale(dpr, dpr)` set at mount; no other transform is modelled.
- A zero-area canvas is excluded by the card invariant, because `getImageData` throws on a zero size. The `!canvas` / `!ctx` early returns are not modelled: a card always has its canvas and context.
- `HandleTouchStart` and `HandleTouchMove`: they require a non-empty touch list, as `e.touches[0]` does.
- React scheduling: state updates are immediate and sequential. Stale closures over `isRevealed` and `gameState` between renders are not modelled.
- `onReveal` is not a callback. `revealCalls` counts its calls, and the `fired` result tells the host to run `HandleReveal`.
- Presentation: `getRewardDisplay`, the "% scratched" badge, `preventDefault`, the JSX layout and the icons.
- `REWARD_TYPES` is unused by the program.
- Coupon ids are not claimed to be unique. `CouponIdCollision` shows they collide exactly within one millisecond.
- The gesture session keeps no last pointer position, since the code keeps none. The fraction is published as a percentage (0 to 100), as the code does.

## Findings

| source | as written | input that shows it | evidently intended | confidence | as-written member | corrected member |
|---|---|---|---|---|---|---|
| src/App.tsx:52-57 | `<ScratchCard>` is rendered without a `key`, so after `handleRetry` React keeps the same component instance. Its `isRevealed` stays true, its canvas stays erased, and the cover effect with `[]` dependencies does not run again. | Scratch the first card past 50 %, press "Try Another Card", then scratch the new card. The new prize is shown at once, `onReveal` never fires again, the totals stop growing and the retry button never returns. | Each new coupon gets a fresh, opaque card whose reveal is credited once (for example `key={coupon.id}`). | high (not executed) | `App.App.HandleRetryAsWritten` | `App.App.HandleRetry` |
| src/components/ScratchCard.tsx:27-61 | The mount effect calls `ctx.scale(dpr, dpr)`, and that transform stays on the context `scratch` draws with. The arc's centre and radius are already in canvas pixels (scaled by `canvas.width / rect.width` and by `devicePixelRatio`), so they are multiplied by `dpr` a second time. | At `devicePixelRatio` 2 on a 300 x 200 card at the client origin, a press at (100, 100) fills around canvas (400, 400) with radius 120 instead of (200, 200) with radius 60; a press at (200, 150) fills around (800, 600), off the 600 x 400 canvas, and erases nothing. At ratio 1 nothing shows. | The disc is filled in canvas pixels, centred under the pointer with radius 30 CSS pixels (for example by resetting the transform before the arc, or by passing the unscaled offset and radius 30). | high (not executed) | `Scratch.BrushDiscAsWritten` | `Scratch.BrushDisc` |
