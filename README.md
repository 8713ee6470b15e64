# Portfolio modal and breakpoint hook, modelled in Dafny

This project models the two pieces of logic in the portfolio front end:

- **ProjectModal** (`project_modal.dfy`, module `ProjectModal`) is the project detail overlay.
  It holds the gallery's `currentImageIndex` and the `isLoading` gate. It handles the
  swipe and keyboard inputs that move the index. It has the keydown listener on the
  document and the 500 ms settling timer armed when the overlay opens. The carousel's
  `setApi` callback overwrites the index. The `prev => ...` updaters are the pure
  functions `Next` and `Previous`. The handlers are the functions `HandleSwipe` and
  `HandleKeyDown`. One mounted component is the class `ModalController`. Its methods are
  the re-render with new props, the timer callback, a keydown, a swipe, `setApi` and unmount.
- **useBreakpoint** (`use_breakpoint.dfy`, module `UseBreakpoint`) is the breakpoint hook.
  It looks a breakpoint name up in the configured screens, or in the six-entry default
  table when no screens are configured. It turns the threshold string into a number by
  keeping only its digits. It builds the `isAbove<Key>`/`isBelow<Key>` names by
  upper-casing the key's first character. The class `BreakpointHook` holds the `matches`
  cell and the media-query change listener that the hook's effect adds and removes.

`wrappers.dfy` holds the `Option` and `Result` datatypes both modules use.

The browser is an input to the model. The media query's current value is the boolean
`currentlyMatches`. A change event is the `Change` method. A swipe and the carousel's
selected snap are method arguments. A timer callback firing is `FireTimer(id)`. A timer
that has been cleared never changes anything. Calling `onClose` is the `closeRequested`
result of `KeyDown`.

Some behaviour is kept as the code has it, even where the component's intent reads
differently:

- On an empty image list, `Previous` writes `images.length - 1`, which is -1. `Next`
  writes 0. The index is therefore in range only when there is at least one image
  (`EmptyGallery`). One step from -1 is back in range as soon as the gallery has images
  (`StepRecoversRange`).
- Opening the overlay, or switching to another project, never resets the index. The
  index is therefore in range only while the project is unchanged and `SetApi` has not
  written a snap from outside the gallery. After a switch from five images to two, an
  index of 4 stays 4, the counter reads "5 / 2", and ArrowLeft gives 3, still no image
  (`StaleIndexAfterProjectSwitch`). Going back walks down one image at a time, while
  going forward wraps to 0 at once (`StaleIndexWalksDown`).
- The loading effect depends on `isOpen` only. A different project shown while the
  overlay stays open does not restart the timer.
- The swipe handlers check only that a project exists, not `isOpen`. A swipe reaches them
  only while the content is rendered, that is, for a project once loading is over.
- The usage comment names a flag `isAbove2Xl`. The code produces `isAbove2xl`.
- A name missing from the table leaves `matches` at false only from mount. A key that
  changes from a present name to a missing one keeps the last value of `matches`
  (`BreakpointHook.Rerender`).

## Model

| member | source | states |
|---|---|---|
| ProjectModal.Next | src/app/Portfolio/ProjectModal.tsx:28-29 | The next-image updater moves one image forward, or wraps to 0, and wraps only from the last image or beyond |
| ProjectModal.Previous | src/app/Portfolio/ProjectModal.tsx:35-36 | The previous-image updater moves one image back, or wraps to `images.length - 1`, and wraps only from the first image or below |
| ProjectModal.NextIsSuccessorModulo | src/app/Portfolio/ProjectModal.tsx:28-29 | For N ≥ 1 and a valid index i, the next-image updater gives (i+1) mod N, which is in [0, N) |
| ProjectModal.PreviousIsPredecessorModulo | src/app/Portfolio/ProjectModal.tsx:35-36 | For N ≥ 1 and a valid index i, the previous-image updater gives (i−1+N) mod N, which is in [0, N) |
| ProjectModal.NextPreviousInverse | src/app/Portfolio/ProjectModal.tsx:28-36 | On a valid index, next-then-previous and previous-then-next both give back the index |
| ProjectModal.StepRecoversRange | src/app/Portfolio/ProjectModal.tsx:28-36 | With N ≥ 1, one step in either direction from -1 or from any valid index lands in [0, N) |
| ProjectModal.NextTimesAdvances | src/app/Portfolio/ProjectModal.tsx:55-56 | k ≤ N forward steps from i reach i+k, or i+k−N once past the end |
| ProjectModal.FullCycleReturns | src/app/Portfolio/ProjectModal.tsx:55-56 | N forward steps return to the starting image, and no fewer positive number of steps does |
| ProjectModal.ThreeImageCycle | src/app/Portfolio/ProjectModal.tsx:55-56 | With three images, forward steps from 0 visit 1, 2, 0 |
| ProjectModal.EmptyGallery | src/app/Portfolio/ProjectModal.tsx:28-36 | With no images, next gives 0 from 0 or -1, but previous gives -1 |
| ProjectModal.StaleIndexWalksDown | src/app/Portfolio/ProjectModal.tsx:28-36 | From an index at or beyond the image count, k backward steps give index−k (still out of range while above the count), and one forward step gives 0 |
| ProjectModal.StaleIndexAfterProjectSwitch | src/app/Portfolio/ProjectModal.tsx:49-52 | With five images, ArrowLeft from 0 gives 4. With two images, 4 shows "5 / 2" and ArrowLeft gives 3, which names no image |
| ProjectModal.HandleSwipe | src/app/Portfolio/ProjectModal.tsx:25-40 | Without a project a swipe changes nothing. With one, a left swipe takes the next-image step and a right swipe the previous-image step, keeping a valid index valid. No other condition guards it |
| ProjectModal.HandleKeyDown | src/app/Portfolio/ProjectModal.tsx:42-60 | When closed or without a project, a key changes nothing. `onClose` is called exactly for Escape on an open project. Only the arrow keys move the index: ArrowRight takes the next-image step and ArrowLeft the previous-image step, keeping a valid index valid |
| ProjectModal.ArrowKeysMatchSwipes | src/app/Portfolio/ProjectModal.tsx:49-57 | On an open modal, ArrowRight moves the index like a left swipe and ArrowLeft like a right swipe, with or without a project |
| ProjectModal.SwipeNotGatedOnOpen | src/app/Portfolio/ProjectModal.tsx:26-43 | With `isOpen` false the key handler leaves the index alone, but the swipe handlers still move it |
| ProjectModal.Counter | src/app/Portfolio/ProjectModal.tsx:144 | The counter shows index+1 over N, and the shown position is in [1, N] exactly when the index is valid |
| ProjectModal.ModalController.constructor | src/app/Portfolio/ProjectModal.tsx:21-73 | After mounting, the index is 0 and the loading gate is up. One keydown listener is registered. A settling timer is pending exactly when the overlay is open |
| ProjectModal.ModalController.SetProps | src/app/Portfolio/ProjectModal.tsx:62-73 | A new render never changes the index and leaves one keydown listener, which sees the new props. Opening raises the gate and arms one fresh timer. Closing clears the timer. An unchanged `isOpen` leaves the timer and gate alone |
| ProjectModal.ModalController.FireTimer | src/app/Portfolio/ProjectModal.tsx:70 | Only the pending timer lowers the loading gate, which makes an open overlay interactive. A cleared timer changes nothing |
| ProjectModal.ModalController.KeyDown | src/app/Portfolio/ProjectModal.tsx:42-65 | A keydown does what the registered handler does with the props it captured. With no listener registered it does nothing |
| ProjectModal.ModalController.Swiped | src/app/Portfolio/ProjectModal.tsx:111-131 | While the content is rendered (a project, loading over), a swipe sets the index as the swipe handler computes it. Otherwise no swipe reaches the handler and the index is unchanged |
| ProjectModal.ModalController.SetApi | src/app/Portfolio/ProjectModal.tsx:137-141 | When the carousel is rendered and gives an API, its selected snap overwrites the index (the last write wins). Otherwise the index is unchanged |
| ProjectModal.ModalController.Unmount | src/app/Portfolio/ProjectModal.tsx:62-73 | Teardown leaves no keydown listener and no pending timer |
| UseBreakpoint.Breakpoints | src/hooks/useBreakpoint.ts:22-29 | Configured screens are used as they are. Without them the table has exactly the names xs, sm, md, lg, xl and 2xl |
| UseBreakpoint.Threshold | src/hooks/useBreakpoint.ts:32 | The lookup gives the table's threshold for a present name, and `undefined` exactly for a missing one |
| UseBreakpoint.ConfiguredTableReplacesDefault | src/hooks/useBreakpoint.ts:22-32 | Configured screens are used whole. A name they lack is missing, even when the default table has it |
| UseBreakpoint.DefaultTablePixels | src/hooks/useBreakpoint.ts:22-29 | The default names read as 480, 640, 768, 1024, 1280 and 1536 pixels |
| UseBreakpoint.Px480 | src/hooks/useBreakpoint.ts:23 | "480px" reads as 480 |
| UseBreakpoint.Px640 | src/hooks/useBreakpoint.ts:24 | "640px" reads as 640 |
| UseBreakpoint.Px768 | src/hooks/useBreakpoint.ts:25 | "768px" reads as 768 |
| UseBreakpoint.Px1024 | src/hooks/useBreakpoint.ts:26 | "1024px" reads as 1024 |
| UseBreakpoint.Px1280 | src/hooks/useBreakpoint.ts:27 | "1280px" reads as 1280 |
| UseBreakpoint.Px1536 | src/hooks/useBreakpoint.ts:28 | "1536px" reads as 1536 |
| UseBreakpoint.StripNonDigits | src/hooks/useBreakpoint.ts:59 | Removing non-digits leaves only digits and never lengthens the string |
| UseBreakpoint.StripNonDigitsCounts | src/hooks/useBreakpoint.ts:59 | Every digit stays as often as it occurs, and every other character is gone |
| UseBreakpoint.StripNonDigitsAppend | src/hooks/useBreakpoint.ts:59 | Stripping a concatenation strips each part, so the digits keep their order |
| UseBreakpoint.StripNonDigitsKeepsDigits | src/hooks/useBreakpoint.ts:59 | A string made only of digits is left unchanged |
| UseBreakpoint.StripNonDigitsDropsText | src/hooks/useBreakpoint.ts:59 | A string without digits strips to "" |
| UseBreakpoint.PixelValue | src/hooks/useBreakpoint.ts:59 | A missing threshold gives 0, and so does any threshold that strips to "" |
| UseBreakpoint.DecimalRoundTrip | src/hooks/useBreakpoint.ts:59 | `Number` of the decimal numeral of n is n |
| UseBreakpoint.PixelValueOfLength | src/hooks/useBreakpoint.ts:59 | A number followed by a unit without digits, such as "1536px", reads back as that number |
| UseBreakpoint.PixelValueWithoutDigits | src/hooks/useBreakpoint.ts:59 | A threshold whose text has no digits gives 0, because `Number("")` is 0 |
| UseBreakpoint.PixelValueExamples | src/hooks/useBreakpoint.ts:59 | "768px" gives 768, and "1.5rem" gives 15 |
| UseBreakpoint.Capitalize | src/hooks/useBreakpoint.ts:52-53 | The empty key throws. Any other key keeps its length, gets its first character upper-cased and keeps all later characters |
| UseBreakpoint.HookResult | src/hooks/useBreakpoint.ts:52-62 | A render throws exactly for the empty key. Otherwise the entry under the key itself is the pixel number parsed from the key's threshold, `isAbove` is `matches` and `isBelow` is always its negation |
| UseBreakpoint.FlagNames | src/hooks/useBreakpoint.ts:52-62 | The names are "isAbove"/"isBelow" followed by the key with only its first character upper-cased, and the three property names never clash |
| UseBreakpoint.TwoXlFlagName | src/hooks/useBreakpoint.ts:52-53 | "2xl" yields `isAbove2xl` and `isBelow2xl`, never the `isAbove2Xl` of the usage comment on line 13 |
| UseBreakpoint.MissingKeyResult | src/hooks/useBreakpoint.ts:32-61 | A missing name gives 0 pixels, and with `matches` at its initial false it gives isAbove false and isBelow true |
| UseBreakpoint.Truthy | src/hooks/useBreakpoint.ts:37 | The thresholds for which the effect returns early are exactly `undefined` and "" |
| UseBreakpoint.MediaQuery | src/hooks/useBreakpoint.ts:39 | The query is "(min-width: " followed by the threshold verbatim and ")" |
| UseBreakpoint.MediaQueryInjective | src/hooks/useBreakpoint.ts:39 | Different thresholds give different queries |
| UseBreakpoint.BreakpointHook.constructor | src/hooks/useBreakpoint.ts:34-50 | On mount, `matches` is the query's current value when the threshold is truthy. Otherwise it stays false and no listener is added. One listener is added per truthy threshold |
| UseBreakpoint.BreakpointHook.Subscribe | src/hooks/useBreakpoint.ts:39-47 | The effect sets `matches` to the query's current value and adds one fresh handler on the `(min-width: <threshold>)` query |
| UseBreakpoint.BreakpointHook.Change | src/hooks/useBreakpoint.ts:41 | A change event on a listened query sets `matches` to the event's value. Any other event leaves `matches` alone |
| UseBreakpoint.BreakpointHook.Rerender | src/hooks/useBreakpoint.ts:36-50 | When the threshold is unchanged, nothing re-runs. When it changes, the cleanup removes the very handler the previous run added. A truthy new threshold then re-reads `matches` with a fresh handler. A missing one keeps the old `matches` with no listener |
| UseBreakpoint.BreakpointHook.Unmount | src/hooks/useBreakpoint.ts:49 | Teardown removes the handler the last run added and leaves no registered listener |

## Left out

- src/app/Portfolio/ProjectCard.tsx has no behaviour beyond a hover flag driving animation and an image fallback, so it is not part of this model.
- JSX layout, class strings, animation values, image loading options, star rendering from the floating-point rating and the lists of reviews, technologies, challenges and solutions are presentation only.
- The Dialog, Carousel and swipe recogniser are libraries. Swipes and the carousel's selected snap are inputs. `ModalController.ContentRendered` follows only what this file shows: a project exists and loading is over. Whether the dialog library renders its content while closed is not modelled.
- `onClose` is a callback into the parent. The model reports the call as `closeRequested`. The parent's response, usually a later `SetProps` with `isOpen` false, is up to the caller.
- ProjectModal.ModalController.SetProps: re-registers the keydown handler only when `project` or `isOpen` change. A parent that passes a new `onClose` on every render also re-registers the handler, but that leaves the same state.
- `resolveConfig` and the imported styling configuration are library code. The configured screens are the parameter `Option<Table>`. Screen values that are objects rather than strings are not modelled.
- UseBreakpoint.Threshold: looks up own entries only. A JavaScript object also finds inherited properties such as `constructor`, and that is not modelled.
- The browser evaluates `window.matchMedia`, so `matches` comes in as a boolean. The relation between viewport width and threshold is therefore not stated.
- Real time behind `setTimeout` is not modelled. A timer is an id that is pending until it fires or is cleared.
- UseBreakpoint.PixelValue: gives the exact decimal value. JavaScript's `Number` loses precision above 2^53, and that is not modelled.
- UseBreakpoint.Capitalize: upper-cases ASCII letters only. `toUpperCase` on other characters, including those that expand such as "ß" to "SS", is not modelled. Neither is indexing by UTF-16 code unit.
- React rendering is simplified: each render's effects run right after it, atomically. The intermediate render that shows the old `matches` before the effect's `setMatches` is not modelled. After a render throws for the empty key, the state is left as it was. What an error boundary does next is not modelled.
