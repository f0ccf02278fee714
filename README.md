# Pointly core, modelled in Dafny

Pointly is a points-tracking app. It has a React web client and an Express/Prisma server. This project models the parts of both that hold logic of their own:

- the card's gesture controller:
  - the drag classifier (`useDraggable`);
  - the flip state machine (`Flippable`);
  - the tilt mapper with its single pending reset (`Tiltable`);
- the card helpers:
  - the 32-bit string hash that seeds the texture offsets;
  - the capped balance-animation duration;
  - the clamped pointer position;
  - the character-by-character reveal of `JumbleText`;
- the icon picker's paging, row chunking, search filter and stagger pulse;
- the toast store;
- on the server:
  - the zod request schemas for users and groups;
  - the request-context merge;
  - the pagination middleware;
  - the safe user projection;
  - the user and group services, over in-memory tables that stand in for the Prisma client.

Layout: one module per source file, plus five shared modules.

- `Wrappers` holds `Option` and `Result`.
- `Dom` holds a bounding rect and real min/max/abs.
- `JsNumber` holds the JavaScript number behaviour the code runs into:
  - division by zero, giving the infinities or NaN;
  - NaN through `Math.min`/`Math.max`;
  - `ToInt32` and the shifts;
  - the truncating `%`.
- `Text` holds `trim`, `\s`, `toLowerCase`, `replace(/\s+/g, " ")` and `includes`.
- `Schema` is a small object-shape algebra in the manner of zod. It covers `pick`, `omit`, `partial`, `extend` and `safeParse`. An object parse strips keys the shape does not name. On failure it reports the set of offending keys.

Imperative sources become classes with `modifies` clauses:

- `DragTracker`, `Flippable`, `Tiltable`, `CardPointer`, `Jumble`, `Picker` and `Store` on the client;
- `Database`, `Request`, and the two service classes on the server.

Timers become explicit state plus a "fire" method. Randomness (`Math.random`, `crypto.randomUUID`, `Date.now`) becomes parameters.

The server's tables are a `Tables` value holding three sequences: users, groups and memberships. Each Prisma call is a pure transition `Tables -> Result<Tables, DbError>`. Every transition has a lemma proving it preserves `ValidTables`, which means unique ids and emails, one membership per (user, group), and memberships that refer to existing rows. The services are classes over a `Database` object that holds the current tables.

A few places where the code differs from its design description; the model follows the code:

- `Flippable` is described as needing exactly two children. The code throws only for a falsy `children` or more than two, so one child, and a truthy `children` with no nodes such as `children={[]}`, are accepted (`Flippable.CheckChildren`).
- `CreateToast` is handed a `status` by its callers but does not store it (`ToastStore.CreatedToast`).
- The icon picker caps "next" at the page count of the whole unfiltered library, not of the filtered list. The enabled-button guard makes this harmless (`IconPicker.NextStaysUnderCap`).
- Pointer moves never cancel a pending tilt reset (`Tiltable.Tiltable.HandlePointerMove`).

## Model

| member | source | states |
|---|---|---|
| Draggable.Classify | apps/clients/web/src/components/card/use-draggable.ts:51-61 | the direction a release resolves to: strict thresholds; horizontal wins only when strictly longer, with its sign deciding between right and left; otherwise the sign of dy decides between down and up |
| Draggable.ClassifyNoneIff | apps/clients/web/src/components/card/use-draggable.ts:55 | no direction comes out exactly when neither displacement exceeds its threshold |
| Draggable.ClassifyHorizontal | apps/clients/web/src/components/card/use-draggable.ts:56-57 | a strictly longer horizontal displacement past a threshold gives RIGHT for dx > 0 and LEFT otherwise |
| Draggable.ClassifyVertical | apps/clients/web/src/components/card/use-draggable.ts:58-59 | a tie or a longer vertical displacement gives DOWN for dy > 0 and UP otherwise |
| Draggable.ClassifyMirrorX | apps/clients/web/src/components/card/use-draggable.ts:51-61 | negating dx mirrors the result left-to-right |
| Draggable.ClassifyMirrorY | apps/clients/web/src/components/card/use-draggable.ts:51-61 | negating dy mirrors the result top-to-bottom, for non-negative thresholds |
| Draggable.DragTracker.constructor | apps/clients/web/src/components/card/use-draggable.ts:11-25 | both thresholds default to 50; start and distance start at zero |
| Draggable.DragTracker.HandleDragStart | apps/clients/web/src/components/card/use-draggable.ts:27-35 | the start is the pointer position relative to the element, and the distance is zeroed |
| Draggable.DragTracker.HandleDragMove | apps/clients/web/src/components/card/use-draggable.ts:37-41 | the distance is the current relative position minus the start, and the start is kept |
| Draggable.DragTracker.HandleDragEnd | apps/clients/web/src/components/card/use-draggable.ts:43-71 | returns the one argument `onDragEnd` is called with, or none when it is not called; start and distance are zero afterwards whatever the outcome |
| Draggable.DragOnce | apps/clients/web/src/components/card/use-draggable.ts:27-71 | a press, a move and a release classify the difference of the two pointer positions |
| Flippable.Turn | apps/clients/web/src/components/card/Flippable.tsx:25-38 | the rotations after a turn: LEFT subtracts and RIGHT adds 180 to rotateY, UP adds and DOWN subtracts 180 to rotateX (no contract; stated by the three lemmas below) |
| Flippable.TurnChangesOneAxis | apps/clients/web/src/components/card/Flippable.tsx:25-38 | LEFT and RIGHT change only rotateY, UP and DOWN only rotateX, each by exactly 180 |
| Flippable.TurnOppositeUndoes | apps/clients/web/src/components/card/Flippable.tsx:25-38 | the turn for the opposite direction restores both rotations |
| Flippable.TurnShowsOtherFace | apps/clients/web/src/components/card/Flippable.tsx:22-38 | from multiples of 180, every turn keeps both rotations multiples of 180 and shows the other face |
| Flippable.CountElements | apps/clients/web/src/components/card/Flippable.tsx:75 | the length of `React.Children.toArray`: never more than the nodes given, all of them exactly when every node is an element, and none exactly when every node is a hole |
| Flippable.CheckChildren | apps/clients/web/src/components/card/Flippable.tsx:75-79 | throws the fixed message exactly for a falsy `children` or more than two elements; otherwise accepts and gives the element count |
| Flippable.CheckChildrenExamples | apps/clients/web/src/components/card/Flippable.tsx:75-79 | a truthy prop with no nodes (such as `children={[]}`), one child and two children with a hole pass; three children and a falsy prop throw |
| Flippable.ClickDirection | apps/clients/web/src/components/card/Flippable.tsx:70-72 | LEFT exactly when the click is strictly left of the midpoint, otherwise RIGHT, including at the midpoint |
| Flippable.ClickDirectionMirror | apps/clients/web/src/components/card/Flippable.tsx:70-72 | two clicks mirrored about the midpoint fall on opposite sides, unless they are on the midpoint |
| Flippable.Flippable.constructor | apps/clients/web/src/components/card/Flippable.tsx:17-23 | rotateY starts at 180 only for a card given as flipped, rotateX at 0, not flipped internally, no drag and no notifications; the rendered face matches the flip bit |
| Flippable.Flippable.Rerender | apps/clients/web/src/components/card/Flippable.tsx:19-20 | a new `isFlipped` prop changes only the prop; the rotations keep their values |
| Flippable.Flippable.Flip | apps/clients/web/src/components/card/Flippable.tsx:40-52 | applies the turn and shows the other face; `onFlip` gets the toggled bit; controlled, the internal bit is untouched; uncontrolled, it is toggled and stays in step with the face |
| Flippable.Flippable.HandleMouseDown | apps/clients/web/src/components/card/Flippable.tsx:56-57 | the drag starts and `onDragStart` clears the drag flag; nothing else changes |
| Flippable.Flippable.HandleMouseMove | apps/clients/web/src/components/card/Flippable.tsx:56 | the drag distance follows the pointer |
| Flippable.Flippable.HandleMouseUp | apps/clients/web/src/components/card/Flippable.tsx:58-61 | a resolved drag sets the drag flag and flips in its direction; an unresolved one changes no flip state |
| Flippable.Flippable.HandleClick | apps/clients/web/src/components/card/Flippable.tsx:65-73 | right after a drag the click is swallowed and clears the flag; otherwise it flips towards the clicked half |
| Flippable.ClickTwice | apps/clients/web/src/components/card/Flippable.tsx:40-73 | scenario, uncontrolled: a click on the left edge flips with rotateY -180 and `onFlip(true)`; one on the right edge turns back to 0 with `onFlip(false)` (asserted) |
| Flippable.DragControlled | apps/clients/web/src/components/card/Flippable.tsx:40-73 | scenario, controlled: an 80-pixel drag right calls `onFlip(true)` once, leaves both flip bits alone, and the click that follows is swallowed (asserted) |
| Tiltable.Clamp | apps/clients/web/src/components/card/Tiltable.tsx:49-50 | `Math.max(-maxTilt, Math.min(maxTilt, n))` over JavaScript numbers (no contract; stated by ClampBounded) |
| Tiltable.TiltFor | apps/clients/web/src/components/card/Tiltable.tsx:39-50 | the tilt pair: each offset from the centre over the half size, times maxTilt, the Y one negated, both clamped (no contract; stated by the lemmas below) |
| Tiltable.ClampBounded | apps/clients/web/src/components/card/Tiltable.tsx:49-50 | clamping gives a value in [-maxTilt, maxTilt], and NaN exactly when given NaN |
| Tiltable.TiltBounded | apps/clients/web/src/components/card/Tiltable.tsx:39-50 | both tilts lie in [-maxTilt, maxTilt] or are NaN; over an element with non-zero width or height, the tilt for that axis is a finite value within the bound |
| Tiltable.TiltForAxes | apps/clients/web/src/components/card/Tiltable.tsx:39-46 | the tilt pair is the two axis tilts of the offsets `clientX - left - width/2` and `clientY - top - height/2` |
| Tiltable.AxesAtZero | apps/clients/web/src/components/card/Tiltable.tsx:45-50 | a zero offset over a positive half size gives tilt 0 on either axis |
| Tiltable.TiltAtCentre | apps/clients/web/src/components/card/Tiltable.tsx:41-46 | a pointer at the centre gives the tilt (0, 0) |
| Tiltable.TiltSigns | apps/clients/web/src/components/card/Tiltable.tsx:45-46 | right of the centre tilts positive about Y and left negative; above the centre tilts positive about X and below negative |
| Tiltable.TiltAtTopRightCorner | apps/clients/web/src/components/card/Tiltable.tsx:39-50 | the top-right corner tilts by exactly (maxTilt, maxTilt) |
| Tiltable.TiltOverZeroWidth | apps/clients/web/src/components/card/Tiltable.tsx:41-49 | over a zero-width element, the X tilt is +maxTilt right of the edge, -maxTilt left of it and NaN on it |
| Tiltable.Tiltable.constructor | apps/clients/web/src/components/card/Tiltable.tsx:12-26 | maxTilt defaults to 30; tilts are zero; no starts, no pending reset, no timers |
| Tiltable.Tiltable.AtMostOnePending | apps/clients/web/src/components/card/Tiltable.tsx:58-72 | under the class invariant, at most one reset timeout is pending |
| Tiltable.Tiltable.HandlePointerDown | apps/clients/web/src/components/card/Tiltable.tsx:28-31 | the press position is remembered and nothing else changes |
| Tiltable.Tiltable.HandlePointerMove | apps/clients/web/src/components/card/Tiltable.tsx:33-56 | without a rect nothing changes and `onTilt` is not called; otherwise the clamped tilt is stored and `onTilt` gets exactly that pair; the pending reset is never touched |
| Tiltable.Tiltable.ResetTilt | apps/clients/web/src/components/card/Tiltable.tsx:58-72 | cancels the pending reset, if any, and schedules exactly one new one |
| Tiltable.Tiltable.FireReset | apps/clients/web/src/components/card/Tiltable.tsx:64-71 | only the pending reset can fire; it clears the starts, settles both tilts at 0, calls `onTiltEnd(0, 0)` once and clears the handle |
| Tiltable.LeaveTwice | apps/clients/web/src/components/card/Tiltable.tsx:33-72 | scenario: after a tilt of 30 at the corner, two resets leave one timer; the first is cancelled, and firing the second gives tilt 0 and one `onTiltEnd(0, 0)` (asserted) |
| Card.CalculateAnimationDuration | apps/clients/web/src/components/card/card.tsx:28-31 | at most 5; 0.5 + i/100 below the cap and 5 above it; at least 0.5 for i >= 0 |
| Card.HashStepAsWritten | apps/clients/web/src/components/card/card.tsx:36-37 | one hash step as the source spells it, `(hash << 5) - hash + code` then `\| 0` (no contract; HashStepMatches equates it with HashStep) |
| Card.HashStep | apps/clients/web/src/components/card/card.tsx:36-37 | one hash step gives a signed 32-bit value |
| Card.HashStepMatches | apps/clients/web/src/components/card/card.tsx:36-37 | `(hash << 5) - hash + code`, then `\| 0`, equals 31 * hash + code wrapped to signed 32 bits |
| Card.StringHash | apps/clients/web/src/components/card/card.tsx:33-38 | the hash of a string is a signed 32-bit value |
| Card.HashStringToSeed | apps/clients/web/src/components/card/card.tsx:33-40 | the loop computes the absolute value of the folded 32-bit hash, a seed in [0, 2^31] |
| Card.SeedCanBeTwoTo31 | apps/clients/web/src/components/card/card.tsx:39 | a concrete id, "wvydzwwp", hashes to -2^31, so the seed 2^31 occurs |
| Card.FresnelOffsetX | apps/clients/web/src/components/card/card.tsx:129 | for every seed the offset lies in [-50, 49] |
| Card.FresnelScale | apps/clients/web/src/components/card/card.tsx:131 | for every seed the scale lies in [1.00, 1.29] |
| Card.FresnelOffsetY | apps/clients/web/src/components/card/card.tsx:130 | `((seed >> 2) % 100) - 50` with JavaScript's truncating `%` (no contract; its range is stated by ShiftedOffsetsInRange and OffsetYAtTwoTo31) |
| Card.GlitterOffsetX | apps/clients/web/src/components/card/card.tsx:133 | `((seed >> 3) % 100) - 50` (no contract; its range is stated by ShiftedOffsetsInRange) |
| Card.GlitterOffsetY | apps/clients/web/src/components/card/card.tsx:134 | `((seed >> 5) % 100) - 50` (no contract; its range is stated by ShiftedOffsetsInRange) |
| Card.GlitterScale | apps/clients/web/src/components/card/card.tsx:135 | `1 + ((seed >> 7) % 30) / 100` (no contract; its range is stated by ShiftedOffsetsInRange) |
| Card.ShiftedOffsetsInRange | apps/clients/web/src/components/card/card.tsx:130-135 | below 2^31 the Y offset, the glitter offsets and the glitter scale stay in their ranges |
| Card.OffsetYAtTwoTo31 | apps/clients/web/src/components/card/card.tsx:130 | at seed 2^31, `seed >> 2` is negative and the Y offset is -62, outside [-50, 49] |
| Card.ClampToExtent | apps/clients/web/src/components/card/card.tsx:78-79 | the clamp lands in [0, extent]; it keeps a value already inside and sends one outside to the nearer edge |
| Card.CardPointer.constructor | apps/clients/web/src/components/card/card.tsx:69-70 | the position starts at (0, 150) |
| Card.CardPointer.HandleMouseMove | apps/clients/web/src/components/card/card.tsx:73-80 | the stored position is the relative position clamped into [0, width] x [0, height] |
| JumbleText.MaskDigits | apps/clients/web/src/components/card/JumbleText.tsx:18 | `target.replace(/\d/g, mask)` (no contract; stated by the lemmas below) |
| JumbleText.MaskDigitsChar | apps/clients/web/src/components/card/JumbleText.tsx:18 | one character: a digit becomes the three-character mask, any other character stays |
| JumbleText.MaskDigitsConcat | apps/clients/web/src/components/card/JumbleText.tsx:18 | masking distributes over concatenation, so with MaskDigitsChar each character is replaced in place and independently |
| JumbleText.MaskDigitsHidesDigits | apps/clients/web/src/components/card/JumbleText.tsx:18 | the initial display holds no digit, and it is longer by two characters per digit |
| JumbleText.MaskDigitsKeepsDigitFree | apps/clients/web/src/components/card/JumbleText.tsx:18 | a target without digits is displayed unchanged at first |
| JumbleText.MaskDigitsIdempotent | apps/clients/web/src/components/card/JumbleText.tsx:18 | masking twice is masking once |
| JumbleText.RevealSteps | apps/clients/web/src/components/card/JumbleText.tsx:24 | the step count is the ceiling of duration / interval |
| JumbleText.Revealed | apps/clients/web/src/components/card/JumbleText.tsx:26 | `Math.floor((frame / revealSteps) * target.length)`, with the NaN and Infinity cases of zero steps (no contract; stated by RevealedProgress and RevealedMonotone) |
| JumbleText.RevealedProgress | apps/clients/web/src/components/card/JumbleText.tsx:26 | frame 0 reveals nothing, each frame up to the last reveals at most the whole target, and from the last step on everything is revealed |
| JumbleText.RevealedMonotone | apps/clients/web/src/components/card/JumbleText.tsx:26 | a later frame never reveals fewer characters |
| JumbleText.BuildFrame | apps/clients/web/src/components/card/JumbleText.tsx:27-36 | the frame has the target's length, keeps its spaces, shows revealed positions as the target, and fills the rest with the picked alphabet characters |
| JumbleText.FullFrameIsTarget | apps/clients/web/src/components/card/JumbleText.tsx:26-36 | a frame where everything is revealed is the target |
| JumbleText.Jumble.constructor | apps/clients/web/src/components/card/JumbleText.tsx:17-24 | duration and interval default to 800 and 30; the display starts digit-masked at frame 0 |
| JumbleText.Jumble.Tick | apps/clients/web/src/components/card/JumbleText.tsx:25-44 | one frame: the display is the frame for the revealed count, the frame counter advances, another frame is scheduled exactly while frame <= steps, and the display is the target otherwise |
| JumbleText.RunToEnd | apps/clients/web/src/components/card/JumbleText.tsx:20-45 | the effect stops after steps + 1 frames with the display equal to the target |
| IconPicker.SliceIndex | apps/clients/web/src/components/icons/icon-picker.tsx:76 | a non-negative slice bound is capped at the length |
| IconPicker.CeilDiv | apps/clients/web/src/components/icons/icon-picker.tsx:80 | the result is the ceiling of n / d |
| IconPicker.FilteredIconsPage | apps/clients/web/src/components/icons/icon-picker.tsx:73-77 | `filteredIcons.slice(start, start + pageSize)` with `start = (page - 1) * pageSize` (no contract; stated by PageIsWindow) |
| IconPicker.PageIsWindow | apps/clients/web/src/components/icons/icon-picker.tsx:73-77 | the page is the clipped window of pageSize icons starting at (page - 1) * pageSize, so at most pageSize long |
| IconPicker.ButtonGrid | apps/clients/web/src/components/icons/icon-picker.tsx:79-85 | `ceil(n / 10)` rows, row k the slice from 10k to 10k + 10 (no contract; stated by ButtonGridRows) |
| IconPicker.ButtonGridRows | apps/clients/web/src/components/icons/icon-picker.tsx:79-85 | the grid has ceil(n / 10) rows of 1 to 10 icons, and the rows concatenate back to the page |
| IconPicker.Filter | apps/clients/web/src/components/icons/icon-picker.tsx:110-112 | the filter never lengthens the list |
| IconPicker.FilterMembers | apps/clients/web/src/components/icons/icon-picker.tsx:110-112 | an icon is kept exactly when it is in the library and its lower-cased name includes the query |
| IconPicker.FilterConcat | apps/clients/web/src/components/icons/icon-picker.tsx:110-112 | filtering distributes over concatenation, so the order is preserved |
| IconPicker.FilterEmptyQuery | apps/clients/web/src/components/icons/icon-picker.tsx:99-105 | the empty query keeps every icon |
| IconPicker.Filtered | apps/clients/web/src/components/icons/icon-picker.tsx:97-115 | the list the search box leads to: the whole library for "", otherwise the filter by the normalised query (no contract; used by the class invariant and HandleSearchChange) |
| IconPicker.Neighbours | apps/clients/web/src/components/icons/icon-picker.tsx:51-64 | the eight cells around the clicked one (no contract; stated by NeighboursAround) |
| IconPicker.NeighboursAround | apps/clients/web/src/components/icons/icon-picker.tsx:51-64 | the stagger grid is exactly the eight cells at Chebyshev distance 1, not the clicked cell itself |
| IconPicker.StaggerDelay | apps/clients/web/src/components/icons/icon-picker.tsx:130-137 | the delay is non-negative and 0 without an active pulse |
| IconPicker.StaggerDelayAroundClick | apps/clients/web/src/components/icons/icon-picker.tsx:130-137 | around the clicked cell: 0 on it, 60 on the direct neighbours, 120 on the diagonal ones |
| IconPicker.StaggerDelayZeroIff | apps/clients/web/src/components/icons/icon-picker.tsx:133-136 | during a pulse, only the clicked cell has delay 0 |
| IconPicker.Picker.NextDisabled | apps/clients/web/src/components/icons/icon-picker.tsx:215-218 | an enabled Next means a non-empty filtered list with icons past the current page |
| IconPicker.Picker.PrevDisabled | apps/clients/web/src/components/icons/icon-picker.tsx:203 | Prev is disabled exactly on page 1 or below |
| IconPicker.Picker.constructor | apps/clients/web/src/components/icons/icon-picker.tsx:12-20 | an empty search over the whole library, page 1 of 50, and no pulse |
| IconPicker.Picker.HandleSearchChange | apps/clients/web/src/components/icons/icon-picker.tsx:97-115 | the search is stored, the filtered list becomes the library filtered by the normalised query (the whole library for ""), the page resets to 1, and the stagger state stays |
| IconPicker.Picker.HandlePrev | apps/clients/web/src/components/icons/icon-picker.tsx:205-207 | the page becomes max(1, page - 1) and nothing else changes |
| IconPicker.Picker.HandleNext | apps/clients/web/src/components/icons/icon-picker.tsx:214-227 | a disabled button changes nothing; an enabled one moves to page + 1, which the library-wide cap never cuts short |
| IconPicker.NextStaysUnderCap | apps/clients/web/src/components/icons/icon-picker.tsx:215-227 | while Next is enabled, page + 1 stays within ceil(library size / pageSize) |
| IconPicker.Picker.TriggerStagger | apps/clients/web/src/components/icons/icon-picker.tsx:47-64 | the clicked cell and the pulse are set, the grid becomes its eight neighbours, and one pulse end is scheduled |
| IconPicker.Picker.EndPulse | apps/clients/web/src/components/icons/icon-picker.tsx:66-70 | the pulse, the coordinate and the grid are cleared |
| IconPicker.Picker.Delay | apps/clients/web/src/components/icons/icon-picker.tsx:130-137 | a button's delay is non-negative, and 0 when no pulse is active |
| IconPicker.ClickAndSettle | apps/clients/web/src/components/icons/icon-picker.tsx:47-70 | a click followed by its pulse end leaves no stagger state behind |
| ToastStore.OrderAfterSet | apps/clients/web/src/components/core/toasts/toast-store.ts:34 | `Map.set` keeps the position of an existing key and appends a new one |
| ToastStore.OrderAfterDelete | apps/clients/web/src/components/core/toasts/toast-store.ts:40 | `Map.delete` removes exactly that key from the iteration order |
| ToastStore.OrderUpdatesKeepDistinct | apps/clients/web/src/components/core/toasts/toast-store.ts:31-42 | both updates keep each id at most once in the order |
| ToastStore.DeleteAbsent | apps/clients/web/src/components/core/toasts/toast-store.ts:40 | deleting an absent id leaves the order as it was |
| ToastStore.SetThenDelete | apps/clients/web/src/components/core/toasts/toast-store.ts:31-42 | adding a new id and deleting it again restores the order |
| ToastStore.Store.constructor | apps/clients/web/src/components/core/toasts/toast-store.ts:30 | the store starts empty |
| ToastStore.Store.AddToast | apps/clients/web/src/components/core/toasts/toast-store.ts:31-36 | the id now maps to the toast, every other entry is unchanged, and an existing id keeps its place |
| ToastStore.Store.RemoveToast | apps/clients/web/src/components/core/toasts/toast-store.ts:37-42 | the id is gone, the other entries are unchanged, and removing an absent id is a no-op |
| ToastStore.Store.Listed | apps/clients/web/src/components/core/toasts/toast-store.ts:23-36 | iterating the map gives the toasts in insertion order, one per id |
| ToastStore.CreatedToast | apps/clients/web/src/components/core/toasts/toast-store.ts:45-47 | the stored toast has the title and description, the duration or 3000, and no status |
| ToastStore.CreateToast | apps/clients/web/src/components/core/toasts/toast-store.ts:45-54 | adds that toast under the fresh id and returns that id |
| ToastStore.CreateThenExpire | apps/clients/web/src/components/core/toasts/toast-store.ts:45-54 | a new toast whose timer fires leaves the store as it was |
| Text.Trim | apps/server/src/features/users/user-schemas.ts:11-25 | `trim` gives the part of the string after its leading whitespace, everything cut off at either end is whitespace, and the result neither starts nor ends with whitespace |
| Text.TrimIdempotent | apps/server/src/features/users/user-schemas.ts:11-25 | trimming twice is trimming once |
| Text.ToLower | apps/clients/web/src/components/icons/icon-picker.tsx:108-111 | `toLowerCase` keeps the length and lower-cases each ASCII letter |
| Text.CollapseWhitespace | apps/clients/web/src/components/icons/icon-picker.tsx:108 | empty exactly for the empty string, and starts with whitespace exactly when the input does |
| Text.CollapseWhitespaceCollapses | apps/clients/web/src/components/icons/icon-picker.tsx:108 | after the replacement the only whitespace is single spaces |
| Text.CollapseWhitespaceFixes | apps/clients/web/src/components/icons/icon-picker.tsx:108 | a string already collapsed is unchanged |
| Text.CollapseWhitespaceIdempotent | apps/clients/web/src/components/icons/icon-picker.tsx:108 | collapsing twice is collapsing once |
| Schema.ParseCheck | apps/server/src/features/users/user-schemas.ts:8-26 | only strings and dates pass a check, and a trimmed-string check yields the trimmed string |
| Schema.ParseFields | apps/server/src/features/groups/group-schemas.ts:24-25 | a nested object parses exactly when no field has an issue, and keeps exactly the fields that are present |
| Schema.Parse | apps/server/src/features/users/user-schemas.ts:8-26 | a failure names a non-empty set of the shape's keys; success exactly when no key has an issue; the output holds exactly the present keys with their parsed values |
| Schema.ParseHasRequiredKeys | apps/server/src/features/users/user-schemas.ts:8-26 | after a successful parse every key that is not optional is present |
| Schema.ParseStrips | apps/server/src/features/users/user-schemas.ts:8-26 | a parse keeps no key outside the shape |
| Schema.Pick | apps/server/src/features/users/user-schemas.ts:28-41 | `pick` keeps exactly the named keys of the shape, unchanged |
| Schema.Omit | apps/server/src/features/groups/group-schemas.ts:11 | `omit` drops exactly the named keys, keeping the rest unchanged |
| Schema.Extend | apps/server/src/features/users/user-schemas.ts:49 | `extend` has both key sets, and the extension wins on a shared key |
| Schema.Partial | apps/server/src/features/users/user-schemas.ts:48 | `partial` keeps the keys and makes each one optional |
| UserSchemas.NameChars | apps/server/src/features/users/user-schemas.ts:5 | the allowed set is exactly the ASCII letters, digits, `_`, space and `-` |
| UserSchemas.NameCheck | apps/server/src/features/users/user-schemas.ts:11-18 | the name chain: a string, trimmed, 2 to 100 characters, all from the name pattern (no contract; stated by NameRule) |
| UserSchemas.PasswordCheck | apps/server/src/features/users/user-schemas.ts:21-25 | the password chain: a string, trimmed, 8 to 128 characters (no contract; stated by PasswordRule) |
| UserSchemas.UserShape | apps/server/src/features/users/user-schemas.ts:8-26 | `UserSchema`: id, email, name, createdAt, updatedAt and password, all required |
| UserSchemas.SelectShape | apps/server/src/features/users/user-schemas.ts:28-30 | `UserSelectSchema`: id only |
| UserSchemas.RegistrationShape | apps/server/src/features/users/user-schemas.ts:32-36 | `UserRegistrationSchema`: the pick of email, password and name (its keys are stated by RegistrationFields) |
| UserSchemas.LoginShape | apps/server/src/features/users/user-schemas.ts:38-41 | `UserLoginSchema`: the pick of email and password (stated by LoginFields) |
| UserSchemas.UpdateShape | apps/server/src/features/users/user-schemas.ts:43-49 | `UserUpdateSchema` before its refinement: email, name and password made optional, extended with the select shape (stated by UpdateFields) |
| UserSchemas.UpdateRefinement | apps/server/src/features/users/user-schemas.ts:50-52 | the refinement: the parsed object has at least one key |
| UserSchemas.NameRule | apps/server/src/features/users/user-schemas.ts:3-18 | a name passes exactly when its trimmed form has 2 to 100 characters, all allowed ones, and it yields that trimmed form |
| UserSchemas.PasswordRule | apps/server/src/features/users/user-schemas.ts:21-25 | a password passes exactly when its trimmed form has 8 to 128 characters, and it yields that trimmed form |
| UserSchemas.EmailRule | apps/server/src/features/users/user-schemas.ts:10 | the email format is checked on the raw string, and then the string is trimmed |
| UserSchemas.RegistrationFields | apps/server/src/features/users/user-schemas.ts:32-36 | registration requires exactly email, password and name |
| UserSchemas.LoginFields | apps/server/src/features/users/user-schemas.ts:38-41 | login requires exactly email and password |
| UserSchemas.UpdateFields | apps/server/src/features/users/user-schemas.ts:43-49 | update requires id, with email, name and password optional under their usual rules |
| UserSchemas.RegistrationParseKeys | apps/server/src/features/users/user-schemas.ts:32-36 | a parsed registration has exactly the three keys |
| UserSchemas.UpdateRefinementHolds | apps/server/src/features/users/user-schemas.ts:50-52 | every parsed update has an id, so the "at least one field" refinement always holds |
| UserSchemas.UpdateNeedsId | apps/server/src/features/users/user-schemas.ts:43-49 | an update without an id is rejected |
| GroupSchemas.GroupShape | apps/server/src/features/groups/group-schemas.ts:5-9 | `GroupSchemaBase`: a uuid id, a name of at least one character, an optional description |
| GroupSchemas.CreateShape | apps/server/src/features/groups/group-schemas.ts:11 | `GroupCreateSchema`: the base without id (stated by CreateFields) |
| GroupSchemas.UpdateShape | apps/server/src/features/groups/group-schemas.ts:12-14 | `GroupUpdateSchema`: the base made optional, with the id required again (stated by UpdateFields) |
| GroupSchemas.SelectShape | apps/server/src/features/groups/group-schemas.ts:15-17 | `GroupSelectSchema`: id only (stated by SelectFields) |
| GroupSchemas.RoleEntry | apps/server/src/features/groups/group-schemas.ts:20 | `z.enum(GroupRole).default("MEMBER")` (stated by RoleDefault) |
| GroupSchemas.MembershipShape | apps/server/src/features/groups/group-schemas.ts:19-21 | `GroupMembershipSchema`: the user select extended by the group select, then by the role (stated by MembershipFields) |
| GroupSchemas.AddUserShape | apps/server/src/features/groups/group-schemas.ts:23-26 | `GroupAddUserSchema`: the group select, a nested user select, and the role (stated by AddUserFields) |
| GroupSchemas.GroupNameRule | apps/server/src/features/groups/group-schemas.ts:7 | a group name passes exactly when it is non-empty, and it is not trimmed |
| GroupSchemas.CreateFields | apps/server/src/features/groups/group-schemas.ts:5-11 | the create shape is name (required) and description (optional), with no id |
| GroupSchemas.UpdateFields | apps/server/src/features/groups/group-schemas.ts:12-14 | the update shape requires an id and makes name and description optional |
| GroupSchemas.SelectFields | apps/server/src/features/groups/group-schemas.ts:15-17 | the select shape is only the id |
| GroupSchemas.MembershipFields | apps/server/src/features/groups/group-schemas.ts:19-21 | the membership shape is one id and a role; the two `id` keys merge into one |
| GroupSchemas.AddUserFields | apps/server/src/features/groups/group-schemas.ts:23-26 | the add-user shape is an id, a nested user object with an id, and a role |
| GroupSchemas.RoleDefault | apps/server/src/features/groups/group-schemas.ts:19-26 | the parsed role is MEMBER when absent, and otherwise the given role, which must be a GroupRole |
| RequestContext.Defaults | apps/server/types.ts:18-24 | take 10, skip 0, page 0, an empty correlation id and no user |
| RequestContext.Merge | apps/server/types.ts:30-34 | `{ ...createContextDefaults(), ...req.context, ...context }` (no contract; stated by the merge lemmas below) |
| RequestContext.MergePrecedence | apps/server/types.ts:26-36 | a key given in the new context wins; otherwise the existing context's value; otherwise the default |
| RequestContext.MergeNoKeys | apps/server/types.ts:30-34 | merging nothing keeps the existing context, or installs the defaults when there is none |
| RequestContext.MergeIdempotent | apps/server/types.ts:30-34 | assigning the same partial context twice is assigning it once |
| RequestContext.MergeSequential | apps/server/types.ts:30-34 | two assignments in a row are one assignment of the second laid over the first |
| RequestContext.Request.constructor | apps/server/types.ts:9-11 | a request starts with its query and no context |
| RequestContext.AssignContextDefaults | apps/server/types.ts:26-36 | returns the same request, whose context is now the merge and whose query is unchanged |
| PaginationMiddleware.ParseBound | apps/server/src/middleware/pagination-middleware.ts:6-7 | a missing key gives the default; a given one passes exactly when it coerces to a safe integer no less than the minimum, and yields that integer |
| PaginationMiddleware.ParsePagination | apps/server/src/middleware/pagination-middleware.ts:5-19 | success exactly when both bounds parse, with take >= 1 and skip >= 0; a failure names the offending keys |
| PaginationMiddleware.ParseEmptyQuery | apps/server/src/middleware/pagination-middleware.ts:6-7 | an empty query gives take 10, skip 0 |
| PaginationMiddleware.ParseZero | apps/server/src/middleware/pagination-middleware.ts:6 | take 0 is rejected, with skip also named when it is bad too |
| PaginationMiddleware.Handle | apps/server/src/middleware/pagination-middleware.ts:10-24 | a bad query gives status 400 and `next` is not called; a good one stores the parsed pagination, keeps the other context keys, and calls `next` |
| PaginationMiddleware.PassedContext | apps/server/src/middleware/pagination-middleware.ts:21 | after the middleware, the context's take and skip are within bounds and the page is absent |
| PaginationMiddleware.ToPrismaOptions | apps/server/src/middleware/pagination-middleware.ts:26-33 | exactly the skip and take of its input |
| UserDto.ToSafe | apps/server/src/features/users/user-dto.ts:5-9 | null exactly for null; otherwise id, name and timestamps copied |
| UserDto.ToSafeKeepsTheRest | apps/server/src/features/users/user-dto.ts:7-8 | the projection plus the dropped email and password rebuilds the user, so every other field is copied unchanged |
| UserDto.ToSafeHidesSecrets | apps/server/src/features/users/user-dto.ts:7-8 | the projection does not depend on the email or the password |
| Db.RoleFromName | apps/server/src/features/groups/group-schemas.ts:20 | a parsed role name names that role |
| Db.RoleNameRoundTrip | apps/server/src/features/groups/group-schemas.ts:20 | every role's name parses back to the role |
| Db.Hash | apps/server/src/core/hash.ts:4-6 | the hash is longer than the password |
| Db.VerifyHash | apps/server/src/core/hash.ts:8-21 | a hash verifies exactly the password it was made from |
| Db.PlaintextNeverVerifies | apps/server/src/core/hash.ts:8-21 | a stored plaintext password does not verify against itself |
| Db.Filter | apps/server/src/features/users/user-service.ts:31 | a filter keeps exactly the rows that satisfy the predicate |
| Db.FilterDistinct | apps/server/src/features/users/user-service.ts:31 | filtering keeps rows distinct |
| Db.Page | apps/server/src/features/users/user-service.ts:27-29 | `findMany` with skip and take gives the take rows from skip on, clipped; negative values are an error |
| Db.UserById | apps/server/src/features/users/user-repo.ts:27-32 | finds a row with that id, and none exactly when no row has it |
| Db.UserByEmail | apps/server/src/features/users/user-repo.ts:9-14 | finds a row with that email, and none exactly when no row has it |
| Db.GroupById | apps/server/src/features/groups/groups-service.ts:34-36 | finds a group with that id, and none exactly when no group has it |
| Db.LookupsFindRow | apps/server/src/features/users/user-repo.ts:9-32 | with unique keys, a lookup by id or by email finds the one row that has it |
| Db.Replace | apps/server/src/features/users/user-repo.ts:43-50 | the table with the row holding the key of the new row replaced by it, and every other row kept in place |
| Db.CreateUser | apps/server/src/features/users/user-repo.ts:16-25 | a new row is appended, unless the id or the email is taken |
| Db.CreateUserValid | apps/server/src/features/users/user-repo.ts:16-25 | creating a user keeps the tables valid |
| Db.UpdatedUser | apps/server/src/features/users/user-repo.ts:45-49 | given fields replace the stored ones and absent ones are kept; the timestamp is refreshed |
| Db.UpdateUser | apps/server/src/features/users/user-repo.ts:42-52 | a missing id is an error, a taken email is an error, and otherwise the row becomes the updated user |
| Db.ReplaceRows | apps/server/src/features/users/user-repo.ts:43-50 | replacing the row of an existing key keeps the rows distinct and the key set, and holds exactly the new row and the rows with other keys |
| Db.UpdateUserValid | apps/server/src/features/users/user-repo.ts:42-52 | updating a user keeps the tables valid |
| Db.ReplacedUserValid | apps/server/src/features/users/user-repo.ts:43-50 | writing a row with the same id and an email no other user holds keeps the tables valid |
| Db.DeleteUser | apps/server/src/features/users/user-repo.ts:54-58 | a missing id is an error; otherwise the user and its memberships go and the groups stay |
| Db.DeleteUserValid | apps/server/src/features/users/user-repo.ts:54-58 | deleting a user keeps the tables valid |
| Db.CreateGroup | apps/server/src/features/groups/groups-service.ts:14-25 | the group and the OWNER membership of its creator are appended together; an unknown creator or a taken id is an error |
| Db.CreateGroupValid | apps/server/src/features/groups/groups-service.ts:14-25 | creating a group keeps the tables valid, and the new group's only membership is the creator's OWNER row |
| Db.UpdatedGroup | apps/server/src/features/groups/groups-service.ts:68-71 | the name is replaced when given, and an absent description is stored as null |
| Db.UpdateGroup | apps/server/src/features/groups/groups-service.ts:57-72 | fails with record-not-found exactly when the group is missing or the caller has none of the allowed roles in it; otherwise the group is updated |
| Db.UpdateGroupValid | apps/server/src/features/groups/groups-service.ts:57-72 | updating a group keeps the tables valid |
| Db.DeleteGroup | apps/server/src/features/groups/groups-service.ts:82-84 | fails exactly when the group is missing or the caller is not its OWNER; otherwise the group and its memberships go and the users stay |
| Db.DeleteGroupValid | apps/server/src/features/groups/groups-service.ts:82-84 | deleting a group keeps the tables valid |
| Db.CreateMembership | apps/server/src/features/groups/groups-service.ts:106-112 | an unknown user or group is a foreign-key error, an existing membership is a uniqueness error, and otherwise the row is appended |
| Db.CreateMembershipValid | apps/server/src/features/groups/groups-service.ts:106-112 | adding a membership keeps the tables valid |
| Db.GroupMemberships | apps/server/src/features/groups/groups-service.ts:91-92 | exactly the memberships of that group |
| Db.Database.constructor | apps/server/src/features/users/user-repo.ts:8 | the store starts with empty, valid tables |
| UserService.LoginOutcome | apps/server/src/features/users/user-service.ts:11-22 | a result is the safe projection of a user with that email whose stored hash verifies the password; no user with the email gives null |
| UserService.LoginIff | apps/server/src/features/users/user-service.ts:15-21 | with unique emails, login succeeds exactly when the user with that email has a hash that verifies the password |
| UserService.NewUser | apps/server/src/features/users/user-service.ts:41-42 | the stored password is the hash, never the plaintext |
| UserService.RegisterThenLogin | apps/server/src/features/users/user-service.ts:34-45 | after registering, the password logs in as the new user and any other password is refused |
| UserService.StoredPassword | apps/server/src/features/users/user-service.ts:60 | a given new password is stored hashed; an absent one stays absent |
| UserService.UpdatedPasswordRejectedAsWritten | apps/server/src/features/users/user-repo.ts:42-52 | as written, after a password update the new password no longer logs in |
| UserService.UpdatedPasswordLogsIn | apps/server/src/features/users/user-service.ts:55-62 | with the password hashed, after an update the new password logs in and no other does |
| UserService.StoredPasswordAsWritten | apps/server/src/features/users/user-service.ts:55-62 | the password `updateUser` hands the store as written: the given value, unhashed (no contract; the as-written half of the finding) |
| UserService.Service.constructor | apps/server/src/features/users/user-service.ts:10 | the service works on the given store |
| UserService.Service.Login | apps/server/src/features/users/user-service.ts:11-22 | returns the login outcome over the user table |
| UserService.Service.FetchUsers | apps/server/src/features/users/user-service.ts:24-32 | the page of users, each reduced to its safe projection; bad paging is an error |
| UserService.Service.RegisterUser | apps/server/src/features/users/user-service.ts:34-45 | a taken email throws "User already exists" with the store unchanged; a free email passes the store's create through: its error as a database error, or the user stored with the hashed password and its safe projection returned; a free email with a fresh id always succeeds |
| UserService.Service.FetchUser | apps/server/src/features/users/user-service.ts:47-53 | null exactly for an unknown id; otherwise that user's safe projection |
| UserService.Service.UpdateUserAsWritten | apps/server/src/features/users/user-service.ts:55-62 | another caller gets "Cannot update another user" and nothing changes; for the caller's own id the store's update runs with the password unhashed, and its error or its updated row is passed on |
| UserService.Service.UpdateUser | apps/server/src/features/users/user-service.ts:55-62 | another caller gets "Cannot update another user" and nothing changes; for the caller's own id the store's update runs with the password hashed, and its error or the updated row's projection is passed on |
| UserService.Service.DeleteUser | apps/server/src/features/users/user-service.ts:64-68 | another caller gets "Cannot delete another user"; for the caller's own id the store's delete runs, its error is passed on, and on success the user and its memberships are gone with the success message; deleting one's own existing account always succeeds |
| GroupsService.MemberRef | apps/server/src/features/groups/groups-service.ts:91-97 | a member is reported as the id, email and name of that user |
| GroupsService.CreatedGroupHasOwner | apps/server/src/features/groups/groups-service.ts:14-25 | a new group's creator is its OWNER, and that is its only membership |
| GroupsService.RoleGuards | apps/server/src/features/groups/groups-service.ts:55-84 | a caller who is only a MEMBER can neither update nor delete the group |
| GroupsService.CreatorMayManage | apps/server/src/features/groups/groups-service.ts:9-84 | right after creating a group, its creator may update it and may delete it |
| GroupsService.DeletedGroupHasNoMembers | apps/server/src/features/groups/groups-service.ts:82-84 | a deleted group has no memberships and no row left |
| GroupsService.Service.constructor | apps/server/src/features/groups/groups-service.ts:8 | the service works on the given store |
| GroupsService.Service.CreateGroup | apps/server/src/features/groups/groups-service.ts:9-28 | the store's create is passed through: an unknown creator or a taken id is a database error with the store unchanged; otherwise the group with description or null and its creator's OWNER row are stored; an existing creator with a fresh id always succeeds |
| GroupsService.Service.FetchGroup | apps/server/src/features/groups/groups-service.ts:30-41 | throws "Group not found" exactly for an unknown id, and otherwise returns that group |
| GroupsService.Service.FetchGroups | apps/server/src/features/groups/groups-service.ts:43-49 | the requested page of groups |
| GroupsService.Service.UpdateGroup | apps/server/src/features/groups/groups-service.ts:51-75 | no user throws "Unauthorized"; otherwise the store's update is passed through: a missing group or a caller without ADMIN or OWNER fails with nothing changed; an ADMIN or OWNER always succeeds, and the stored group is the old one with the name if given and the description or null |
| GroupsService.Service.DeleteGroup | apps/server/src/features/groups/groups-service.ts:77-85 | no user throws "Unauthorized"; otherwise the store's delete is passed through: only an OWNER of an existing group deletes it, always successfully, and its memberships go with it |
| GroupsService.Service.FetchGroupUsers | apps/server/src/features/groups/groups-service.ts:87-98 | the page of that group's memberships, each mapped to its user's id, email and name; everyone returned is a member |
| GroupsService.Service.AddGroupUser | apps/server/src/features/groups/groups-service.ts:100-115 | no user throws "Unauthorized"; any logged-in caller may add a membership with the given role, with no role check |
| GroupsService.CreateThenDelete | apps/server/src/features/groups/groups-service.ts:9-85 | through the service, a logged-in creator creates a group and deletes it again: both calls succeed and the tables hold the same rows as before |

## Left out

- IEEE floating point: tilt, duration and card arithmetic is over exact reals. Rounding and `-0` are not modelled. Division by zero is modelled.
- The framer-motion springs, `useTransform` chains, `tiltMagnitude`, the opacities and the parallax, the particles and the ripple: animation and presentation.
- Strings are sequences of Unicode characters. UTF-16 code units (`charCodeAt` above U+FFFF, surrogate pairs) are not modelled. `toLowerCase` lowers ASCII letters only.
- `Math.random`, `Date.now`, `crypto.randomUUID` and the timestamps are parameters. `setTimeout` and `clearInterval` are explicit state with a fire method. Real time and the event loop are not modelled.
- JumbleText.RevealSteps: requires a positive interval. The source divides by any interval; zero or negative values are not modelled.
- JumbleText.Jumble.constructor: requires a positive interval, for the same reason.
- The toast removal timer is modelled only as `RemoveToast` firing later (`ToastStore.CreateThenExpire`), not with a duration.
- The clipboard write and the toasts of `handleIconSelect` (icon-picker.tsx:22-44) are browser I/O.
- Card.FresnelOffsetY, Card.GlitterOffsetX, Card.GlitterOffsetY, Card.GlitterScale: bounded only for seeds below 2^31. At the seed 2^31 the shifted seed is negative (`Card.OffsetYAtTwoTo31`).
- IconPicker.NeighboursAround: states which cells the set holds, not that there are eight. A JavaScript `Set` of arrays compares by reference; the model uses value pairs.
- JsNumber.Mul: multiplies by a finite factor only, which is all the tilt mapping needs.
- The zod email and UUID formats are the parameters `isEmail` and `isUuid`. `z.coerce.number()` is the parameter `toNumber`. Query values are modelled as strings only, not arrays.
- `UserJsonSchema` and its `refine`, which returns an object that is always truthy, are not modelled.
- zod error trees (`z.treeifyError`) are reduced to the set of offending keys.
- argon2 is modelled as a deterministic prefix hash with an exact verify. Salting and the hash format are not modelled.
- Prisma is modelled as three ordered tables. The Prisma schema is not part of this model; from the services' use of it, the model assumes:
  - cascade delete of memberships;
  - one membership per (user, group);
  - foreign keys on memberships;
  - unique user emails;
  - `updatedAt` refreshed on update.
- A negative `take`, which Prisma reads as paging backwards, is an error in the model.
- `groupService.fetchUserGroups` is called by a controller but is not defined anywhere, so it is not modelled.
- Controllers, routers, `server.ts`, the logger, the logger and error middleware, and cookie handling: HTTP plumbing.
- The view wiring (`toast-container.tsx`, `toast.tsx`, `App.tsx`, `main.tsx`, `framer-motion-sandbox.tsx`) holds no logic of its own.
- React's render and re-render cycle is reduced to explicit method calls. `Flippable.Flippable.Rerender` stands for a render with a new prop.

## Findings

| source | as written | input that shows it | evidently intended | confidence | as-written member | corrected member |
|---|---|---|---|---|---|---|
| apps/server/src/features/users/user-repo.ts:42-52 | `updateUser` writes `data.password` straight into the user row; `userService.updateUser` (user-service.ts:55-62) does not hash it first, unlike `registerUser` | a logged-in user updates with `password: "newpassword1"` and then logs in with "newpassword1": `argon2.verify` is given the plaintext, which is not an argon2 hash string, as the stored hash; it rejects it (most likely by throwing, which the error middleware turns into a server error), so the new password does not log in | hash the new password before storing it, as registration does, so the new password logs in | not executed | UserService.UpdatedPasswordRejectedAsWritten | UserService.UpdatedPasswordLogsIn |
