# Portfolio interaction script, modelled in Dafny

This project models the interaction logic of a static portfolio site's enhancement script, `assets/js/index.js`. The script wires four independent components up when the document is ready:

- **Scroll reveal** (`ScrollReveal`, `scroll_reveal.dfy`). Every element matched by the reveal selectors is tagged as animatable and watched by an intersection observer. When an entry intersects, its element is marked visible and is no longer watched. Nothing is set up when reduced motion is preferred.
- **Smooth anchor scroll** (`SmoothScroll`, `smooth_scroll.dfy`). This is the decision a click on an in-page link makes. The bare `#` is left alone. A fragment whose target exists cancels navigation and scrolls to the target instead.
- **Header parallax** (`HeaderParallax`, `header_parallax.dfy`). Scroll events request an animation-frame callback. A `ticking` flag coalesces them, so at most one callback is pending. The callback recomputes the header container's opacity and offset while the header is still in view.
- **Draggable widget** (`DraggableWidget`, `draggable_widget.dfy`). The widget has an Idle/Dragging gesture machine over mouse and touch input. Each move clamps the widget into the viewport. A sticky "moved" flag, set past a 5-pixel threshold, decides whether the click after a gesture is cancelled. Every release that ends a gesture saves the position under the local-storage key `llyli-widget-position`, and the next page load restores it.

Each stateful component is a class whose fields hold the script's closure variables and the page state its handlers change: style, class markers, storage, the observer's watch set, and the queue of requested frame callbacks. Each event handler is a method on that class. A method's postcondition ties the new state to a value-level transition function over a datatype: `Step` over `Gesture` for the widget, `Step` over `Ticker` for the parallax, and `Deliver` over `Watcher` for the reveal callback. Properties of whole event sequences are lemmas about each module's `Run`, the fold of its transition function. Browser facts that a handler reads become parameters: pointer coordinates, viewport and widget sizes, scroll offset, header height, and whether a target or container exists. Effects on the event (`preventDefault`, `stopPropagation`) become boolean results. Local storage is an optional position.

Two details of the code that the model keeps:
- The moved flag is not cleared when a gesture ends. Only the next press (`assets/js/index.js:153`) or the click handler (`assets/js/index.js:233`) clears it.
- At an offset equal to the header height the callback makes no update, because the test at `assets/js/index.js:95` is strict.

## Model

| member | source | states |
|---|---|---|
| DraggableWidget.Clamp | assets/js/index.js:198-199 | the result is never negative, never above a non-negative maximum, 0 when the maximum is negative or the candidate is negative, and the candidate itself when it lies in [0, max] |
| DraggableWidget.DragTarget | assets/js/index.js:182-199 | the new top-left is never negative; it keeps a widget that fits inside the viewport wholly inside it; it is pinned to 0 on an axis where the widget is larger than the viewport; a candidate `initial + delta` that already fits is left unchanged |
| DraggableWidget.Restore | assets/js/index.js:123-139 | on load the widget is idle and not moved, and its left/top style is the stored position when one is stored, and the stylesheet's anchoring when none is |
| DraggableWidget.Step | assets/js/index.js:151-235 | every handler keeps the invariant that a widget being dragged has its own left/top |
| DraggableWidget.Prevented | assets/js/index.js:171-233 | a release or a click is cancelled only after a moved gesture, and a click exactly then; a press is cancelled exactly for touch; outside a gesture only a touch press or a click after a moved gesture cancels anything |
| DraggableWidget.Run | assets/js/index.js:141-149 | the invariant holds after any sequence of mouse, touch and click events |
| DraggableWidget.PressKeepsWidgetInPlace | assets/js/index.js:151-169 | a press starts dragging, clears the moved flag, records the pointer and the current top-left as start and initial coordinates, and gives the widget that top-left as its own left/top, so it is drawn where it was |
| DraggableWidget.IdleIgnoresMoveAndRelease | assets/js/index.js:176-210 | outside a gesture a move or a release changes nothing (no position update, no save) and cancels nothing |
| DraggableWidget.MovedClearedOnlyByPressOrClick | assets/js/index.js:151-235 | the moved flag goes from set to clear only on a press or a click |
| DraggableWidget.MovedIffSomeMoveExceeds | assets/js/index.js:182-188 | during a gesture, after any run of moves the moved flag is set exactly when it was set before or some move was more than 5 px from the start on some axis; start and initial coordinates and storage are unchanged |
| DraggableWidget.PositionFollowsLastMove | assets/js/index.js:182-202 | the left/top after a run of moves is the clamped position of the last move alone, computed from the gesture's start and not from the previous move |
| DraggableWidget.GestureOutcome | assets/js/index.js:151-235 | a press, moves and a release end the drag and store the final top-left, even with no movement, when the widget stays where it was drawn; the release and the following click are cancelled exactly when some move passed the threshold, and that click clears the flag |
| DraggableWidget.ReloadRestoresReleasedPosition | assets/js/index.js:128-135 | the position saved on release is the one the next load restores as left/top |
| DraggableWidget.DragToCornerExample | assets/js/index.js:190-199 | a 100x50 widget dragged by (+10000, +10000) in a 1920x1080 viewport stops at (1820, 1030) |
| DraggableWidget.Widget.constructor | assets/js/index.js:123-139 | the widget starts idle with the restored position, or keeps the stylesheet's anchoring when nothing is stored |
| DraggableWidget.Widget.StartDrag | assets/js/index.js:151-174 | performs the press transition; cancels the event only for touch |
| DraggableWidget.Widget.Drag | assets/js/index.js:176-207 | performs the move transition (threshold test, clamped left/top); cancels only a touch move during a gesture |
| DraggableWidget.Widget.EndDrag | assets/js/index.js:209-227 | performs the release transition: stores the widget's top-left and cancels the release exactly when the gesture moved |
| DraggableWidget.Widget.OnClick | assets/js/index.js:230-235 | cancels the click exactly when the moved flag is set, and clears it |
| HeaderParallax.FrameStyle | assets/js/index.js:91-104 | a callback updates the style exactly when the scroll offset is below the header height; the opacity then lies in (0.5, 1] and the offset is non-negative; at offset 0 the style is opacity 1, offset 0 |
| HeaderParallax.OpacityDecreases | assets/js/index.js:95-97 | the opacity never rises as the scroll offset grows, and falls strictly when the offset grows strictly |
| HeaderParallax.Init | assets/js/index.js:79-86 | the scroll listener is registered exactly when a header exists and reduced motion is not preferred; nothing is ticking, pending, run or applied |
| HeaderParallax.Step | assets/js/index.js:88-111 | a scroll never runs a callback or restyles, and requests at most one more; a frame leaves nothing pending, runs every pending callback and clears `ticking` when one ran; with nothing pending a frame changes nothing |
| HeaderParallax.InitCoalesced | assets/js/index.js:78-86 | the component starts with nothing pending and is inert under reduced motion |
| HeaderParallax.StepCoalesced | assets/js/index.js:88-111 | each scroll or frame keeps at most one callback pending, with `ticking` true exactly when one is; a frame runs at most one callback; a scroll while ticking changes nothing |
| HeaderParallax.RunCoalesced | assets/js/index.js:86-111 | after any sequence of scrolls and frames the coalescing invariant holds, no more callbacks have run than there were frames, and callbacks run or pending never outnumber scrolls |
| HeaderParallax.InertNeverUpdates | assets/js/index.js:79-84 | without a header, or under reduced motion, no event ever schedules, runs or applies anything |
| HeaderParallax.BurstPendsOne | assets/js/index.js:88-110 | any burst of scrolls leaves exactly one callback pending and runs none |
| HeaderParallax.BurstCoalescedIntoOneFrame | assets/js/index.js:86-111 | a burst of scrolls followed by a frame yields exactly one recomputation, from the offset read in that frame |
| HeaderParallax.Parallax.constructor | assets/js/index.js:78-88 | the listener is active only with a header and without reduced motion; nothing is pending |
| HeaderParallax.Parallax.OnScroll | assets/js/index.js:88-111 | performs the scroll transition; a scroll while ticking schedules nothing |
| HeaderParallax.Parallax.OnFrame | assets/js/index.js:90-107 | performs the frame transition, running at most one callback and clearing `ticking` |
| ScrollReveal.Revealed | assets/js/index.js:37-43 | an element is revealed by a batch exactly when some entry of the batch for it is intersecting |
| ScrollReveal.Deliver | assets/js/index.js:36-44 | one callback never removes a visible element nor resumes watching one, keeps the two sets disjoint, marks visible and stops watching every intersecting entry's element, and reveals nothing that no intersecting entry named |
| ScrollReveal.QuietBatchChangesNothing | assets/js/index.js:37-43 | a batch with no intersecting entry changes neither set |
| ScrollReveal.RunMonotone | assets/js/index.js:36-44 | over any sequence of callbacks the visible set only grows, the watched set only shrinks, and they stay disjoint |
| ScrollReveal.VisibleIffReported | assets/js/index.js:36-44 | an element ends visible exactly when it was visible or some callback reported it intersecting, and it stays watched exactly when it was watched and none did |
| ScrollReveal.RevealObserver.constructor | assets/js/index.js:25-51 | under reduced motion nothing is tagged or watched; otherwise every matched element is tagged and watched and none is visible |
| ScrollReveal.RevealObserver.OnEntries | assets/js/index.js:36-44 | the callback's loop marks each intersecting entry's element visible and stops watching it, which is the `Deliver` transition |
| SmoothScroll.OnAnchorClick | assets/js/index.js:59-71 | navigation is cancelled exactly when the href is not the bare `#` and its target exists, and then the target is scrolled into view; the bare `#` does nothing |

## Left out

- Document querying, class-list edits other than the dragging, animatable and visible markers, `style` string building (`'px'`, `translateY(...)`) and listener registration are not modelled. The model holds their results as fields and return values.
- The absent-widget and absent-header early returns are not modelled beyond `Parallax`'s `headerPresent` flag. Without the widget, no `Widget` exists.
- Dark-mode detection is left out: it is an environment flag with no state. Reduced motion is a constructor flag.
- `JSON.parse` and `JSON.stringify` are not modelled. Storage holds an optional position, and a malformed value counts as nothing stored. The code clears the right/bottom anchoring before it reads `x` and `y`. A value that parses but is not a position object (such as `null`) therefore clears the anchoring without setting left/top. The model does not capture that partial effect.
- Coordinates, opacity and offsets are exact integers and reals, not IEEE doubles. Sub-pixel rectangles and rounding are not modelled.
- The model does not extract touch or mouse coordinates. The handlers receive the pointer position directly.
- The widget's rendered rectangle is its left/top style. The stylesheet's anchored rectangle is a parameter of the press, because it depends on the viewport. Transforms applied by the dragging class are not modelled.
- The start and initial coordinates are undefined in the script until the first press. The model starts them at 0, and no property depends on that value.
- `requestAnimationFrame` timing is not modelled. A frame event runs every pending callback. Negative scroll offsets (overscroll) are not modelled: the offset is a natural number.
- Intersection-observer geometry (root margin, threshold) is not modelled: only the callback's state effect is. Batches may report any element. The observer's guarantee that it reports only watched elements is not assumed.
- The browser's click generation is not modelled. `Click` is an independent event that may follow any release. Browsers that follow the Touch Events rules send no click after a touch start whose default was cancelled, so the click after a gesture in `GestureOutcome` arises only for mouse gestures.
- Smooth-scroll animation is reduced to a boolean. A selector that the document query rejects with an exception leaves the default in place, so the model treats it as a missing target.
