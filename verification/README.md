# HorizontalScroll — a Dafny model of the interaction state machine

HorizontalScroll is a small browser widget that scrolls an overflowed strip of
content sideways. A user drags it with a mouse or a finger, or spins the wheel.
In the later revisions each wheel tick moves the strip by one "slide": the
width of the container's first child times the instance's sensitivity. The later revisions also republish every interaction as a bubbling
`HorizontalScroll` custom event. Its `detail.message` is one of six tags:
`held`, `release`, `scrollleft`, `scrollright`, `wheelup`, `wheeldown`.

The repository holds three revisions of the widget, and this project models each one:

- `dist/HorizontalScroll.js` is the compiled latest revision (module `DistScroller`).
- `src/HorizontalScroll.ts` is its TypeScript source (module `SourceScroller`). It differs
  in two places. The second parameter of `slide` is an `ignoreSensitivity`
  flag that defaults to true, instead of a sensitivity that defaults to the
  instance's. The wheel calls `slide(delta, false)` where dist calls
  `slide(delta)`; both choose the instance's sensitivity.
- `HorizontalScroll.js` is version 1.0 (module `LegacyScroller`). It has mouse
  dragging only, no notifications, and a wheel that adds the raw `deltaY` to
  the offset.

Each revision is a pure step function. A `Controller` is either `Inert` (the
constructor found no element and installed no handlers) or `Live`. A live
controller carries the drag session (`dragState`, `dragStartPos`,
`dragMouseDownPos`, `dragMouseMovePos`) and the container's `scrollLeft`. An
`Input` is a mouse or touch down, move or up, or a wheel with its `deltaY`.
`Step` returns the new controller plus the tags published, in order, and `Run`
folds `Step` over a trace. Every revision updates the drag session the same
way, so the session updates are written once (module `DragSession`). Version
1.0 has only the mouse branch, and its handlers publish nothing. The
body of `slide` is also the same in both later revisions once the multiplier is
chosen, so it is written once too (`Widget.SlideBy`). Module `Revisions` proves
how the revisions relate:

- the src and dist machines react identically to every input;
- on a live instance, a bare `slide(n)` with `n ≠ 0` and a first child of
  non-zero width means the same in both exactly when the sensitivity is 1
  (a zero count, a failing slide or a zero width agree whatever the sensitivity);
- under mouse input, version 1.0 drags exactly as the later revisions do.

Modelling choices:

- Coordinates and widths are integers. The sensitivity, `scrollLeft` and
  `dragStartPos` are exact reals, because a slide adds
  `width × n × sensitivity`.
- The width of the first child is a parameter: `Some(clientWidth)`, or `None`
  when the container has no children.
- `slide` returns a `Result`. `ZeroCount` is the warned no-op for `n = 0`.
  `MissingElement` and `MissingFirstChild` are the TypeErrors that reject the
  promise of the `async` `slide`. Failed slides change nothing (`Widget.Settle`).
- A constructor that meets a falsy element still returns an object, because
  `return null` in a JavaScript constructor does not replace `this`. That
  object has no handlers. In the later revisions it keeps its sensitivity, and
  its public `slide` rejects for any `n ≠ 0`.
- The constructor leaves `dragMouseDownPos` and `dragMouseMovePos`
  `undefined`. A down writes the down coordinate, and the first move inside a
  session writes the move coordinate. The model starts both at 0.
  `DistScroller.UninitialisedCoordinatesUnobservable` and
  `LegacyScroller.UninitialisedCoordinatesUnobservable` prove that their
  initial values never affect a tag or an offset.
- An omitted or `undefined` sensitivity argument defaults to 1
  (`Widget.DefaultSensitivity`).

Both later revisions measure one slide as the width of the container's own
first child, `this.element.children[0].clientWidth`
(dist/HorizontalScroll.js:72, src/HorizontalScroll.ts:82). Version 1.0 measures
nothing: its wheel adds the raw `deltaY`.

## Model

| member | source | states |
|---|---|---|
| Notifications.Dispatch | dist/HorizontalScroll.js:80-85 | every notification is a bubbling `HorizontalScroll` event whose message reads back as exactly the tag dispatched |
| Notifications.MessageInjective | src/HorizontalScroll.ts:90-99 | distinct tags are published as distinct message strings, so a subscriber can tell every interaction apart |
| DragSession.InteractDown | dist/HorizontalScroll.js:40-50 | a down starts a session anchored at the pointer coordinate and the current offset, does not scroll, and a mouse move back onto the anchor leaves the content where the press found it |
| DragSession.InteractMove | dist/HorizontalScroll.js:55-68 | a move outside a session changes nothing; inside one it records the coordinate, keeps the anchor, keeps offset + pointer equal to the anchor sum for a mouse, and leaves the offset alone for a touch |
| DragSession.InteractUp | dist/HorizontalScroll.js:51-54 | an up clears the drag flag whatever the prior state, and changes nothing else |
| DragSession.Direction | dist/HorizontalScroll.js:66 | the move tag is `scrollright` iff the pointer is strictly right of the anchor, and `scrollleft` otherwise, a tie included |
| DragSession.DragArithmetic | dist/HorizontalScroll.js:40-66 | a press at x0 then a mouse move to x1 moves the offset by x0 − x1 and is tagged right iff x1 > x0 |
| DragSession.MouseDragFollowsLastMove | dist/HorizontalScroll.js:55-65 | mouse dragging is path-independent: after any run of moves the offset depends only on the anchor and the last coordinate |
| DragSession.TouchDragKeepsOffset | dist/HorizontalScroll.js:60-65 | however long a touch drag runs, the controller never writes the offset |
| DragSession.ReleaseIdempotent | dist/HorizontalScroll.js:51-54 | releasing twice equals releasing once, and a press then a release leaves the offset unchanged |
| DragSession.HandlersRespectIndistinguishable | dist/HorizontalScroll.js:40-67 | each handler maps states that differ only in unobserved coordinates to such states, with the same direction tag |
| Widget.Construct | dist/HorizontalScroll.js:14-26 | an omitted sensitivity defaults to 1; a falsy element gives an inert instance that keeps the sensitivity; otherwise a live one, out of session, with start offset 0 over the container's current offset |
| Widget.SlideBy | dist/HorizontalScroll.js:71-78 | n = 0 is a warned no-op; otherwise the offset moves by width × n × multiplier and nothing else changes; no element or no first child is an error that changes nothing |
| Widget.SlideAdditive | dist/HorizontalScroll.js:69-79 | sliding by a then by b leaves the controller where sliding by a + b does, for all a and b, the zero guard included |
| Widget.SlideInverse | dist/HorizontalScroll.js:69-79 | sliding by n then by −n restores the controller |
| Widget.SlideIsUnitSteps | src/HorizontalScroll.ts:79-88 | a slide by n equals abs(n) successive slides by one in the direction of n |
| DistScroller.Slide | dist/HorizontalScroll.js:69-79 | the multiplier is the argument when given and the instance sensitivity when omitted or null; zero count is a warned no-op; an inert instance rejects any non-zero slide |
| DistScroller.SlideAdditive | dist/HorizontalScroll.js:69-79 | public `slide(a)` then `slide(b)` leaves the controller where `slide(a + b)` does |
| DistScroller.Step | dist/HorizontalScroll.js:27-68 | an inert instance ignores every input; a live one publishes at most one tag per input and nothing only for a move outside a session; down starts a session, up ends it, move and wheel keep it |
| DistScroller.StepDown | dist/HorizontalScroll.js:40-50 | a mouse or touch down publishes exactly `held`, anchors at the coordinate and the current offset, and does not scroll |
| DistScroller.StepMoveIdle | dist/HorizontalScroll.js:55-56 | a move outside a session changes no state and publishes nothing |
| DistScroller.StepMoveDragging | dist/HorizontalScroll.js:55-67 | a move in a session publishes one direction tag; a mouse move sets the offset to start + down − move, independent of sensitivity; a touch move keeps the offset |
| DistScroller.StepUp | dist/HorizontalScroll.js:51-54 | an up publishes `release`, ends the session, keeps the offset, and a second up yields the same reaction |
| DistScroller.StepWheel | dist/HorizontalScroll.js:34-38 | a positive delta slides forward one width × sensitivity and publishes `wheeldown`, otherwise backward with `wheelup`; the session is untouched |
| DistScroller.WheelRoundTrip | dist/HorizontalScroll.js:34-38 | a wheel down followed by a wheel up restores the controller exactly |
| DistScroller.Run | dist/HorizontalScroll.js:17-38 | an inert instance publishes nothing and stays inert on every trace; a trace never changes liveness or sensitivity and publishes at most one tag per input |
| DistScroller.RunAppend | dist/HorizontalScroll.js:27-38 | running two traces back to back equals running their concatenation, tags concatenated |
| DistScroller.StepTagCounts | dist/HorizontalScroll.js:34-66 | one input publishes `held` iff it is a down, `release` iff it is an up, and a wheel tag iff it is a wheel |
| DistScroller.TagCounts | dist/HorizontalScroll.js:27-66 | over any trace, `held` occurs once per down, `release` once per up, and wheel tags once per wheel |
| DistScroller.DraggingIffUnreleasedDown | dist/HorizontalScroll.js:40-56 | after a trace the controller is in a session iff some down has no later up, or it already was and the trace holds no up |
| Notifications.Publish | dist/HorizontalScroll.js:80-85 | a tag trace is published as one bubbling `HorizontalScroll` event per tag, in order, each message reading back as its tag |
| DistScroller.RunNotifications | dist/HorizontalScroll.js:27-85 | over any trace subscribers receive at most one bubbling `HorizontalScroll` event per input, carrying the published tags in order, one `held` per down; an inert instance publishes no event |
| DistScroller.StepRespectsIndistinguishable | dist/HorizontalScroll.js:40-68 | one input maps controllers differing only in unobserved coordinates to such controllers, with equal tags |
| DistScroller.UninitialisedCoordinatesUnobservable | dist/HorizontalScroll.js:10-26 | the coordinates the constructor leaves undefined never influence a tag or an offset on any trace |
| SourceScroller.Slide | src/HorizontalScroll.ts:79-88 | the multiplier is 1 when sensitivity is ignored and the instance sensitivity otherwise; zero count is a warned no-op; an inert instance rejects |
| SourceScroller.DefaultSlideIgnoresSensitivity | src/HorizontalScroll.ts:79-84 | a default `slide(n)` moves by exactly width × n, whatever the instance sensitivity |
| SourceScroller.Step | src/HorizontalScroll.ts:31-77 | an inert instance ignores every input; a live one publishes at most one tag per input and nothing only for a move outside a session |
| SourceScroller.StepWheel | src/HorizontalScroll.ts:40-44 | a wheel changes the offset by ± width × sensitivity and publishes `wheeldown` for a positive delta, `wheelup` otherwise |
| SourceScroller.Run | src/HorizontalScroll.ts:20-44 | with no element no handler runs: an inert instance publishes nothing on any trace |
| Revisions.StepsAgree | src/HorizontalScroll.ts:31-77 | the src machine reacts to every input exactly as the dist machine, so every dist step lemma holds for it |
| Revisions.RunsAgree | src/HorizontalScroll.ts:31-77 | the src and dist machines publish the same tags and reach the same controller on every trace |
| Revisions.ExplicitSlidesAgree | src/HorizontalScroll.ts:79-80 | src `slide(n, false)` is dist `slide(n)`, and src `slide(n, true)` is dist `slide(n, 1)` |
| Revisions.DefaultSlidesDiffer | src/HorizontalScroll.ts:79-84 | a moving bare `slide(n)` means the same in src and dist exactly when the sensitivity is 1 |
| LegacyScroller.Construct | HorizontalScroll.js:9-19 | no matching element gives an inert instance; otherwise a live one out of session over the element's offset |
| LegacyScroller.Step | HorizontalScroll.js:21-45 | an inert instance ignores every input; touch reaches no handler; a wheel adds its raw delta to the offset and changes nothing else, in or out of a session |
| LegacyScroller.StepMouse | HorizontalScroll.js:21-37 | mousedown anchors without scrolling, mousemove drags to start + down − move in a session and does nothing outside one, mouseup only clears the flag |
| LegacyScroller.Run | HorizontalScroll.js:13-15 | an instance built without an element stays inert on every trace |
| LegacyScroller.WheelsAccumulate | HorizontalScroll.js:40-45 | a run of wheels adds the sum of their deltas to the offset and leaves the session untouched |
| LegacyScroller.UninitialisedCoordinatesUnobservable | HorizontalScroll.js:17-37 | the coordinates the constructor leaves undefined never influence the session or the offset on any trace |
| Revisions.LegacyDragAgrees | HorizontalScroll.js:21-37 | under mouse presses, moves and releases the v1.0 controller keeps the same session and offset as the dist controller |

## Left out

- DOM wiring (`addEventListener`, `on*` handler slots, `document.querySelector`) and reading `children[0].clientWidth` are not modelled: inputs arrive as an `Input` value and the first child's width as a parameter.
- `CustomEvent` construction and bubbling through ancestors are reduced to the `Notification` record and the tag trace.
- The console warnings are not modelled as output. The constructor's warning is only the `Inert` result, and the zero-count warning is only `Failure(ZeroCount)`.
- Scrolling by the host between inputs is not modelled. This includes the browser's native touch scrolling, which the touch branch relies on (dist/HorizontalScroll.js:63, src/HorizontalScroll.ts:72), and scrollbar or keyboard scrolling. The model assumes only the controller writes `scrollLeft`. So after such scrolling, the offsets that `Run`, `WheelRoundTrip` and the trace lemmas describe are not the page's offset. The `held` anchor and every `slide` read the live offset in the source.
- Browser clamping and rounding of `scrollLeft`, and IEEE-754 arithmetic, are host semantics. The model uses exact integers and reals.
- `slide` is `async` but never awaits, so it is modelled as a synchronous step. A TypeError inside it becomes a `Failure` that changes nothing.
- Widget.Construct: an explicit `null` sensitivity is kept as `null` by JavaScript, because the default applies only to an omitted or `undefined` argument. The model's sensitivity is a real, so it cannot express `null`.
- A null or non-numeric sensitivity, a non-integer `n`, and NaN coordinates are not modelled.
- Events that are neither mouse nor touch cannot be expressed, because the input alphabet classifies every event as one or the other.
- DistScroller.Run and SourceScroller.Run use one first-child width for a whole trace, so a layout change in the middle of a trace is not modelled.
- Touch input on the version 1.0 controller reaches no handler. The compatibility mouse events a browser may synthesise from touches are host behaviour.
- The `this.listen("dragging")` call in version 1.0 is guarded by `isListening`, which that file never defines, so it is treated as publishing nothing.
- Several version 1.0 instances share the single global `window.onmouseup` slot, so a later instance replaces an earlier one's handler. This cross-instance global state is not modelled.
- less-watch.js is a stylesheet file-watcher and build script, entirely filesystem I/O, and is not part of this model.
