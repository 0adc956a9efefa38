/**
 * The controller of dist/HorizontalScroll.js: mouse and touch dragging,
 * wheel-to-slide translation, the public `slide`, and a notification for
 * every interaction. Its `slide` multiplier defaults to the instance's
 * sensitivity.
 */
module DistScroller {
  import opened Outcomes
  import opened Inputs
  import opened Notifications
  import opened DragSession
  import opened Widget

  /**
   * `slide(n, sensitivity = this.sensitivity)`: an omitted or null multiplier
   * falls back to the instance's sensitivity.
   */
  function Slide(c: Controller, firstWidth: Option<nat>, n: int, sensitivity: Option<real>)
    : (r: Result<Controller, SlideError>)
    ensures n == 0 ==> r == Failure(ZeroCount)
    ensures c.Inert? && n != 0 ==> r == Failure(MissingElement)
    ensures r.Success? <==> c.Live? && n != 0 && firstWidth.Some?
    ensures Settle(c, r).Live? == c.Live?
    ensures r.Success? ==> r.value.Live?
    ensures r.Success? ==>
      r.value.drag.scrollLeft - c.drag.scrollLeft
      == (firstWidth.value * n) as real * (if sensitivity.Some? then sensitivity.value else c.sensitivity)
    ensures c.Live? ==> Settle(c, r).drag.(scrollLeft := c.drag.scrollLeft) == c.drag
  {
    SlideBy(c, firstWidth, n, sensitivity.GetOr(c.sensitivity))
  }

  /** Public slides compose additively, so `slide(a)` then `slide(b)` is `slide(a + b)`. */
  lemma SlideAdditive(c: Controller, firstWidth: Option<nat>, a: int, b: int, sensitivity: Option<real>)
    ensures var c1 := Settle(c, Slide(c, firstWidth, a, sensitivity));
            Settle(c1, Slide(c1, firstWidth, b, sensitivity)) == Settle(c, Slide(c, firstWidth, a + b, sensitivity))
  {
    Widget.SlideAdditive(c, firstWidth, a, b, sensitivity.GetOr(c.sensitivity));
  }

  /**
   * The reaction to one input. An inert instance has no handlers; a live one
   * publishes `held`, `release`, a direction tag for each move inside a
   * session, and `wheeldown`/`wheelup` for a wheel after sliding by one.
   */
  function Step(c: Controller, firstWidth: Option<nat>, input: Input): (r: Reaction)
    ensures c.Inert? ==> r == Reaction(c, [])
    ensures r.controller.Live? == c.Live? && r.controller.sensitivity == c.sensitivity
    ensures |r.tags| <= 1
    ensures c.Live? ==> (r.tags == [] <==> input.Move? && !c.drag.dragState)
    ensures c.Live? && input.Down? ==> r.controller.drag.dragState
    ensures c.Live? && input.Up? ==> !r.controller.drag.dragState
    ensures c.Live? && (input.Move? || input.Wheel?) ==> r.controller.drag.dragState == c.drag.dragState
  {
    match c
    case Inert(_) => Reaction(c, [])
    case Live(s, k) =>
      match input
      case Down(_, x) => Reaction(Live(InteractDown(s, x), k), [Held])
      case Up(_) => Reaction(Live(InteractUp(s), k), [Release])
      case Move(source, x) =>
        var moved := InteractMove(s, source, x);
        Reaction(Live(moved, k), if s.dragState then [Direction(moved)] else [])
      case Wheel(deltaY) =>
        var delta := if deltaY > 0.0 then 1 else -1;
        Reaction(Settle(c, Slide(c, firstWidth, delta, None)), [if delta > 0 then WheelDown else WheelUp])
  }

  /** A down, mouse or touch, anchors a session at the current offset and publishes exactly `held`. */
  lemma StepDown(c: Controller, firstWidth: Option<nat>, source: Source, x: int)
    requires c.Live?
    ensures var r := Step(c, firstWidth, Down(source, x));
      && r.tags == [Held]
      && r.controller.drag.dragState
      && r.controller.drag.dragMouseDownPos == x
      && r.controller.drag.dragStartPos == c.drag.scrollLeft
      && r.controller.drag.scrollLeft == c.drag.scrollLeft
  {
  }

  /** Outside a session a move changes nothing and publishes nothing. */
  lemma StepMoveIdle(c: Controller, firstWidth: Option<nat>, source: Source, x: int)
    requires c.Live? && !c.drag.dragState
    ensures Step(c, firstWidth, Move(source, x)) == Reaction(c, [])
  {
  }

  /**
   * Inside a session a mouse move drags the content against the pointer, a
   * touch move leaves the offset alone, and both publish one direction tag,
   * `scrollright` exactly when the pointer is right of the anchor.
   */
  lemma StepMoveDragging(c: Controller, firstWidth: Option<nat>, source: Source, x: int)
    requires c.Live? && c.drag.dragState
    ensures var r := Step(c, firstWidth, Move(source, x));
      && r.tags == [if x > c.drag.dragMouseDownPos then ScrollRight else ScrollLeft]
      && r.controller.drag.dragState
      && r.controller.drag.dragMouseMovePos == x
      && (source == Mouse ==>
            r.controller.drag.scrollLeft
            == c.drag.dragStartPos + (c.drag.dragMouseDownPos - x) as real)
      && (source == Touch ==> r.controller.drag.scrollLeft == c.drag.scrollLeft)
  {
  }

  /** An up ends any session, publishes `release`, keeps the offset, and a second up changes nothing more. */
  lemma StepUp(c: Controller, firstWidth: Option<nat>, a: Source, b: Source)
    requires c.Live?
    ensures var r := Step(c, firstWidth, Up(a));
      && r.tags == [Release]
      && !r.controller.drag.dragState
      && r.controller.drag.scrollLeft == c.drag.scrollLeft
      && Step(r.controller, firstWidth, Up(b)) == r
  {
  }

  /**
   * A wheel slides by one slide width times the sensitivity, forward for a
   * positive delta (publishing `wheeldown`) and backward otherwise
   * (`wheelup`); the session is untouched. With no first child the slide is
   * rejected but the tag is still published.
   */
  lemma StepWheel(c: Controller, firstWidth: Option<nat>, deltaY: real)
    requires c.Live?
    ensures var r := Step(c, firstWidth, Wheel(deltaY));
      && r.tags == [if deltaY > 0.0 then WheelDown else WheelUp]
      && r.controller.drag.(scrollLeft := c.drag.scrollLeft) == c.drag
      && (firstWidth.None? ==> r.controller == c)
      && (firstWidth.Some? ==>
            r.controller.drag.scrollLeft - c.drag.scrollLeft
            == (if deltaY > 0.0 then 1.0 else -1.0) * firstWidth.value as real * c.sensitivity)
  {
  }

  /** A wheel down followed by a wheel up puts the controller back where it was. */
  lemma WheelRoundTrip(c: Controller, firstWidth: Option<nat>, down: real, up: real)
    requires c.Live? && down > 0.0 && up <= 0.0
    ensures Step(Step(c, firstWidth, Wheel(down)).controller, firstWidth, Wheel(up)).controller == c
  {
    Widget.SlideAdditive(c, firstWidth, 1, -1, c.sensitivity);
  }

  /** The reaction to a trace of inputs, all measured against the same first-child width. */
  function Run(c: Controller, firstWidth: Option<nat>, inputs: seq<Input>): (r: Reaction)
    ensures c.Inert? ==> r == Reaction(c, [])
    ensures r.controller.Live? == c.Live? && r.controller.sensitivity == c.sensitivity
    ensures |r.tags| <= |inputs|
    decreases |inputs|
  {
    if |inputs| == 0 then Reaction(c, [])
    else
      var first := Step(c, firstWidth, inputs[0]);
      var rest := Run(first.controller, firstWidth, inputs[1..]);
      Reaction(rest.controller, first.tags + rest.tags)
  }

  /** Running two traces back to back is running their concatenation. */
  lemma {:induction false} RunAppend(c: Controller, firstWidth: Option<nat>, a: seq<Input>, b: seq<Input>)
    ensures var ra := Run(c, firstWidth, a);
            var rb := Run(ra.controller, firstWidth, b);
            Run(c, firstWidth, a + b) == Reaction(rb.controller, ra.tags + rb.tags)
    decreases |a|
  {
    if |a| == 0 {
      assert a + b == b;
    } else {
      var first := Step(c, firstWidth, a[0]);
      assert (a + b)[0] == a[0];
      assert (a + b)[1..] == a[1..] + b;
      RunAppend(first.controller, firstWidth, a[1..], b);
      var ra := Run(first.controller, firstWidth, a[1..]);
      var rb := Run(ra.controller, firstWidth, b);
      assert first.tags + (ra.tags + rb.tags) == (first.tags + ra.tags) + rb.tags;
    }
  }

  /** The tags of one step, counted by the kind of its input. */
  lemma StepTagCounts(c: Controller, firstWidth: Option<nat>, input: Input)
    requires c.Live?
    ensures var tags := Step(c, firstWidth, input).tags;
      && Occurrences(tags, Held) == (if input.Down? then 1 else 0)
      && Occurrences(tags, Release) == (if input.Up? then 1 else 0)
      && Occurrences(tags, WheelUp) + Occurrences(tags, WheelDown) == (if input.Wheel? then 1 else 0)
  {
    var tags := Step(c, firstWidth, input).tags;
    if |tags| == 1 {
      assert tags[1..] == [];
    }
  }

  /**
   * A live controller publishes one `held` per down, one `release` per up and
   * one wheel tag per wheel, over any trace.
   */
  lemma {:induction false} TagCounts(c: Controller, firstWidth: Option<nat>, inputs: seq<Input>)
    requires c.Live?
    ensures Occurrences(Run(c, firstWidth, inputs).tags, Held) == Count(inputs, DownKind)
    ensures Occurrences(Run(c, firstWidth, inputs).tags, Release) == Count(inputs, UpKind)
    ensures Occurrences(Run(c, firstWidth, inputs).tags, WheelUp)
            + Occurrences(Run(c, firstWidth, inputs).tags, WheelDown) == Count(inputs, WheelKind)
    decreases |inputs|
  {
    if |inputs| > 0 {
      var first := Step(c, firstWidth, inputs[0]);
      var rest := Run(first.controller, firstWidth, inputs[1..]);
      TagCounts(first.controller, firstWidth, inputs[1..]);
      OccurrencesAppend(first.tags, rest.tags, Held);
      OccurrencesAppend(first.tags, rest.tags, Release);
      OccurrencesAppend(first.tags, rest.tags, WheelUp);
      OccurrencesAppend(first.tags, rest.tags, WheelDown);
      StepTagCounts(c, firstWidth, inputs[0]);
    }
  }

  /**
   * After a trace a live controller is in a drag session exactly when some
   * down of the trace has no up after it, or it was already in one and the
   * trace holds no up.
   */
  lemma {:induction false} DraggingIffUnreleasedDown(c: Controller, firstWidth: Option<nat>, inputs: seq<Input>)
    requires c.Live?
    ensures Run(c, firstWidth, inputs).controller.drag.dragState
            <==> UnreleasedDown(inputs) || (c.drag.dragState && NoUpFrom(inputs, 0))
    decreases |inputs|
  {
    if |inputs| > 0 {
      var first := Step(c, firstWidth, inputs[0]);
      DraggingIffUnreleasedDown(first.controller, firstWidth, inputs[1..]);
      UnreleasedDownCons(inputs);
    }
  }

  /** One input maps controllers that differ only in unobservable coordinates to such controllers, with the same tags. */
  lemma StepRespectsIndistinguishable(c: Controller, d: Controller, firstWidth: Option<nat>, input: Input)
    requires c.Live? && d.Live? && c.sensitivity == d.sensitivity
    requires Indistinguishable(c.drag, d.drag)
    ensures Step(c, firstWidth, input).tags == Step(d, firstWidth, input).tags
    ensures Indistinguishable(Step(c, firstWidth, input).controller.drag, Step(d, firstWidth, input).controller.drag)
  {
    match input
    case Down(_, x) => HandlersRespectIndistinguishable(c.drag, d.drag, Mouse, x);
    case Move(source, x) => HandlersRespectIndistinguishable(c.drag, d.drag, source, x);
    case Up(_) => HandlersRespectIndistinguishable(c.drag, d.drag, Mouse, 0);
    case Wheel(_) =>
  }

  /**
   * The down and move coordinates left `undefined` by the constructor are
   * never observed: controllers that differ only in them publish the same
   * tags and reach the same offsets on every trace.
   */
  lemma {:induction false} UninitialisedCoordinatesUnobservable(
    c: Controller, d: Controller, firstWidth: Option<nat>, inputs: seq<Input>)
    requires c.Live? && d.Live? && c.sensitivity == d.sensitivity
    requires Indistinguishable(c.drag, d.drag)
    ensures Run(c, firstWidth, inputs).tags == Run(d, firstWidth, inputs).tags
    ensures Indistinguishable(Run(c, firstWidth, inputs).controller.drag, Run(d, firstWidth, inputs).controller.drag)
    decreases |inputs|
  {
    if |inputs| > 0 {
      StepRespectsIndistinguishable(c, d, firstWidth, inputs[0]);
      UninitialisedCoordinatesUnobservable(
        Step(c, firstWidth, inputs[0]).controller, Step(d, firstWidth, inputs[0]).controller,
        firstWidth, inputs[1..]);
    }
  }

  /**
   * What subscribers see of a trace: at most one bubbling `HorizontalScroll`
   * event per input, each carrying the tag the controller published, with as
   * many `held` messages as downs; an inert instance publishes no event.
   */
  lemma RunNotifications(c: Controller, firstWidth: Option<nat>, inputs: seq<Input>)
    ensures var r := Run(c, firstWidth, inputs);
            var ns := Publish(r.tags);
      && |ns| <= |inputs|
      && (c.Inert? ==> ns == [])
      && (forall i :: 0 <= i < |ns| ==>
            ns[i].name == EventName && ns[i].bubbles && Parse(ns[i].message) == Some(r.tags[i]))
    ensures c.Live? ==> Occurrences(Run(c, firstWidth, inputs).tags, Held) == Count(inputs, DownKind)
  {
    if c.Live? {
      TagCounts(c, firstWidth, inputs);
    }
  }
}
