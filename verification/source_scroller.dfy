/**
 * The controller of src/HorizontalScroll.ts: the same drag and notification
 * machine as dist/HorizontalScroll.js, but its public `slide` takes an
 * `ignoreSensitivity` flag that defaults to true, and the wheel asks for the
 * sensitivity explicitly.
 */
module SourceScroller {
  import opened Outcomes
  import opened Inputs
  import opened Notifications
  import opened DragSession
  import opened Widget

  /** `slide(n, ignoreSensitivity = true)`: the multiplier is 1 unless the caller passes false. */
  function Slide(c: Controller, firstWidth: Option<nat>, n: int, ignoreSensitivity: bool)
    : (r: Result<Controller, SlideError>)
    ensures n == 0 ==> r == Failure(ZeroCount)
    ensures c.Inert? && n != 0 ==> r == Failure(MissingElement)
    ensures r.Success? <==> c.Live? && n != 0 && firstWidth.Some?
    ensures Settle(c, r).Live? == c.Live?
    ensures r.Success? ==> r.value.Live?
    ensures r.Success? ==>
      r.value.drag.scrollLeft - c.drag.scrollLeft
      == (firstWidth.value * n) as real * (if ignoreSensitivity then 1.0 else c.sensitivity)
    ensures c.Live? ==> Settle(c, r).drag.(scrollLeft := c.drag.scrollLeft) == c.drag
  {
    SlideBy(c, firstWidth, n, if ignoreSensitivity then 1.0 else c.sensitivity)
  }

  /**
   * With the default flag a slide moves by exactly `n` first-child widths, and
   * does not depend on the instance's sensitivity at all.
   */
  lemma DefaultSlideIgnoresSensitivity(c: Controller, width: nat, n: int, k: real)
    requires c.Live?
    ensures Settle(c, Slide(c, Some(width), n, true)).drag.scrollLeft
            == c.drag.scrollLeft + (width * n) as real
    ensures Settle(c, Slide(c, Some(width), n, true)).drag
            == Settle(c.(sensitivity := k), Slide(c.(sensitivity := k), Some(width), n, true)).drag
  {
  }

  /** The reaction to one input; only the wheel's call to `slide` is written differently from dist. */
  function Step(c: Controller, firstWidth: Option<nat>, input: Input): (r: Reaction)
    ensures c.Inert? ==> r == Reaction(c, [])
    ensures r.controller.Live? == c.Live? && r.controller.sensitivity == c.sensitivity
    ensures |r.tags| <= 1
    ensures c.Live? ==> (r.tags == [] <==> input.Move? && !c.drag.dragState)
  {
    match c
    case Inert(_) => Reaction(c, [])
    case Live(s, k) =>
      match input
      case Down(_, x) => Reaction(Live(InteractDown(s, x), k), [Held])
      case Up(_) => Reaction(Live(InteractUp(s), k), [Release])
      case Move(source, x) =>
        var moved := InteractMove(s, source, x);
        Reaction(Live(moved, k), if s.dragState then [Direction(moved)] else [])
      case Wheel(deltaY) =>
        var delta := if deltaY > 0.0 then 1 else -1;
        Reaction(Settle(c, Slide(c, firstWidth, delta, false)), [if delta > 0 then WheelDown else WheelUp])
  }

  /** A wheel moves by plus or minus one slide width times the sensitivity and publishes its direction. */
  lemma StepWheel(c: Controller, width: nat, deltaY: real)
    requires c.Live?
    ensures var r := Step(c, Some(width), Wheel(deltaY));
      && r.tags == [if deltaY > 0.0 then WheelDown else WheelUp]
      && r.controller.drag.(scrollLeft := c.drag.scrollLeft) == c.drag
      && r.controller.drag.scrollLeft - c.drag.scrollLeft
         == (if deltaY > 0.0 then 1.0 else -1.0) * width as real * c.sensitivity
  {
  }

  /** The reaction to a trace of inputs. */
  function Run(c: Controller, firstWidth: Option<nat>, inputs: seq<Input>): (r: Reaction)
    ensures c.Inert? ==> r == Reaction(c, [])
    ensures r.controller.Live? == c.Live? && r.controller.sensitivity == c.sensitivity
    ensures |r.tags| <= |inputs|
    decreases |inputs|
  {
    if |inputs| == 0 then Reaction(c, [])
    else
      var first := Step(c, firstWidth, inputs[0]);
      var rest := Run(first.controller, firstWidth, inputs[1..]);
      Reaction(rest.controller, first.tags + rest.tags)
  }
}
