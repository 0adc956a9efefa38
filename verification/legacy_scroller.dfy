/**
 * The version 1.0 controller of HorizontalScroll.js: mouse dragging through
 * `onmousedown`/`onmousemove` on the element and `onmouseup` on the window,
 * and a wheel that adds its raw vertical delta to the offset. It publishes no
 * notifications and installs no touch handlers.
 */
module LegacyScroller {
  import opened Outcomes
  import opened Inputs
  import opened DragSession

  /** An instance; `Inert` when no element matches the query. */
  datatype Controller = Inert | Live(drag: State)

  /** The wheel handler's fixed local sensitivity. */
  const WheelSensitivity: real := 1.0

  /**
   * `new HorizontalScroll(query)`: `container` is `None` when the query
   * matches no element, and otherwise carries that element's scroll offset.
   */
  function Construct(container: Option<real>): (c: Controller)
    ensures c.Live? <==> container.Some?
    ensures c.Live? ==> !c.drag.dragState && c.drag.dragStartPos == 0.0
    ensures c.Live? ==> c.drag.scrollLeft == container.value
  {
    match container
    case None => Inert
    case Some(offset) => Live(Init(offset))
  }

  /** The controller after one input. Touch input reaches no handler. */
  function Step(c: Controller, input: Input): (r: Controller)
    ensures c.Inert? ==> r == c
    ensures r.Live? == c.Live?
    ensures !input.Wheel? && input.source == Touch ==> r == c
    ensures c.Live? && input.Wheel? ==>
      && r.drag.(scrollLeft := c.drag.scrollLeft) == c.drag
      && r.drag.scrollLeft - c.drag.scrollLeft == input.deltaY
  {
    match c
    case Inert => c
    case Live(s) =>
      match input
      case Down(Mouse, x) => Live(InteractDown(s, x))
      case Move(Mouse, x) => Live(InteractMove(s, Mouse, x))
      case Up(Mouse) => Live(InteractUp(s))
      case Wheel(deltaY) => Live(s.(scrollLeft := s.scrollLeft + deltaY * WheelSensitivity))
      case _ => c
  }

  /**
   * Mouse handlers: a down anchors a session without scrolling, a move inside
   * a session drags the content against the pointer, a move outside one does
   * nothing, and an up only clears the drag flag.
   */
  lemma StepMouse(c: Controller, x: int)
    requires c.Live?
    ensures var r := Step(c, Down(Mouse, x)).drag;
      && r.dragState && r.dragMouseDownPos == x
      && r.dragStartPos == c.drag.scrollLeft && r.scrollLeft == c.drag.scrollLeft
    ensures c.drag.dragState ==>
      Step(c, Move(Mouse, x)).drag.scrollLeft == c.drag.dragStartPos + (c.drag.dragMouseDownPos - x) as real
    ensures !c.drag.dragState ==> Step(c, Move(Mouse, x)) == c
    ensures Step(c, Up(Mouse)).drag == c.drag.(dragState := false)
  {
  }

  /** The reaction to a trace of inputs. */
  function Run(c: Controller, inputs: seq<Input>): (r: Controller)
    ensures c.Inert? ==> r == c
    ensures r.Live? == c.Live?
    decreases |inputs|
  {
    if |inputs| == 0 then c else Run(Step(c, inputs[0]), inputs[1..])
  }

  /** The sum of the vertical deltas of the wheel inputs of a trace. */
  function TotalDelta(inputs: seq<Input>): real {
    if |inputs| == 0 then 0.0
    else (if inputs[0].Wheel? then inputs[0].deltaY else 0.0) + TotalDelta(inputs[1..])
  }

  /**
   * A run of wheels adds the sum of their deltas to the offset, whatever the
   * drag state, and leaves the session untouched.
   */
  lemma {:induction false} WheelsAccumulate(c: Controller, inputs: seq<Input>)
    requires c.Live?
    requires forall i :: 0 <= i < |inputs| ==> inputs[i].Wheel?
    ensures Run(c, inputs).drag == c.drag.(scrollLeft := c.drag.scrollLeft + TotalDelta(inputs))
    decreases |inputs|
  {
    if |inputs| > 0 {
      WheelsAccumulate(Step(c, inputs[0]), inputs[1..]);
    }
  }

  /**
   * The down and move coordinates the constructor leaves undefined are never
   * observed: controllers that differ only in them reach indistinguishable
   * sessions, with the same offset, on every trace, touch and wheel included.
   */
  lemma {:induction false} UninitialisedCoordinatesUnobservable(c: Controller, d: Controller, inputs: seq<Input>)
    requires c.Live? && d.Live? && Indistinguishable(c.drag, d.drag)
    ensures Indistinguishable(Run(c, inputs).drag, Run(d, inputs).drag)
    decreases |inputs|
  {
    if |inputs| > 0 {
      match inputs[0] {
        case Down(_, x) => HandlersRespectIndistinguishable(c.drag, d.drag, Mouse, x);
        case Move(source, x) => HandlersRespectIndistinguishable(c.drag, d.drag, source, x);
        case Up(_) => HandlersRespectIndistinguishable(c.drag, d.drag, Mouse, 0);
        case Wheel(_) =>
      }
      UninitialisedCoordinatesUnobservable(Step(c, inputs[0]), Step(d, inputs[0]), inputs[1..]);
    }
  }
}
