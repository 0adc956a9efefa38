/**
 * How the three revisions relate: the two later ones react identically to
 * every input and differ only in what a bare public `slide(n)` means; the
 * version 1.0 controller drags exactly as they do under mouse input.
 */
module Revisions {
  import opened Outcomes
  import opened Inputs
  import opened DragSession
  import opened Widget
  import DistScroller
  import SourceScroller
  import LegacyScroller

  /** The src machine reacts to every input exactly as the dist machine does. */
  lemma StepsAgree(c: Controller, firstWidth: Option<nat>, input: Input)
    ensures SourceScroller.Step(c, firstWidth, input) == DistScroller.Step(c, firstWidth, input)
  {
  }

  /** Hence they publish the same tags and reach the same controller on every trace. */
  lemma {:induction false} RunsAgree(c: Controller, firstWidth: Option<nat>, inputs: seq<Input>)
    ensures SourceScroller.Run(c, firstWidth, inputs) == DistScroller.Run(c, firstWidth, inputs)
    decreases |inputs|
  {
    if |inputs| > 0 {
      StepsAgree(c, firstWidth, inputs[0]);
      RunsAgree(DistScroller.Step(c, firstWidth, inputs[0]).controller, firstWidth, inputs[1..]);
    }
  }

  /** The two `slide` signatures map onto each other once the multiplier is spelled out. */
  lemma ExplicitSlidesAgree(c: Controller, firstWidth: Option<nat>, n: int)
    ensures SourceScroller.Slide(c, firstWidth, n, false)
            == DistScroller.Slide(c, firstWidth, n, Some(c.sensitivity))
            == DistScroller.Slide(c, firstWidth, n, None)
    ensures SourceScroller.Slide(c, firstWidth, n, true) == DistScroller.Slide(c, firstWidth, n, Some(1.0))
  {
  }

  /**
   * A bare `slide(n)` that really moves means the same in both revisions
   * exactly when the instance's sensitivity is 1.
   */
  lemma DefaultSlidesDiffer(c: Controller, width: nat, n: int)
    requires c.Live? && width > 0 && n != 0
    ensures Settle(c, SourceScroller.Slide(c, Some(width), n, true))
            == Settle(c, DistScroller.Slide(c, Some(width), n, None))
            <==> c.sensitivity == 1.0
  {
    var d := (width * n) as real;
    assert width * n != 0 by {
      if n > 0 { assert width * n >= width; } else { assert width * n <= 0 - width; }
    }
    var src := Settle(c, SourceScroller.Slide(c, Some(width), n, true));
    var dist := Settle(c, DistScroller.Slide(c, Some(width), n, None));
    assert src.drag.scrollLeft == c.drag.scrollLeft + d * 1.0;
    assert dist.drag.scrollLeft == c.drag.scrollLeft + d * c.sensitivity;
    if src == dist {
      assert d * (c.sensitivity - 1.0) == 0.0;
    }
  }

  /** The v1.0 instance that corresponds to a later-revision instance: the same session, no sensitivity. */
  function Legacy(c: Controller): (l: LegacyScroller.Controller)
    ensures l.Live? <==> c.Live?
    ensures c.Live? ==> l.drag == c.drag
  {
    match c
    case Inert(_) => LegacyScroller.Inert
    case Live(s, _) => LegacyScroller.Live(s)
  }

  /** A trace of mouse presses, moves and releases. */
  ghost predicate MousePointerOnly(inputs: seq<Input>) {
    forall i :: 0 <= i < |inputs| ==> !inputs[i].Wheel? && inputs[i].source == Mouse
  }

  /**
   * Under mouse pointer input the v1.0 controller drags exactly as the dist
   * controller does; the later revision only adds notifications.
   */
  lemma {:induction false} LegacyDragAgrees(c: Controller, firstWidth: Option<nat>, inputs: seq<Input>)
    requires MousePointerOnly(inputs)
    ensures LegacyScroller.Run(Legacy(c), inputs) == Legacy(DistScroller.Run(c, firstWidth, inputs).controller)
    decreases |inputs|
  {
    if |inputs| > 0 {
      var next := DistScroller.Step(c, firstWidth, inputs[0]).controller;
      assert LegacyScroller.Step(Legacy(c), inputs[0]) == Legacy(next);
      assert MousePointerOnly(inputs[1..]) by {
        forall i | 0 <= i < |inputs[1..]| ensures !inputs[1..][i].Wheel? && inputs[1..][i].source == Mouse {
          assert inputs[1..][i] == inputs[i + 1];
        }
      }
      LegacyDragAgrees(next, firstWidth, inputs[1..]);
    }
  }
}
