/**
 * The controller shared by the two later revisions (dist/HorizontalScroll.js and
 * src/HorizontalScroll.ts): its construction guard, its reaction type, and the
 * body of `slide` once the multiplier has been chosen, which both revisions share.
 */
module Widget {
  import opened Outcomes
  import opened Notifications
  import opened DragSession

  /** The constructor's default sensitivity. */
  const DefaultSensitivity: real := 1.0

  /**
   * A constructed instance. `Inert` is what construction yields when the
   * element argument is falsy: the sensitivity is stored, but no element is
   * kept and no handler is installed.
   */
  datatype Controller = Inert(sensitivity: real) | Live(drag: State, sensitivity: real)

  /** The controller after one input, and the tags it published, in order. */
  datatype Reaction = Reaction(controller: Controller, tags: seq<Tag>)

  /**
   * Why `slide` did not move: a zero count (warned and ignored), no element
   * (an inert instance), or no first child to measure. The last two are
   * TypeErrors in dist/HorizontalScroll.js and src/HorizontalScroll.ts, which
   * reject the promise `slide` returns.
   */
  datatype SlideError = ZeroCount | MissingElement | MissingFirstChild

  /**
   * `new HorizontalScroll(element, sensitivity = 1)`. `container` is `None`
   * when the element is falsy and otherwise carries its current scroll offset;
   * `sensitivity` is `None` when the argument is omitted or `undefined`.
   */
  function Construct(container: Option<real>, sensitivity: Option<real>): (c: Controller)
    ensures sensitivity.None? ==> c.sensitivity == DefaultSensitivity
    ensures sensitivity.Some? ==> c.sensitivity == sensitivity.value
    ensures c.Live? <==> container.Some?
    ensures c.Live? ==> !c.drag.dragState && c.drag.dragStartPos == 0.0
    ensures c.Live? ==> c.drag.scrollLeft == container.value
  {
    var k := sensitivity.GetOr(DefaultSensitivity);
    match container
    case None => Inert(k)
    case Some(offset) => Live(Init(offset), k)
  }

  /** The controller once a slide has settled: the failed ones change nothing. */
  function Settle(c: Controller, r: Result<Controller, SlideError>): Controller {
    if r.Success? then r.value else c
  }

  /**
   * Move the content by `n` slides of the first child's width `firstWidth`,
   * scaled by `multiplier`, relative to the current offset.
   */
  function SlideBy(c: Controller, firstWidth: Option<nat>, n: int, multiplier: real)
    : (r: Result<Controller, SlideError>)
    ensures n == 0 ==> r == Failure(ZeroCount)
    ensures n != 0 && c.Inert? ==> r == Failure(MissingElement)
    ensures r.Success? <==> n != 0 && c.Live? && firstWidth.Some?
    ensures Settle(c, r).Live? == c.Live? && Settle(c, r).sensitivity == c.sensitivity
    ensures c.Live? ==> Settle(c, r).drag.(scrollLeft := c.drag.scrollLeft) == c.drag
    ensures r.Success? ==>
      r.value.drag.scrollLeft - c.drag.scrollLeft == (firstWidth.value * n) as real * multiplier
  {
    if n == 0 then Failure(ZeroCount)
    else if c.Inert? then Failure(MissingElement)
    else if firstWidth.None? then Failure(MissingFirstChild)
    else
      var delta := (firstWidth.value * n) as real * multiplier;
      Success(c.(drag := c.drag.(scrollLeft := c.drag.scrollLeft + delta)))
  }

  /**
   * Slides compose additively: sliding by `a` and then by `b` leaves the
   * controller exactly where one slide by `a + b` leaves it, for every `a` and
   * `b`, the zero guard included.
   */
  lemma SlideAdditive(c: Controller, firstWidth: Option<nat>, a: int, b: int, m: real)
    ensures var c1 := Settle(c, SlideBy(c, firstWidth, a, m));
            Settle(c1, SlideBy(c1, firstWidth, b, m)) == Settle(c, SlideBy(c, firstWidth, a + b, m))
  {
    if c.Live? && firstWidth.Some? {
      var w := firstWidth.value;
      assert w * (a + b) == w * a + w * b;
      assert (w * (a + b)) as real * m == (w * a) as real * m + (w * b) as real * m;
    }
  }

  /** Sliding by `n` and then by `-n` restores the controller. */
  lemma SlideInverse(c: Controller, firstWidth: Option<nat>, n: int, m: real)
    ensures var c1 := Settle(c, SlideBy(c, firstWidth, n, m));
            Settle(c1, SlideBy(c1, firstWidth, -n, m)) == c
  {
    SlideAdditive(c, firstWidth, n, -n, m);
  }

  /** `count` single-slide steps of `unit`, one after the other: the reference meaning of a slide. */
  function Steps(c: Controller, firstWidth: Option<nat>, count: nat, unit: int, m: real): Controller
    decreases count
  {
    if count == 0 then c
    else Steps(Settle(c, SlideBy(c, firstWidth, unit, m)), firstWidth, count - 1, unit, m)
  }

  /** A slide by `n` is `|n|` slides by one in the direction of `n`. */
  lemma {:induction false} SlideIsUnitSteps(c: Controller, firstWidth: Option<nat>, n: int, m: real)
    ensures var unit := if n >= 0 then 1 else -1;
            var count := if n >= 0 then n else -n;
            Settle(c, SlideBy(c, firstWidth, n, m)) == Steps(c, firstWidth, count, unit, m)
    decreases if n >= 0 then n else -n
  {
    var unit := if n >= 0 then 1 else -1;
    if n != 0 {
      var c1 := Settle(c, SlideBy(c, firstWidth, unit, m));
      SlideAdditive(c, firstWidth, unit, n - unit, m);
      SlideIsUnitSteps(c1, firstWidth, n - unit, m);
    }
  }
}
