/**
 * The drag session every revision shares: pointer-down anchors a session,
 * pointer-move drags the content 1:1 against the pointer (mouse only), and
 * pointer-up ends it. The container's `scrollLeft` travels with the session
 * state so that each handler is a pure state transformer.
 */
module DragSession {
  import opened Inputs
  import opened Notifications

  /**
   * The instance fields of the controller plus the container's scroll offset.
   * In every revision the constructor leaves `dragMouseDownPos` and
   * `dragMouseMovePos` `undefined`: a down writes the down coordinate, and the
   * first move inside a session writes the move coordinate. Here both start
   * at 0, and `Indistinguishable` below shows that neither value is observed
   * before a handler writes it.
   */
  datatype State = State(
    dragState: bool,
    dragStartPos: real,
    dragMouseDownPos: int,
    dragMouseMovePos: int,
    scrollLeft: real)

  /** The session right after construction, over a container scrolled to `scrollLeft`. */
  function Init(scrollLeft: real): State {
    State(false, 0.0, 0, 0, scrollLeft)
  }

  /** Pointer-down: start a session anchored at coordinate `x` and the current offset. */
  function InteractDown(s: State, x: int): (r: State)
    ensures r.dragState && r.dragMouseDownPos == x
    ensures r.dragStartPos == s.scrollLeft && r.scrollLeft == s.scrollLeft
    ensures r.dragMouseMovePos == s.dragMouseMovePos
    // a mouse move back onto the anchor leaves the content where the press found it
    ensures InteractMove(r, Mouse, x).scrollLeft == s.scrollLeft
  {
    s.(dragState := true, dragMouseDownPos := x, dragStartPos := s.scrollLeft)
  }

  /**
   * Pointer-move to coordinate `x`. Ignored outside a session. Inside one the
   * coordinate is recorded; a mouse move also writes the offset so that offset
   * plus pointer stays equal to the anchor, while a touch move leaves the
   * offset to the host's native touch scrolling.
   */
  function InteractMove(s: State, source: Source, x: int): (r: State)
    ensures !s.dragState ==> r == s
    ensures r.dragState == s.dragState && r.dragStartPos == s.dragStartPos
    ensures r.dragMouseDownPos == s.dragMouseDownPos
    ensures s.dragState ==> r.dragMouseMovePos == x
    ensures source == Touch ==> r.scrollLeft == s.scrollLeft
    ensures s.dragState && source == Mouse ==>
      r.scrollLeft + x as real == s.dragStartPos + s.dragMouseDownPos as real
  {
    if !s.dragState then s
    else
      var tracked := s.(dragMouseMovePos := x);
      if source == Touch then tracked
      else tracked.(scrollLeft := tracked.dragStartPos + tracked.dragMouseDownPos as real
                                  - tracked.dragMouseMovePos as real)
  }

  /** Pointer-up: end the session, whatever the prior state; nothing else changes. */
  function InteractUp(s: State): (r: State)
    ensures !r.dragState
    ensures r.(dragState := s.dragState) == s
  {
    s.(dragState := false)
  }

  /** The direction tag of a move: right only when the pointer is strictly right of the anchor. */
  function Direction(s: State): (t: Tag)
    ensures t == ScrollRight <==> s.dragMouseMovePos > s.dragMouseDownPos
    ensures t == ScrollLeft <==> s.dragMouseMovePos <= s.dragMouseDownPos
  {
    if s.dragMouseMovePos > s.dragMouseDownPos then ScrollRight else ScrollLeft
  }

  /** A press at `x0` then a mouse move to `x1` scrolls by `x0 - x1`, and tags the move by its sign. */
  lemma DragArithmetic(s: State, x0: int, x1: int)
    ensures InteractMove(InteractDown(s, x0), Mouse, x1).scrollLeft == s.scrollLeft + (x0 - x1) as real
    ensures Direction(InteractMove(InteractDown(s, x0), Mouse, x1)) == ScrollRight <==> x1 > x0
    ensures Direction(InteractMove(InteractDown(s, x0), Mouse, x1)) == ScrollLeft <==> x1 <= x0
  {
  }

  /** A run of moves from one source to the coordinates `xs`, in order. */
  function MoveAll(s: State, source: Source, xs: seq<int>): (r: State)
    ensures r.dragState == s.dragState && r.dragStartPos == s.dragStartPos
    ensures r.dragMouseDownPos == s.dragMouseDownPos
    ensures !s.dragState ==> r == s
    decreases |xs|
  {
    if |xs| == 0 then s else MoveAll(InteractMove(s, source, xs[0]), source, xs[1..])
  }

  /** Mouse dragging is path-independent: only the last coordinate decides the offset. */
  lemma {:induction false} MouseDragFollowsLastMove(s: State, xs: seq<int>)
    requires s.dragState && |xs| > 0
    ensures MoveAll(s, Mouse, xs).scrollLeft
            == s.dragStartPos + (s.dragMouseDownPos - xs[|xs| - 1]) as real
    decreases |xs|
  {
    var s1 := InteractMove(s, Mouse, xs[0]);
    if |xs| == 1 {
      assert MoveAll(s1, Mouse, xs[1..]) == s1;
    } else {
      MouseDragFollowsLastMove(s1, xs[1..]);
      assert xs[1..][|xs[1..]| - 1] == xs[|xs| - 1];
    }
  }

  /** However long a touch drag runs, this controller never writes the offset. */
  lemma {:induction false} TouchDragKeepsOffset(s: State, xs: seq<int>)
    ensures MoveAll(s, Touch, xs).scrollLeft == s.scrollLeft
    decreases |xs|
  {
    if |xs| > 0 {
      TouchDragKeepsOffset(InteractMove(s, Touch, xs[0]), xs[1..]);
    }
  }

  /** Releasing twice is releasing once, and a press then a release leaves the offset unchanged. */
  lemma ReleaseIdempotent(s: State, x: int)
    ensures InteractUp(InteractUp(s)) == InteractUp(s)
    ensures InteractUp(InteractDown(s, x)).scrollLeft == s.scrollLeft
  {
  }

  /**
   * Two states that agree on everything a handler can observe: the drag flag,
   * the anchor offset, the scroll offset, and the down coordinate while a
   * session is active. The coordinates of states outside a session may differ.
   */
  ghost predicate Indistinguishable(s: State, t: State) {
    && s.dragState == t.dragState
    && s.dragStartPos == t.dragStartPos
    && s.scrollLeft == t.scrollLeft
    && (s.dragState ==> s.dragMouseDownPos == t.dragMouseDownPos)
  }

  /** Every handler maps indistinguishable states to indistinguishable states, with the same tag. */
  lemma HandlersRespectIndistinguishable(s: State, t: State, source: Source, x: int)
    requires Indistinguishable(s, t)
    ensures Indistinguishable(InteractDown(s, x), InteractDown(t, x))
    ensures Indistinguishable(InteractUp(s), InteractUp(t))
    ensures Indistinguishable(InteractMove(s, source, x), InteractMove(t, source, x))
    ensures s.dragState ==>
      Direction(InteractMove(s, source, x)) == Direction(InteractMove(t, source, x))
  {
  }
}
