/**
 * The input alphabet. Each host event is classified once, at the boundary,
 * into a tagged variant: its source (mouse or touch) and the one coordinate the
 * controller reads (`clientX`, or `touches[0].clientX` for a touch).
 */
module Inputs {

  datatype Source = Mouse | Touch

  datatype Input =
    | Down(source: Source, clientX: int)   // mousedown / touchstart on the container
    | Move(source: Source, clientX: int)   // mousemove / touchmove on the container
    | Up(source: Source)                   // mouseup / touchend on the window
    | Wheel(deltaY: real)                  // wheel on the container

  /** The kind of an input, forgetting its source and payload. */
  datatype Kind = DownKind | MoveKind | UpKind | WheelKind

  function KindOf(i: Input): Kind {
    match i
    case Down(_, _) => DownKind
    case Move(_, _) => MoveKind
    case Up(_) => UpKind
    case Wheel(_) => WheelKind
  }

  /** How many inputs of a trace are of kind `k`. */
  function Count(ins: seq<Input>, k: Kind): (n: nat)
    ensures n <= |ins|
  {
    if |ins| == 0 then 0 else (if KindOf(ins[0]) == k then 1 else 0) + Count(ins[1..], k)
  }

  /** No pointer-up occurs at or after position `from`. */
  ghost predicate NoUpFrom(ins: seq<Input>, from: nat) {
    forall j :: from <= j < |ins| ==> !ins[j].Up?
  }

  /** Some pointer-down of the trace is followed by no pointer-up. */
  ghost predicate UnreleasedDown(ins: seq<Input>) {
    exists i :: 0 <= i < |ins| && ins[i].Down? && NoUpFrom(ins, i + 1)
  }

  /** How the two trace predicates look at the head of a non-empty trace. */
  lemma UnreleasedDownCons(ins: seq<Input>)
    requires |ins| > 0
    ensures NoUpFrom(ins, 0) <==> !ins[0].Up? && NoUpFrom(ins[1..], 0)
    ensures UnreleasedDown(ins) <==>
      UnreleasedDown(ins[1..]) || (ins[0].Down? && NoUpFrom(ins[1..], 0))
  {
    var rest := ins[1..];
    forall from | 0 <= from
      ensures NoUpFrom(ins, from + 1) <==> NoUpFrom(rest, from)
    {
      if NoUpFrom(ins, from + 1) {
        forall j | from <= j < |rest| ensures !rest[j].Up? {
          assert rest[j] == ins[j + 1];
        }
      }
      if NoUpFrom(rest, from) {
        forall j | from + 1 <= j < |ins| ensures !ins[j].Up? {
          assert ins[j] == rest[j - 1];
        }
      }
    }
    if UnreleasedDown(ins) {
      var i :| 0 <= i < |ins| && ins[i].Down? && NoUpFrom(ins, i + 1);
      if i > 0 {
        assert rest[i - 1] == ins[i];
        assert NoUpFrom(rest, i - 1 + 1);
      }
    }
    if UnreleasedDown(rest) {
      var i :| 0 <= i < |rest| && rest[i].Down? && NoUpFrom(rest, i + 1);
      assert ins[i + 1] == rest[i];
      assert NoUpFrom(ins, i + 1 + 1);
    }
  }
}
