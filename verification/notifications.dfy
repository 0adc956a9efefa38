/**
 * The notification protocol: every interaction is republished as one bubbling
 * custom event named `HorizontalScroll` whose `detail.message` is one of six tags.
 */
module Notifications {
  import opened Outcomes

  /** The six semantic tags a controller publishes. */
  datatype Tag = Held | Release | ScrollLeft | ScrollRight | WheelUp | WheelDown

  /** The one custom event kind every notification is published as. */
  const EventName: string := "HorizontalScroll"

  /** A published notification: event kind, bubbling flag and `detail.message`. */
  datatype Notification = Notification(name: string, bubbles: bool, message: string)

  /** The message string carried for each tag. */
  function Message(t: Tag): string {
    match t
    case Held => "held"
    case Release => "release"
    case ScrollLeft => "scrollleft"
    case ScrollRight => "scrollright"
    case WheelUp => "wheelup"
    case WheelDown => "wheeldown"
  }

  /** How a subscriber reads `detail.message` back into a tag; `None` for any other string. */
  function Parse(m: string): (r: Option<Tag>)
    ensures r.Some? ==> Message(r.value) == m
  {
    if m == "held" then Some(Held)
    else if m == "release" then Some(Release)
    else if m == "scrollleft" then Some(ScrollLeft)
    else if m == "scrollright" then Some(ScrollRight)
    else if m == "wheelup" then Some(WheelUp)
    else if m == "wheeldown" then Some(WheelDown)
    else None
  }

  /** Every published message is read back as the tag that produced it. */
  lemma ParseMessage(t: Tag)
    ensures Parse(Message(t)) == Some(t)
  {
  }

  /** Distinct tags are published as distinct messages. */
  lemma MessageInjective(t: Tag, u: Tag)
    ensures Message(t) == Message(u) ==> t == u
  {
    ParseMessage(t);
    ParseMessage(u);
  }

  /** The notification `dispatchEvent` publishes for a tag. */
  function Dispatch(t: Tag): (n: Notification)
    ensures n.name == EventName && n.bubbles
    ensures Parse(n.message) == Some(t)
  {
    ParseMessage(t);
    Notification(EventName, true, Message(t))
  }

  /** How many times tag `t` occurs in a notification trace. */
  function Occurrences(tags: seq<Tag>, t: Tag): (n: nat)
    ensures n <= |tags|
  {
    if |tags| == 0 then 0 else (if tags[0] == t then 1 else 0) + Occurrences(tags[1..], t)
  }

  /** Counting distributes over concatenated traces. */
  lemma {:induction false} OccurrencesAppend(a: seq<Tag>, b: seq<Tag>, t: Tag)
    ensures Occurrences(a + b, t) == Occurrences(a, t) + Occurrences(b, t)
    decreases |a|
  {
    if |a| == 0 {
      assert a + b == b;
    } else {
      assert (a + b)[0] == a[0];
      assert (a + b)[1..] == a[1..] + b;
      OccurrencesAppend(a[1..], b, t);
    }
  }

  /** The notifications published for a trace of tags, one per tag, in order. */
  function Publish(tags: seq<Tag>): (ns: seq<Notification>)
    ensures |ns| == |tags|
    ensures forall i :: 0 <= i < |ns| ==>
      ns[i].name == EventName && ns[i].bubbles && Parse(ns[i].message) == Some(tags[i])
    decreases |tags|
  {
    if |tags| == 0 then [] else [Dispatch(tags[0])] + Publish(tags[1..])
  }
}
