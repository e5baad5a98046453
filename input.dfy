/** Keyboard input of one polling pass: the direction switch and the one-key-per-pass latch. */
module Input {
  import opened Grid

  datatype Option<T> = None | Some(value: T)

  /** The key symbols the switch in `handleEvents` distinguishes. */
  datatype Key = ArrowUp | ArrowRight | ArrowDown | ArrowLeft | OtherKey

  /** The event kinds `handleEvents` distinguishes: a close request, a key press, anything else. */
  datatype Event = Quit | KeyDown(sym: Key) | OtherEvent

  /** The direction an arrow key asks for. */
  function KeyCode(k: Key): (d: int)
    requires k != OtherKey
    ensures IsDirection(d)
  {
    match k
    case ArrowUp => Up
    case ArrowRight => Right
    case ArrowDown => Down
    case ArrowLeft => Left
  }

  /**
   * The direction the switch in `handleEvents` proposes for key `k` when heading `d`: an arrow
   * takes effect unless it points straight back, any other key changes nothing.
   */
  function Turn(d: int, k: Key): (nd: int)
    ensures IsDirection(d) ==> IsDirection(nd) && nd != Opposite(d)
    ensures IsDirection(d) && k != OtherKey ==> nd == (if KeyCode(k) == Opposite(d) then d else KeyCode(k))
    ensures k == OtherKey ==> nd == d
  {
    match k
    case ArrowUp => if d != 2 then 0 else d
    case ArrowRight => if d != 3 then 1 else d
    case ArrowDown => if d != 0 then 2 else d
    case ArrowLeft => if d != 1 then 3 else d
    case OtherKey => d
  }

  /** The key that reaches the latch: the first key press, provided no quit comes before it. */
  function LatchedKey(events: seq<Event>): (r: Option<Key>)
    ensures r == None <==> forall j :: 0 <= j < QuitIndex(events) ==> !events[j].KeyDown?
  {
    if events == [] then None
    else match events[0]
      case Quit => None
      case KeyDown(k) => Some(k)
      case OtherEvent => LatchedKey(events[1..])
  }

  /** The position of the first quit event, or the length of the queue when there is none. */
  function QuitIndex(events: seq<Event>): (q: nat)
    ensures q <= |events|
    ensures forall j :: 0 <= j < q ==> events[j] != Quit
    ensures q < |events| ==> events[q] == Quit
  {
    if events == [] then 0
    else if events[0] == Quit then 0
    else 1 + QuitIndex(events[1..])
  }

  /** How many events one pass takes off the queue: up to and including the first quit. */
  function Polled(events: seq<Event>): (n: nat)
    ensures n <= |events|
    ensures Quit in events <==> n > 0 && events[n - 1] == Quit
    ensures Quit !in events ==> n == |events|
    ensures Quit in events ==> Quit !in events[..n - 1]
  {
    var q := QuitIndex(events);
    if q < |events| then q + 1 else |events|
  }

  /** The direction a whole pass leaves behind: the latched key decides, every later key is ignored. */
  function PassDirection(d: int, events: seq<Event>): (nd: int)
    ensures IsDirection(d) ==> IsDirection(nd) && nd != Opposite(d)
  {
    match LatchedKey(events)
    case None => d
    case Some(k) => Turn(d, k)
  }

  /** A latched key is the first key press of the queue, and only other events come before it. */
  lemma {:induction false} LatchedKeyIsFirstPress(events: seq<Event>)
    requires LatchedKey(events).Some?
    ensures exists i :: 0 <= i < QuitIndex(events) && events[i] == KeyDown(LatchedKey(events).value) &&
                        forall j :: 0 <= j < i ==> events[j] == OtherEvent
  {
    if !events[0].KeyDown? {
      LatchedKeyIsFirstPress(events[1..]);
      var i :| 0 <= i < QuitIndex(events[1..]) && events[1..][i] == KeyDown(LatchedKey(events[1..]).value) &&
               forall j :: 0 <= j < i ==> events[1..][j] == OtherEvent;
      assert events[i + 1] == KeyDown(LatchedKey(events).value);
      assert forall j :: 0 <= j < i + 1 ==> events[j] == OtherEvent;
    } else {
      assert events[0] == KeyDown(LatchedKey(events).value);
    }
  }

  /** Once a key press has been met before any quit, nothing after it matters. */
  lemma {:induction false} FirstKeyWins(pre: seq<Event>, k: Key, post: seq<Event>)
    requires forall j :: 0 <= j < |pre| ==> pre[j] == OtherEvent
    ensures LatchedKey(pre + [KeyDown(k)] + post) == Some(k)
  {
    if pre != [] {
      assert (pre + [KeyDown(k)] + post)[1..] == pre[1..] + [KeyDown(k)] + post;
      FirstKeyWins(pre[1..], k, post);
    }
  }

  /** A quit met before any key press ends the pass with no key latched. */
  lemma {:induction false} QuitBeforeKey(pre: seq<Event>, post: seq<Event>)
    requires forall j :: 0 <= j < |pre| ==> pre[j] == OtherEvent
    ensures LatchedKey(pre + [Quit] + post) == None
  {
    if pre != [] {
      assert (pre + [Quit] + post)[1..] == pre[1..] + [Quit] + post;
      QuitBeforeKey(pre[1..], post);
    }
  }

  /** Extending a quit-free prefix by one event: the latch keeps its key, or takes this one. */
  lemma {:induction false} LatchedKeySnoc(pre: seq<Event>, e: Event)
    requires Quit !in pre
    ensures LatchedKey(pre + [e]) ==
      if LatchedKey(pre).Some? then LatchedKey(pre)
      else match e
        case KeyDown(k) => Some(k)
        case _ => None
  {
    if pre != [] {
      assert (pre + [e])[1..] == pre[1..] + [e];
      assert pre[0] in pre;
      LatchedKeySnoc(pre[1..], e);
    }
  }

  /** Whatever follows a quit is never looked at. */
  lemma {:induction false} LatchedKeyAtQuit(events: seq<Event>, q: nat)
    requires q < |events| && events[q] == Quit && Quit !in events[..q]
    ensures LatchedKey(events) == LatchedKey(events[..q])
  {
    if q > 0 {
      assert events[0] in events[..q];
      assert events[1..][..q - 1] == events[..q][1..];
      assert events[1..][q - 1] == events[q];
      assert forall e :: e in events[1..][..q - 1] ==> e in events[..q];
      LatchedKeyAtQuit(events[1..], q - 1);
    }
  }

  /** Pressing the key for the reverse direction first leaves the direction as it was for the whole pass. */
  lemma ReversalIgnored(d: int, k: Key, post: seq<Event>)
    requires IsDirection(d) && k != OtherKey && KeyCode(k) == Opposite(d)
    ensures PassDirection(d, [KeyDown(k)] + post) == d
  {
  }

  /** Only the first key press of a pass is acted on, whatever key presses follow it. */
  lemma OnlyFirstKeyActs(d: int, pre: seq<Event>, k: Key, post: seq<Event>)
    requires forall j :: 0 <= j < |pre| ==> pre[j] == OtherEvent
    ensures PassDirection(d, pre + [KeyDown(k)] + post) == Turn(d, k)
  {
    FirstKeyWins(pre, k, post);
  }
}
