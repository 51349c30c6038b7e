/** Window events as the run loop of `SampleApplication` receives them, the input
    snapshot the loop keeps (pressed keys, mouse position, per-tick mouse delta and
    the close flag), and the effect of one event on that snapshot.

    `Step` is the body of the event `switch`; `Drain` applies it to every event
    polled in one tick, in arrival order. The lemmas relate `Drain` to independent
    descriptions of each field: the key set by the last press/release of each key,
    the delta by a running sum, the position by the last mouse move, and the close
    flag by the presence of a quit event. */
module Events {

  /** A keyboard key code. */
  type Key = int

  /** A pair of mouse coordinates. The source uses single-precision vectors; the
      model uses integers, so sums are exact. */
  datatype Vec2 = Vec2(x: int, y: int)
  {
    function Plus(other: Vec2): Vec2 {
      Vec2(x + other.x, y + other.y)
    }
  }

  const Zero := Vec2(0, 0)

  /** The type tag carried by a key event. Only KeyDown and KeyUp are acted on;
      any other tag (a repeat, say) matches neither case of the inner switch. */
  datatype KeyEventType = KeyDown | KeyUp | OtherKeyEventType(tag: int)

  /** One event returned by the window's event poll. `Unmatched` stands for every
      event type the dispatch has no case for (text input, buttons, scroll, ...). */
  datatype Event =
    | Quit
    | Resize(width: int, height: int)
    | KeyEvent(eventType: KeyEventType, key: Key)
    | MouseMove(mouseX: int, mouseY: int, deltaX: int, deltaY: int)
    | Unmatched

  /** What the user hooks can observe: `IsKeyDown`, `MousePosition`, `DeltaMousePosition`. */
  datatype InputState = InputState(keysDown: set<Key>, mousePosition: Vec2, deltaMousePosition: Vec2)

  /** The input snapshot together with the private close flag. */
  datatype LoopState = LoopState(input: InputState, wantsClose: bool)

  /** The key set after a key event of type `t` for key `k`. */
  function ApplyKey(keys: set<Key>, t: KeyEventType, k: Key): set<Key> {
    match t
    case KeyDown => keys + {k}
    case KeyUp => keys - {k}
    case OtherKeyEventType(_) => keys
  }

  /** The dispatch of one polled event. A resize changes no input state: its
      effect on the device is recorded by the Effects module. */
  function Step(s: LoopState, e: Event): LoopState {
    match e
    case Quit => s.(wantsClose := true)
    case Resize(_, _) => s
    case KeyEvent(t, k) => s.(input := s.input.(keysDown := ApplyKey(s.input.keysDown, t, k)))
    case MouseMove(mx, my, dx, dy) =>
      s.(input := s.input.(mousePosition := Vec2(mx, my),
                           deltaMousePosition := s.input.deltaMousePosition.Plus(Vec2(dx, dy))))
    case Unmatched => s
  }

  /** Dispatch every event of `es` in order, starting from `s`. */
  function Drain(s: LoopState, es: seq<Event>): LoopState
    decreases |es|
  {
    if es == [] then s else Step(Drain(s, es[..|es| - 1]), es[|es| - 1])
  }

  lemma DrainSnoc(s: LoopState, es: seq<Event>, e: Event)
    ensures Drain(s, es + [e]) == Step(Drain(s, es), e)
  {
    assert (es + [e])[..|es|] == es;
  }

  // ---------------------------------------------------------------------------
  // One event

  /** A key event changes the membership of its own key only: a press makes it
      down, a release makes it up, pressing a key that is down or releasing one
      that is up changes nothing, and every other event leaves the set as it is. */
  lemma StepKeyMembership(s: LoopState, e: Event, k: Key)
    ensures e == KeyEvent(KeyDown, k) ==> k in Step(s, e).input.keysDown
    ensures e == KeyEvent(KeyUp, k) ==> k !in Step(s, e).input.keysDown
    ensures e == KeyEvent(KeyDown, k) && k in s.input.keysDown ==> Step(s, e) == s
    ensures e == KeyEvent(KeyUp, k) && k !in s.input.keysDown ==> Step(s, e) == s
    ensures e != KeyEvent(KeyDown, k) && e != KeyEvent(KeyUp, k) ==>
              (k in Step(s, e).input.keysDown <==> k in s.input.keysDown)
    ensures !(e.KeyEvent? && (e.eventType == KeyDown || e.eventType == KeyUp)) ==>
              Step(s, e).input.keysDown == s.input.keysDown
  {
    if e == KeyEvent(KeyDown, k) && k in s.input.keysDown {
      assert s.input.keysDown + {k} == s.input.keysDown;
    }
    if e == KeyEvent(KeyUp, k) && k !in s.input.keysDown {
      assert s.input.keysDown - {k} == s.input.keysDown;
    }
  }

  // ---------------------------------------------------------------------------
  // Pressed keys after a tick

  /** Some press of `k` in `es` is not followed by a release of `k`. */
  ghost predicate PressedAndKept(es: seq<Event>, k: Key) {
    exists i :: 0 <= i < |es| && es[i] == KeyEvent(KeyDown, k) && NotReleasedFrom(es, i + 1, k)
  }

  /** No release of `k` occurs in `es` at or after position `from`. */
  ghost predicate NotReleasedFrom(es: seq<Event>, from: nat, k: Key) {
    forall j :: from <= j < |es| ==> es[j] != KeyEvent(KeyUp, k)
  }

  /** After draining, `k` is down exactly when the last press or release of `k`
      was a press, or there was no release at all and `k` was down already. */
  lemma {:induction false} DrainKeys(s: LoopState, es: seq<Event>, k: Key)
    ensures k in Drain(s, es).input.keysDown <==>
              PressedAndKept(es, k) || (k in s.input.keysDown && NotReleasedFrom(es, 0, k))
    decreases |es|
  {
    if es != [] {
      var n := |es| - 1;
      var p, e := es[..n], es[n];
      assert es == p + [e];
      DrainKeys(s, p, k);
      StepKeyMembership(Drain(s, p), e, k);
      if e == KeyEvent(KeyDown, k) {
        assert NotReleasedFrom(es, n + 1, k);
      } else if e == KeyEvent(KeyUp, k) {
        assert !NotReleasedFrom(es, 0, k);
        forall i | 0 <= i < |es| && es[i] == KeyEvent(KeyDown, k)
          ensures !NotReleasedFrom(es, i + 1, k)
        {
          assert i < n && es[n] == KeyEvent(KeyUp, k);
        }
      } else {
        if PressedAndKept(es, k) {
          var i :| 0 <= i < |es| && es[i] == KeyEvent(KeyDown, k) && NotReleasedFrom(es, i + 1, k);
          assert p[i] == es[i];
          assert NotReleasedFrom(p, i + 1, k);
        }
        if PressedAndKept(p, k) {
          var i :| 0 <= i < |p| && p[i] == KeyEvent(KeyDown, k) && NotReleasedFrom(p, i + 1, k);
          assert es[i] == p[i];
          assert NotReleasedFrom(es, i + 1, k);
        }
        assert NotReleasedFrom(es, 0, k) <==> NotReleasedFrom(p, 0, k);
      }
    }
  }

  // ---------------------------------------------------------------------------
  // Mouse delta after a tick

  /** The movement an event contributes: its delta if it is a mouse move, else zero. */
  function MoveDelta(e: Event): Vec2 {
    if e.MouseMove? then Vec2(e.deltaX, e.deltaY) else Zero
  }

  /** The sum of the deltas of the mouse moves in `es`, added from the front. */
  function SumDeltas(es: seq<Event>): Vec2 {
    if es == [] then Zero else MoveDelta(es[0]).Plus(SumDeltas(es[1..]))
  }

  lemma {:induction false} SumDeltasSnoc(es: seq<Event>, e: Event)
    ensures SumDeltas(es + [e]) == SumDeltas(es).Plus(MoveDelta(e))
  {
    if es == [] {
      assert es + [e] == [e] && [e][1..] == [];
    } else {
      var head, tail := es[0], es[1..];
      assert (es + [e])[0] == head && (es + [e])[1..] == tail + [e];
      SumDeltasSnoc(tail, e);
      var a, b, c := MoveDelta(head), SumDeltas(tail), MoveDelta(e);
      assert SumDeltas(es + [e]) == a.Plus(b.Plus(c));
      assert SumDeltas(es) == a.Plus(b);
    }
  }

  /** Draining adds the sum of the tick's mouse deltas to the delta it started from. */
  lemma {:induction false} DrainDelta(s: LoopState, es: seq<Event>)
    ensures Drain(s, es).input.deltaMousePosition == s.input.deltaMousePosition.Plus(SumDeltas(es))
    decreases |es|
  {
    if es != [] {
      var n := |es| - 1;
      assert es == es[..n] + [es[n]];
      DrainDelta(s, es[..n]);
      SumDeltasSnoc(es[..n], es[n]);
    }
  }

  /** A tick without mouse moves sums to zero. */
  lemma {:induction false} NoMovesSumZero(es: seq<Event>)
    requires NoMouseMoves(es)
    ensures SumDeltas(es) == Zero
  {
    if es != [] {
      var rest := es[1..];
      assert forall i :: 0 <= i < |rest| ==> rest[i] == es[i + 1];
      NoMovesSumZero(rest);
      assert MoveDelta(es[0]) == Zero;
    }
  }

  // ---------------------------------------------------------------------------
  // Mouse position after a tick

  /** No event of `es` is a mouse move. */
  ghost predicate NoMouseMoves(es: seq<Event>) {
    forall i :: 0 <= i < |es| ==> !es[i].MouseMove?
  }

  /** Position `i` holds the last mouse move of `es`. */
  ghost predicate LastMoveAt(es: seq<Event>, i: int) {
    0 <= i < |es| && es[i].MouseMove? && forall j :: i < j < |es| ==> !es[j].MouseMove?
  }

  /** After draining, the mouse position is that of the last mouse move, or the
      position carried over when there was none. */
  lemma {:induction false} DrainPosition(s: LoopState, es: seq<Event>)
    ensures NoMouseMoves(es) ==>
              Drain(s, es).input.mousePosition == s.input.mousePosition
    ensures forall i :: LastMoveAt(es, i) ==>
              Drain(s, es).input.mousePosition == Vec2(es[i].mouseX, es[i].mouseY)
    decreases |es|
  {
    if es != [] {
      var n := |es| - 1;
      var p := es[..n];
      assert es == p + [es[n]];
      DrainPosition(s, p);
      if !es[n].MouseMove? {
        forall i | LastMoveAt(es, i)
          ensures Drain(s, es).input.mousePosition == Vec2(es[i].mouseX, es[i].mouseY)
        {
          assert LastMoveAt(p, i);
        }
        if NoMouseMoves(es) {
          assert NoMouseMoves(p);
        }
      }
    }
  }

  // ---------------------------------------------------------------------------
  // Close flag after a tick

  /** Draining sets the close flag exactly when a quit event was polled; nothing clears it. */
  lemma {:induction false} DrainQuit(s: LoopState, es: seq<Event>)
    ensures Drain(s, es).wantsClose <==> s.wantsClose || Quit in es
    decreases |es|
  {
    if es != [] {
      var n := |es| - 1;
      assert es == es[..n] + [es[n]];
      DrainQuit(s, es[..n]);
    }
  }
}
