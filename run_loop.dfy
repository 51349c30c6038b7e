/** The meaning of the loop in `SampleApplication.Run`, as functions: what one
    tick does to the input snapshot and which effects it makes, and what a run
    over a finite script of ticks produces. The class in module Application is
    proved to behave as these functions say. */
module RunLoop {
  import opened Events
  import opened Effects

  /** What one tick receives from outside the model: the events the window's
      poll returns before it reports an empty queue, the seconds the stopwatch
      reads, and whether the user's Update hook calls Close(). */
  datatype Frame = Frame(events: seq<Event>, elapsed: real, hookCloses: bool)

  /** The snapshot when Update runs: the delta reset to zero, then every event drained. */
  function Drained(s: LoopState, f: Frame): LoopState {
    Drain(s.(input := s.input.(deltaMousePosition := Zero)), f.events)
  }

  datatype TickResult = TickResult(after: LoopState, effects: seq<Effect>)

  /** One pass of the loop body. */
  function Advance(s: LoopState, f: Frame): TickResult {
    var d := Drained(s, f);
    TickResult(d.(wantsClose := d.wantsClose || f.hookCloses),
               Reactions(f.events) + FrameTail(f.elapsed, d.input))
  }

  /** A frame that ends the loop: a quit event is polled or the hook calls Close(). */
  predicate Closes(f: Frame) {
    Quit in f.events || f.hookCloses
  }

  datatype RunResult = RunResult(final: LoopState, ticks: nat, effects: seq<Effect>)

  /** The loop from state `s`: the close flag is tested before each tick only. */
  function RunFrom(s: LoopState, script: seq<Frame>): RunResult
    decreases |script|
  {
    if s.wantsClose || script == [] then RunResult(s, 0, [])
    else
      var t := Advance(s, script[0]);
      var r := RunFrom(t.after, script[1..]);
      RunResult(r.final, r.ticks + 1, t.effects + r.effects)
  }

  /** A run that has not closed and has a frame left performs that tick first;
      `done` is whatever was recorded before it. */
  lemma RunFromFirstTick(s: LoopState, script: seq<Frame>, done: seq<Effect>)
    requires !s.wantsClose && script != []
    ensures RunFrom(s, script).final == RunFrom(Advance(s, script[0]).after, script[1..]).final
    ensures done + RunFrom(s, script).effects ==
              (done + Advance(s, script[0]).effects) + RunFrom(Advance(s, script[0]).after, script[1..]).effects
  {
  }

  // ---------------------------------------------------------------------------
  // One tick

  /** Update runs right after the effects of the events and observes the input
      as it stands once every event of the tick is drained. */
  lemma TickUpdateSeesDrained(s: LoopState, f: Frame)
    ensures |Reactions(f.events)| < |Advance(s, f).effects|
    ensures Advance(s, f).effects[|Reactions(f.events)|] == Update(f.elapsed, Advance(s, f).after.input)
  {
  }

  /** The delta Update observes is the sum of this tick's mouse deltas: the delta
      of earlier ticks is discarded. */
  lemma TickDelta(s: LoopState, f: Frame)
    ensures Advance(s, f).after.input.deltaMousePosition == SumDeltas(f.events)
  {
    var s0 := s.(input := s.input.(deltaMousePosition := Zero));
    var sum := SumDeltas(f.events);
    assert Drain(s0, f.events).input.deltaMousePosition == sum by {
      DrainDelta(s0, f.events);
      assert Zero.Plus(sum) == sum;
    }
    assert Advance(s, f).after.input == Drain(s0, f.events).input;
  }

  /** A tick without mouse moves reports a zero delta, whatever earlier ticks moved. */
  lemma TickDeltaWithoutMoves(s: LoopState, f: Frame)
    requires NoMouseMoves(f.events)
    ensures Advance(s, f).after.input.deltaMousePosition == Zero
  {
    TickDelta(s, f);
    NoMovesSumZero(f.events);
  }

  /** The position Update observes is that of the tick's last mouse move, or the
      one carried over from the previous tick when there was none. */
  lemma TickPosition(s: LoopState, f: Frame)
    ensures NoMouseMoves(f.events) ==>
              Advance(s, f).after.input.mousePosition == s.input.mousePosition
    ensures forall i :: LastMoveAt(f.events, i) ==>
              Advance(s, f).after.input.mousePosition == Vec2(f.events[i].mouseX, f.events[i].mouseY)
  {
    DrainPosition(s.(input := s.input.(deltaMousePosition := Zero)), f.events);
  }

  /** Key `k` is down for Update exactly when its last press or release in this
      tick was a press, or the tick released it nowhere and it was down before. */
  lemma TickKeys(s: LoopState, f: Frame, k: Key)
    ensures k in Advance(s, f).after.input.keysDown <==>
              PressedAndKept(f.events, k) || (k in s.input.keysDown && NotReleasedFrom(f.events, 0, k))
  {
    DrainKeys(s.(input := s.input.(deltaMousePosition := Zero)), f.events, k);
  }

  /** A tick sets the close flag exactly when it polls a quit event or its hook
      calls Close(); nothing clears the flag. */
  lemma TickClose(s: LoopState, f: Frame)
    ensures Advance(s, f).after.wantsClose <==> s.wantsClose || Closes(f)
  {
    DrainQuit(s.(input := s.input.(deltaMousePosition := Zero)), f.events);
  }

  // ---------------------------------------------------------------------------
  // A run

  /** A run that starts closed runs no tick. Otherwise it runs ticks until the
      first frame that closes, that frame included, and no further; it stops
      early only because of such a frame, and ends closed exactly when its last
      tick closed. */
  lemma {:induction false} RunStopsAfterClosingTick(s: LoopState, script: seq<Frame>)
    ensures RunFrom(s, script).ticks <= |script|
    ensures s.wantsClose ==> RunFrom(s, script) == RunResult(s, 0, [])
    ensures !s.wantsClose ==>
              forall j :: 0 <= j < RunFrom(s, script).ticks - 1 ==> !Closes(script[j])
    ensures !s.wantsClose && RunFrom(s, script).ticks < |script| ==>
              0 < RunFrom(s, script).ticks && Closes(script[RunFrom(s, script).ticks - 1])
    ensures !s.wantsClose ==>
              (RunFrom(s, script).final.wantsClose <==>
                 0 < RunFrom(s, script).ticks && Closes(script[RunFrom(s, script).ticks - 1]))
    decreases |script|
  {
    if !s.wantsClose && script != [] {
      var t := Advance(s, script[0]);
      var rest := script[1..];
      TickClose(s, script[0]);
      RunStopsAfterClosingTick(t.after, rest);
      var r := RunFrom(t.after, rest);
      if !Closes(script[0]) {
        assert forall j :: 0 <= j < |rest| ==> rest[j] == script[j + 1];
        if 0 < r.ticks {
          assert script[r.ticks] == rest[r.ticks - 1];
        }
      }
    }
  }

  /** Every tick of a run performs Update, the colour clear, the depth/stencil
      clear, Draw and Present exactly once. */
  lemma {:induction false} RunStagesOncePerTick(s: LoopState, script: seq<Frame>, st: Stage)
    ensures CountStage(RunFrom(s, script).effects, st) == RunFrom(s, script).ticks
    decreases |script|
  {
    if !s.wantsClose && script != [] {
      var f := script[0];
      var t := Advance(s, f);
      RunStagesOncePerTick(t.after, script[1..], st);
      CountStageAppend(t.effects, RunFrom(t.after, script[1..]).effects, st);
      CountStageAppend(Reactions(f.events), FrameTail(f.elapsed, Drained(s, f).input), st);
      ReactionsHaveNoStage(f.events, st);
      FrameTailStagesOnce(f.elapsed, Drained(s, f).input, st);
    }
  }

  /** Lifecycle calls belong to `Run` and `Dispose` alone: no tick builds the
      window, runs Initialize or disposes anything. */
  predicate IsLifecycle(x: Effect) {
    x.BuildWindow? || x.Initialize? || x.DisposeDevice? || x.DisposeWindow?
  }

  lemma {:induction false} TicksMakeNoLifecycleCalls(s: LoopState, script: seq<Frame>)
    ensures forall j :: 0 <= j < |RunFrom(s, script).effects| ==> !IsLifecycle(RunFrom(s, script).effects[j])
    decreases |script|
  {
    if !s.wantsClose && script != [] {
      var f := script[0];
      var t := Advance(s, f);
      TicksMakeNoLifecycleCalls(t.after, script[1..]);
      ReactionsAreResizes(f.events);
      var rs := Reactions(f.events);
      var sizes := ResizedSizes(f.events);
      forall j | 0 <= j < |rs| ensures !IsLifecycle(rs[j]) {
        var m := j / 2;
        assert m < |sizes|;
        if j % 2 == 0 {
          assert j == 2 * m && rs[j] == ResizeSwapchain(sizes[m]);
        } else {
          assert j == 2 * m + 1 && rs[j] == SetViewport(Rectangle(Point(0, 0), sizes[m]));
        }
      }
      var tail := FrameTail(f.elapsed, Drained(s, f).input);
      assert forall j :: 0 <= j < |tail| ==> !IsLifecycle(tail[j]);
      assert t.effects == rs + tail;
    }
  }

  /** Two mouse moves then a quit in the first tick: exactly one tick runs, and
      Update sees the accumulated delta (2, 2) and the last position (2, 2). */
  lemma ScriptedQuitAfterMoves(s: LoopState, dt: real, later: seq<Frame>)
    requires !s.wantsClose
    ensures var script := [Frame([MouseMove(1, 1, 1, 1), MouseMove(2, 2, 1, 1), Quit], dt, false)] + later;
            RunFrom(s, script).ticks == 1 &&
            RunFrom(s, script).effects[0] ==
              Update(dt, InputState(s.input.keysDown, Vec2(2, 2), Vec2(2, 2)))
  {
    var e1, e2 := MouseMove(1, 1, 1, 1), MouseMove(2, 2, 1, 1);
    var f := Frame([e1, e2, Quit], dt, false);
    var script := [f] + later;
    assert script[0] == f && script[1..] == later;
    TickClose(s, f);
    assert Quit in f.events;
    var es := f.events;
    assert es[..2] == [e1, e2] && es[..2][..1] == [e1] && es[..2][..1][..0] == [];
    assert Reactions(es[..2][..1]) == [];
    assert Reactions(es[..2]) == [];
    assert Reactions(es) == [];
    var s0 := s.(input := s.input.(deltaMousePosition := Zero));
    assert Drain(s0, es[..2][..1]).input == InputState(s.input.keysDown, Vec2(1, 1), Vec2(1, 1));
    assert Drain(s0, es[..2]).input == InputState(s.input.keysDown, Vec2(2, 2), Vec2(2, 2));
    assert Drained(s, f).input == InputState(s.input.keysDown, Vec2(2, 2), Vec2(2, 2));
  }
}
