/** `SampleApplication`: the base class every sample derives from. It owns the
    window and the graphics device, runs the poll/update/clear/draw/present loop,
    and keeps the input state the sample's hooks read. The window, the device and
    the hooks are outside the model; each call into them is appended to
    `effects`. */
module Application {
  import opened Events
  import opened Effects
  import opened RunLoop

  /** How a call ends: normally, or on a member access through a null reference. */
  datatype Outcome = Done | NullReference

  /** `GetFullPath`: the directory of the executing assembly, a slash, then `path`.
      The directory comes from the runtime, so it is a parameter here. */
  function FullPath(assemblyDir: string, path: string): (r: string)
    ensures |r| == |assemblyDir| + 1 + |path|
    ensures r[..|assemblyDir|] == assemblyDir && r[|assemblyDir|] == '/'
    ensures r[|assemblyDir| + 1..] == path
  {
    assemblyDir + "/" + path
  }

  class SampleApplication {
    const title: string
    var wantsClose: bool
    var keysDown: set<Key>
    /** The public `MousePosition` and `DeltaMousePosition` properties. */
    var mousePosition: Vec2
    var deltaMousePosition: Vec2
    /** Whether `Window` and `Device` have been built; they are null until `Run`. */
    var built: bool
    /** Every call made so far into the window, the device and the hooks. */
    var effects: seq<Effect>

    /** The input state and close flag, as the RunLoop functions see them. */
    function State(): LoopState
      reads this
    {
      LoopState(InputState(keysDown, mousePosition, deltaMousePosition), wantsClose)
    }

    function IsKeyDown(key: Key): bool
      reads this
    {
      key in keysDown
    }

    constructor (title: string)
      ensures this.title == title
      ensures State() == LoopState(InputState({}, Zero, Zero), false)
      ensures !built && effects == []
    {
      this.title := title;
      keysDown := {};
      wantsClose := false;
      mousePosition := Zero;
      deltaMousePosition := Zero;
      built := false;
      effects := [];
    }

    /** Request that the loop stop after the current tick. */
    method Close()
      modifies this`wantsClose
      ensures wantsClose
    {
      wantsClose := true;
    }

    /** The resize handler: the swapchain takes the new size, then the viewport
        becomes a rectangle of that size at the origin. */
    method WindowOnResize(size: Size)
      requires built
      modifies this`effects
      ensures effects == old(effects) + ResizeReaction(size)
    {
      effects := effects + [ResizeSwapchain(size)];
      effects := effects + [SetViewport(Rectangle(Point(0, 0), size))];
    }

    /** The dispatch on one polled event. */
    method HandleEvent(e: Event)
      requires built
      modifies this`wantsClose, this`keysDown, this`mousePosition, this`deltaMousePosition, this`effects
      ensures State() == Step(old(State()), e)
      ensures effects == old(effects) + Reaction(e)
      ensures e.KeyEvent? && e.eventType == KeyDown ==> IsKeyDown(e.key)
      ensures e.KeyEvent? && e.eventType == KeyUp ==> !IsKeyDown(e.key)
      ensures e.KeyEvent? ==> forall k :: k != e.key ==> (IsKeyDown(k) <==> old(IsKeyDown(k)))
      ensures !e.KeyEvent? ==> keysDown == old(keysDown)
      ensures old(wantsClose) ==> wantsClose
    {
      match e {
        case Quit =>
          wantsClose := true;
        case Resize(w, h) =>
          WindowOnResize(Size(w, h));
        case KeyEvent(t, k) =>
          match t {
            case KeyDown => keysDown := keysDown + {k};
            case KeyUp => keysDown := keysDown - {k};
            case OtherKeyEventType(_) =>
          }
        case MouseMove(mx, my, dx, dy) =>
          mousePosition := Vec2(mx, my);
          deltaMousePosition := deltaMousePosition.Plus(Vec2(dx, dy));
        case Unmatched =>
      }
    }

    /** The inner loop: take events from the queue until it is empty and
        dispatch each, in arrival order. */
    method DrainEvents(events: seq<Event>)
      requires built
      modifies this`wantsClose, this`keysDown, this`mousePosition, this`deltaMousePosition, this`effects
      ensures State() == Drain(old(State()), events)
      ensures effects == old(effects) + Reactions(events)
    {
      ghost var start := State();
      ghost var before := effects;
      var i := 0;
      while i < |events|
        invariant 0 <= i <= |events|
        invariant State() == Drain(start, events[..i])
        invariant effects == before + Reactions(events[..i])
      {
        var e := events[i];
        HandleEvent(e);
        assert events[..i + 1] == events[..i] + [e];
        DrainSnoc(start, events[..i], e);
        ReactionsSnoc(events[..i], e);
        i := i + 1;
      }
      assert events[..i] == events;
    }

    /** One pass of the loop body: reset the delta, drain the events, then
        Update, clear colour, clear depth/stencil, Draw, restart the timer and
        present. `frame.hookCloses` stands for an Update hook that calls Close(). */
    method Tick(frame: Frame)
      requires built
      modifies this`wantsClose, this`keysDown, this`mousePosition, this`deltaMousePosition, this`effects
      ensures State() == Advance(old(State()), frame).after
      ensures effects == old(effects) + Advance(old(State()), frame).effects
    {
      deltaMousePosition := Zero;
      DrainEvents(frame.events);
      ghost var seen := InputState(keysDown, mousePosition, deltaMousePosition);
      assert seen == Drained(old(State()), frame).input;
      var dt := frame.elapsed;
      effects := effects + [Update(dt, InputState(keysDown, mousePosition, deltaMousePosition))];
      if frame.hookCloses {
        Close();
      }
      effects := effects + [ClearColorBuffer(ClearColour), ClearDepthStencilBuffer({Depth, Stencil}, 1.0, 0),
                            Draw(dt), RestartTimer, Present(SyncInterval)];
      assert effects == old(effects) + Reactions(frame.events) + FrameTail(dt, seen);
    }

    /** Build the window and device, run Initialize once, then run ticks while
        the close flag is clear. `initCloses` stands for an Initialize hook that
        calls Close(): the flag is then set before the loop first tests it, so
        no tick runs. The loop does not dispose. */
    method Run(script: seq<Frame>, initCloses: bool)
      modifies this`wantsClose, this`keysDown, this`mousePosition, this`deltaMousePosition, this`effects, this`built
      ensures built
      ensures State() == RunFrom(old(State()).(wantsClose := old(wantsClose) || initCloses), script).final
      ensures effects == old(effects) + [BuildWindow(title, WindowSize, true), Initialize] +
                         RunFrom(old(State()).(wantsClose := old(wantsClose) || initCloses), script).effects
    {
      effects := effects + [BuildWindow(title, WindowSize, true)];
      built := true;
      effects := effects + [Initialize];
      if initCloses {
        Close();
      }
      RunTicks(script);
    }

    /** The outer loop: the close flag is tested before each tick only. The
        source loops until it is set; here the loop also ends when the script of
        frames is used up. */
    method RunTicks(script: seq<Frame>)
      requires built
      modifies this`wantsClose, this`keysDown, this`mousePosition, this`deltaMousePosition, this`effects
      ensures State() == RunFrom(old(State()), script).final
      ensures effects == old(effects) + RunFrom(old(State()), script).effects
    {
      ghost var goal := RunFrom(State(), script);
      ghost var prefix := effects;
      var i := 0;
      while !wantsClose && i < |script|
        invariant 0 <= i <= |script|
        invariant RunFrom(State(), script[i..]).final == goal.final
        invariant effects + RunFrom(State(), script[i..]).effects == prefix + goal.effects
        decreases |script| - i
      {
        ghost var st, done := State(), effects;
        ghost var rest := script[i..];
        assert rest[0] == script[i] && rest[1..] == script[i + 1..];
        RunFromFirstTick(st, rest, done);
        Tick(script[i]);
        i := i + 1;
      }
      assert i == |script| ==> script[i..] == [];
      assert RunFrom(State(), script[i..]).effects == [];
    }

    /** Dispose the device, then the window. Before `Run` both are null, so the
        first access fails. */
    method Dispose() returns (outcome: Outcome)
      modifies this`effects
      ensures outcome == Done <==> built
      ensures effects == if built then old(effects) + [DisposeDevice, DisposeWindow] else old(effects)
    {
      if !built {
        return NullReference;
      }
      effects := effects + [DisposeDevice];
      effects := effects + [DisposeWindow];
      outcome := Done;
    }
  }
}
