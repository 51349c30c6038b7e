/** The calls the run loop makes into the window, the graphics device and the
    user's hooks, recorded as a trace of effects in the order they are made. */
module Effects {
  import opened Events

  datatype Size = Size(width: int, height: int)
  datatype Point = Point(x: int, y: int)
  datatype Rectangle = Rectangle(origin: Point, size: Size)

  datatype Rgba = Rgba(r: real, g: real, b: real, a: real)
  datatype ClearFlag = Depth | Stencil

  /** Size of the window `Run` builds, and the swap interval it presents with. */
  const WindowSize := Size(800, 600)
  const SyncInterval := 1
  /** The fixed colour the colour buffer is cleared to each tick. */
  const ClearColour := Rgba(0.2, 0.3, 0.3, 1.0)

  datatype Effect =
    | BuildWindow(title: string, windowSize: Size, resizable: bool)
    | Initialize
    | ResizeSwapchain(newSize: Size)
    | SetViewport(viewport: Rectangle)
    /** The user's Update hook, with the elapsed time and the input it can observe. */
    | Update(dt: real, seen: InputState)
    | ClearColorBuffer(colour: Rgba)
    | ClearDepthStencilBuffer(flags: set<ClearFlag>, depth: real, stencil: int)
    | Draw(dt: real)
    | RestartTimer
    | Present(interval: int)
    | DisposeDevice
    | DisposeWindow

  /** The resize handler: resize the swapchain, then set a viewport of that size at the origin. */
  function ResizeReaction(size: Size): seq<Effect> {
    [ResizeSwapchain(size), SetViewport(Rectangle(Point(0, 0), size))]
  }

  /** The effects one polled event causes on the device. */
  function Reaction(e: Event): seq<Effect> {
    if e.Resize? then ResizeReaction(Size(e.width, e.height)) else []
  }

  /** The effects of draining `es`, in arrival order. */
  function Reactions(es: seq<Event>): seq<Effect>
    decreases |es|
  {
    if es == [] then [] else Reactions(es[..|es| - 1]) + Reaction(es[|es| - 1])
  }

  lemma ReactionsSnoc(es: seq<Event>, e: Event)
    ensures Reactions(es + [e]) == Reactions(es) + Reaction(e)
  {
    assert (es + [e])[..|es|] == es;
  }

  /** The rest of a tick once the events are drained: Update, the two clears,
      Draw, the timer restart, and Present. */
  function FrameTail(dt: real, seen: InputState): seq<Effect> {
    [Update(dt, seen), ClearColorBuffer(ClearColour),
     ClearDepthStencilBuffer({Depth, Stencil}, 1.0, 0), Draw(dt), RestartTimer,
     Present(SyncInterval)]
  }

  /** The sizes of the resize events of `es`, in arrival order and with duplicates. */
  function ResizedSizes(es: seq<Event>): seq<Size> {
    if es == [] then []
    else (if es[0].Resize? then [Size(es[0].width, es[0].height)] else []) + ResizedSizes(es[1..])
  }

  lemma {:induction false} ResizedSizesSnoc(es: seq<Event>, e: Event)
    ensures ResizedSizes(es + [e]) ==
              ResizedSizes(es) + (if e.Resize? then [Size(e.width, e.height)] else [])
  {
    if es != [] {
      assert (es + [e])[1..] == es[1..] + [e];
      ResizedSizesSnoc(es[1..], e);
    }
  }

  /** Draining produces, for the j-th resize event and in that order, exactly one
      swapchain resize to its size followed by a viewport of that size at the
      origin, and nothing else. */
  lemma {:induction false} ReactionsAreResizes(es: seq<Event>)
    ensures |Reactions(es)| == 2 * |ResizedSizes(es)|
    ensures forall j :: 0 <= j < |ResizedSizes(es)| ==>
              Reactions(es)[2 * j] == ResizeSwapchain(ResizedSizes(es)[j]) &&
              Reactions(es)[2 * j + 1] == SetViewport(Rectangle(Point(0, 0), ResizedSizes(es)[j]))
    decreases |es|
  {
    if es != [] {
      var n := |es| - 1;
      var p, e := es[..n], es[n];
      assert es == p + [e];
      ReactionsAreResizes(p);
      ResizedSizesSnoc(p, e);
    }
  }

  /** The stages every tick runs once, after its events. */
  datatype Stage = UpdateStage | ClearColourStage | ClearDepthStencilStage | DrawStage | PresentStage

  predicate IsStage(x: Effect, st: Stage) {
    match st
    case UpdateStage => x.Update?
    case ClearColourStage => x.ClearColorBuffer?
    case ClearDepthStencilStage => x.ClearDepthStencilBuffer?
    case DrawStage => x.Draw?
    case PresentStage => x.Present?
  }

  /** How many effects of `xs` belong to stage `st`. */
  function CountStage(xs: seq<Effect>, st: Stage): nat {
    if xs == [] then 0 else (if IsStage(xs[0], st) then 1 else 0) + CountStage(xs[1..], st)
  }

  lemma {:induction false} CountStageAppend(a: seq<Effect>, b: seq<Effect>, st: Stage)
    ensures CountStage(a + b, st) == CountStage(a, st) + CountStage(b, st)
  {
    if a == [] {
      assert a + b == b;
    } else {
      assert (a + b)[1..] == a[1..] + b;
      CountStageAppend(a[1..], b, st);
    }
  }

  /** Event handling never reaches a per-tick stage: no Update, clear, Draw or
      Present happens while events are being drained. */
  lemma {:induction false} ReactionsHaveNoStage(es: seq<Event>, st: Stage)
    ensures CountStage(Reactions(es), st) == 0
    decreases |es|
  {
    if es != [] {
      var n := |es| - 1;
      ReactionsHaveNoStage(es[..n], st);
      CountStageAppend(Reactions(es[..n]), Reaction(es[n]), st);
      var r := Reaction(es[n]);
      if r != [] {
        CountStageCons(r[0], [r[1]], st);
        CountStageCons(r[1], [], st);
        assert r == [r[0]] + [r[1]];
      }
    }
  }

  /** The tail of a tick holds each stage once. */
  lemma FrameTailStagesOnce(dt: real, seen: InputState, st: Stage)
    ensures CountStage(FrameTail(dt, seen), st) == 1
  {
    var t := FrameTail(dt, seen);
    CountStageCons(t[5], [], st);
    CountStageCons(t[4], t[5..], st);
    CountStageCons(t[3], t[4..], st);
    CountStageCons(t[2], t[3..], st);
    CountStageCons(t[1], t[2..], st);
    CountStageCons(t[0], t[1..], st);
    assert [t[5]] + [] == t[5..];
    assert [t[4]] + t[5..] == t[4..];
    assert [t[3]] + t[4..] == t[3..];
    assert [t[2]] + t[3..] == t[2..];
    assert [t[1]] + t[2..] == t[1..];
    assert [t[0]] + t[1..] == t;
  }

  lemma CountStageCons(x: Effect, xs: seq<Effect>, st: Stage)
    ensures CountStage([x] + xs, st) == (if IsStage(x, st) then 1 else 0) + CountStage(xs, st)
  {
    assert ([x] + xs)[1..] == xs;
  }
}
