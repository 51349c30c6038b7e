# Pie samples: the `SampleApplication` run loop

Every Pie tutorial sample derives from `SampleApplication`. This base class builds an
800×600 resizable window and its graphics device. It calls the sample's `Initialize`
hook once. Then it loops until the close flag is set. Each tick:

1. resets the mouse delta to zero;
2. drains the window's event queue and dispatches on each event:
   - a quit event sets the close flag;
   - a resize event resizes the swapchain and sets the viewport;
   - a key-down or key-up event adds the key to the pressed set or removes it;
   - a mouse-move event overwrites the position and adds to the delta;
3. calls `Update(dt)`, clears the colour buffer to (0.2, 0.3, 0.3, 1.0) and the depth/stencil buffer;
4. calls `Draw(dt)`, restarts the frame timer and presents with swap interval 1.

`Close()` sets the close flag from inside a hook. `IsKeyDown`, `MousePosition` and
`DeltaMousePosition` are what the hooks read. `Dispose()` releases the device and then the window.

The project has four modules:

- `Events` (events.dfy): the polled events, the input snapshot, and the dispatch of one event (`Step`). It also holds draining a whole queue (`Drain`) and independent descriptions of each field after draining:
  - the pressed keys follow the last press or release of each key;
  - the delta is a running sum;
  - the position is that of the last mouse move;
  - the close flag is set by any quit event.
- `Effects` (effects.dfy): the calls into the window, device and hooks, as a trace of effects; the resize handler's effects; the fixed tail of every tick.
- `RunLoop` (run_loop.dfy): one tick (`Advance`) and a run over a finite script of ticks (`RunFrom`) as functions, with lemmas on what `Update` observes, when the loop stops and how often each stage runs.
- `Application` (sample_application.dfy): the class `SampleApplication`. Its fields are the ones the source updates in place. Its `Run`, `Tick` and event-draining loops are imperative and proved to equal the `RunLoop` functions.

Outside inputs are parameters. Each tick is a `Frame`, which holds:
- the events the window's poll returns before the queue is empty;
- the seconds the stopwatch reads;
- whether the sample's `Update` hook calls `Close()`.

`Run` also takes `initCloses`: whether the sample's `Initialize` hook calls `Close()`.

## Model

| member | source | states |
|---|---|---|
| `Events.StepKeyMembership` | Common/SampleApplication.cs:62-73 | A key-down makes its key down and a key-up makes it up. Pressing a key already down, or releasing one already up, changes nothing. Any other event, including key events of another type, leaves that key's membership (and, for non-key events, the whole set) unchanged |
| `Events.DrainKeys` | Common/SampleApplication.cs:52-79 | After draining, key k is down exactly when some press of k has no later release. It is also down when no event releases k and k was down before |
| `Events.DrainDelta` | Common/SampleApplication.cs:74-77 | Draining adds the sum of the mouse-move deltas, taken left to right, to the delta it started from |
| `Events.NoMovesSumZero` | Common/SampleApplication.cs:74-77 | Events without a mouse move contribute a zero delta |
| `Events.DrainPosition` | Common/SampleApplication.cs:74-75 | After draining, the position is that of the last mouse move. With no mouse move, the previous position is kept |
| `Events.DrainQuit` | Common/SampleApplication.cs:54-58 | After draining, the close flag is set exactly when it was set already or a quit event was polled. Nothing clears it |
| `Effects.ReactionsAreResizes` | Common/SampleApplication.cs:59-61 | Draining produces, for the j-th resize event in arrival order and including duplicates, one swapchain resize to (w,h) followed by one viewport of size (w,h) at the origin, and no other effect |
| `Effects.ReactionsHaveNoStage` | Common/SampleApplication.cs:52-79 | No Update, clear, Draw or Present happens while events are drained |
| `Effects.FrameTailStagesOnce` | Common/SampleApplication.cs:81-90 | After the events, a tick runs Update, the colour clear, the depth/stencil clear, Draw and Present exactly once each |
| `RunLoop.TickUpdateSeesDrained` | Common/SampleApplication.cs:52-82 | Update comes right after the effects of the tick's events. It observes the input with every event of the tick applied |
| `RunLoop.TickDelta` | Common/SampleApplication.cs:50-77 | The delta Update observes is the sum of this tick's mouse deltas only. Earlier ticks' deltas are discarded |
| `RunLoop.TickDeltaWithoutMoves` | Common/SampleApplication.cs:50-77 | A tick without mouse moves reports a zero delta |
| `RunLoop.TickPosition` | Common/SampleApplication.cs:74-75 | The position Update observes is that of the tick's last mouse move. Without one, it carries over from the previous tick |
| `RunLoop.TickKeys` | Common/SampleApplication.cs:62-73 | Key k is down for Update exactly when its last press or release in the tick was a press. If the tick neither pressed nor released it, it keeps its earlier state |
| `RunLoop.TickClose` | Common/SampleApplication.cs:48-58 | A tick ends with the close flag set exactly when the flag was already set, a quit was polled, or the hook called Close() |
| `RunLoop.RunStopsAfterClosingTick` | Common/SampleApplication.cs:48-91 | A run that starts closed runs no tick. Otherwise every tick but the last was not a closing frame. The run ends before the script runs out only right after a closing frame, and it ends closed exactly when its last tick closed |
| `RunLoop.RunStagesOncePerTick` | Common/SampleApplication.cs:48-91 | Over a run, Update, each clear, Draw and Present each occur exactly as many times as there are ticks |
| `RunLoop.TicksMakeNoLifecycleCalls` | Common/SampleApplication.cs:48-91 | No tick builds the window, calls Initialize or disposes the device or window |
| `RunLoop.ScriptedQuitAfterMoves` | Common/SampleApplication.cs:48-91 | Mouse moves (1,1,+1,+1) and (2,2,+1,+1) followed by a quit run exactly one tick, whatever frames follow. Update sees position (2,2) and delta (2,2) |
| `Application.FullPath` | Common/SampleApplication.cs:100-103 | The path is the assembly directory, a slash, then the relative path |
| `Application.SampleApplication.constructor` | Common/SampleApplication.cs:24-28 | Stores the title. No key is down, mouse position and delta are zero, the flag is clear, nothing is built and no call has been made |
| `Application.SampleApplication.Close` | Common/SampleApplication.cs:105 | Sets the close flag |
| `Application.SampleApplication.WindowOnResize` | Common/SampleApplication.cs:94-98 | Appends a swapchain resize to the new size, then a viewport of that size at the origin |
| `Application.SampleApplication.HandleEvent` | Common/SampleApplication.cs:54-78 | The new state is `Step` of the old one and the trace grows by the event's reaction. After a key-down, `IsKeyDown` holds for its key and after a key-up it fails. Other keys are unchanged, and the close flag is never cleared |
| `Application.SampleApplication.DrainEvents` | Common/SampleApplication.cs:52-79 | The inner polling loop leaves the state `Drain` of the old one and appends the events' reactions in arrival order |
| `Application.SampleApplication.Tick` | Common/SampleApplication.cs:50-90 | One loop body leaves the state and appends the effects that `Advance` gives for the old state and the frame |
| `Application.SampleApplication.RunTicks` | Common/SampleApplication.cs:48-91 | The outer loop leaves the state and appends the effects that `RunFrom` gives for the old state and the script |
| `Application.SampleApplication.Run` | Common/SampleApplication.cs:36-92 | Builds an 800×600 resizable window titled with the title, then calls Initialize once, before any tick. Then it runs the ticks as `RunFrom` says and disposes nothing. If Initialize calls Close(), the flag is set before the first loop test and no tick runs |
| `Application.SampleApplication.Dispose` | Common/SampleApplication.cs:113-117 | After `Run` it disposes the device and then the window. Before `Run` both are null and the call fails with a null reference, with no effect |

The reference functions the lemmas and methods are stated against model these lines directly:
- `Events.Step` is the dispatch (Common/SampleApplication.cs:54-78).
- `Events.Drain` is the polling loop (lines 52-79).
- `RunLoop.Advance` is one loop body (lines 50-90).
- `RunLoop.RunFrom` is the outer loop (lines 48-91).
- `Effects.FrameTail` is the end of each tick (lines 81-90).

`IsKeyDown` (Common/SampleApplication.cs:107) is `SampleApplication.IsKeyDown`, stated through `HandleEvent`. `MousePosition` and `DeltaMousePosition` (lines 109-111) are the fields `mousePosition` and `deltaMousePosition`.

Three behaviours of the code to note:
- `Run` does not dispose when the loop ends. Disposal is the separate `Dispose`.
- The mouse delta is the sum of the events' own deltas, not the current position minus the previous one.
- A resize also sets the viewport.

## Left out

- `PollEvent` is a Pie library call. It is not called: the events it would return in a tick are the input `Frame.events`.
- Window and device construction, `ClearColorBuffer`, `ClearDepthStencilBuffer`, `ResizeSwapchain`, `Present` and the `Viewport` setter are Pie library calls. They appear only as entries in the effect trace. A library failure (for instance, window creation failing) is not modelled.
- The user hooks `Initialize`, `Update` and `Draw` are virtual calls into sample code. They are trace entries. `Update` carries the input snapshot it can read. An `Update` hook calling `Close()` is the frame's `hookCloses` flag, and an `Initialize` hook calling it is `Run`'s `initCloses` parameter. A `Draw` that calls `Close()` has the same effect on the loop as an `Update` that does, so it is not a separate case.
- Frame timing: the stopwatch is a wall clock read as a float. `dt` is the frame's `elapsed` value, passed unchanged to `Update` and `Draw`. The restart is the `RestartTimer` entry between `Draw` and `Present`.
- Mouse coordinates are single-precision floats in the source and integers here, so the delta sum has no rounding.
- RunTicks: the source loops forever while no quit arrives. The model ends the loop when its finite script of frames is used up.
- FullPath: the executing assembly's directory comes from the runtime, so it is a parameter.
- `Run` called a second time builds a new window and device without disposing the old ones. The model appends a second `BuildWindow` and keeps no handle identities.
- The sample subclasses are not part of this model. They hold only GPU resource creation, shader text and camera arithmetic on an external class. Some also override a `Draw()` from an older base-class API.
- The callback-driven window programs and the audio playback program are not part of this model. They are library-driven I/O and asynchronous console handling.
