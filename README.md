# touch-event-gtk-player: input and playback decisions

This project models the decision logic of the touch-event GTK player. The player is a
GStreamer video player drawing into a GTK window on Wayland. It covers:

- the four tap handlers: Wayland pointer button, Wayland touch down, GTK button press and GTK touch.
  A first tap toggles pause/play. A second tap less than 600 ms after the previous one on the same
  slot stops the pipeline and exits.
- the stdin keyboard commands (`p`, `q`, `h`);
- playlist looping over the command-line URIs;
- discovery of the video size from the sink pad's caps, with the 640 x 480 fallback in
  fixed-size (no-fullscreen) mode;
- the render rectangle handed to the video overlay on every redraw;
- the synchronous bus handler, which hands the Wayland display and window surface to the
  pipeline, and the asynchronous bus watch, which autoplays, stops on error and exits at end of stream.

As written, main.c never connects `button_notify_event_cb` or `touch_notify_event_cb` to a signal: its only
signal connections are "destroy", "draw" and "about-to-finish". The two Wayland handlers are installed only
by `init_wl_event`, inside the prepare-window-handle branch of the sync handler, so in the running program
only they receive presses, and only after the first prepare message. The model keeps all four handlers as
written and lets any of them run from the constructed state, which over-approximates what can happen.

The state shared by these callbacks is one class, `Player.App`:

- the two 32-bit last-tap stamps, where 0 means "no pending tap";
- the playlist index, the bound overlay and the video size;
- a `terminated` flag that stands for `exit (1)`. No callback may run once it is set.

A ghost log records every call the player makes on the pipeline, the overlay, the window and the
key watcher. What the pipeline reports (`gst_element_get_state`, the sink pad's caps, the
allocation, the surface and display handles) enters as method parameters.

The object invariant `App.Valid` holds the handoff protocol's ordering rule: no overlay ever
receives a render rectangle before it has received a window handle.

Pure parts are functions in their own modules:

- `TapClock`: wrapping subtraction and tap classification;
- `KeyCommands`: the key-to-command map;
- `VideoSize`: the caps field walk and the fallback;
- `RenderRegion`: truncating division and centring;
- `Playlist`: the index step.

Behaviour of main.c that is easy to misread:

- A press stamped exactly 0 stores 0, so the next press is a single tap, however soon it comes
  (`TapClock.ZeroStampNeverStartsDoubleTap`). Taps at t=0 and t=300 therefore do not make a double tap.
- An error message on the bus only requests NULL. It does not exit the process.
- A request for the display context also refreshes the video size before the context is set.
- No tap slot is ever reset to 0. The pointer handler's reset follows `exit (1)` and never runs.
  The touch handlers have no reset at all.
- The GTK button handler uses the touch slot, not a slot of its own.

## Model

| member | source | states |
|---|---|---|
| GstTypes.Toggle | touch-event-gtk-player/main.c:122-126 | a pipeline found PAUSED is asked to play; in any other state it is asked to pause |
| TapClock.WrapSub | touch-event-gtk-player/main.c:128 | the guint32 difference d is the unique 32-bit value with stored + d equal to time modulo 2^32 |
| TapClock.DoubleTapExactly | touch-event-gtk-player/main.c:119-146 | the contract of `TapClock.Classify`, the tap handlers' decision: a press is a double tap iff a tap is pending and the press is less than 600 ms after it on the wrapping clock |
| TapClock.SecondPressInOrder | touch-event-gtk-player/main.c:128-131 | with stamps in order, the second press is a double tap iff it comes under 600 ms after the first |
| TapClock.SecondPressAcrossRollover | touch-event-gtk-player/main.c:128-131 | with a smaller second stamp, it is a double tap only when the clock rolled over within 600 ms; out-of-order stamps give a huge difference and a single tap |
| TapClock.RunQuitsIffClosePress | touch-event-gtk-player/main.c:173-199 | a run of presses on one slot ends the process iff some press follows a press not stamped 0 by under 600 ms |
| TapClock.ZeroStampNeverStartsDoubleTap | touch-event-gtk-player/main.c:173-174 | a press stamped 0 leaves no pending tap, so the press after it is a single tap |
| KeyCommands.AsciiLower | touch-event-gtk-player/main.c:706-707 | maps only 'A'..'Z' to lower case |
| KeyCommands.KeyCommand | touch-event-gtk-player/main.c:700-729 | 'p'/'P' toggles, 'q'/'Q' quits, 'h'/'H' is help, and every other character (NUL included) is no command, in both directions |
| RenderRegion.TruncDiv | touch-event-gtk-player/main.c:625-626 | C division by a positive divisor: the quotient truncates toward zero for negative and non-negative dividends |
| RenderRegion.RenderRect | touch-event-gtk-player/main.c:619-632 | fullscreen: the allocation itself; fixed size: the video size, centred in the allocation with margins differing by at most one pixel in each axis |
| RenderRegion.CentredIsUnique | touch-event-gtk-player/main.c:623-628 | the centring condition determines the rectangle's origin uniquely |
| VideoSize.FoldFieldsLastWins | touch-event-gtk-player/main.c:304-317 | the contract of `VideoSize.PrintField`, the field callback, over a run of fields: after the field callback, width and height are the values of the last int fields named "width…" and "height…", unchanged where there is none |
| VideoSize.FoldCapsFlat | touch-event-gtk-player/main.c:343-347 | walking the caps structure by structure equals walking all their fields in one run |
| VideoSize.DiscoverSize | touch-event-gtk-player/main.c:333-347 | the nested loop over structures and fields yields the last int width and height across all structures, or 0 |
| VideoSize.Fallback | touch-event-gtk-player/main.c:348-352 | in fixed-size mode both sides end up above 200, and only a degenerate size is replaced, by 640 x 480; fullscreen keeps the size |
| Playlist.NextUri | touch-event-gtk-player/main.c:67-68 | the next index stays in 1..argc-1: one on, or back to 1 from the last argument |
| Playlist.AdvanceWithinRound | touch-event-gtk-player/main.c:64-72 | k signals move the index k places on, wrapping once past argc-1 |
| Playlist.PlaylistLoops | touch-event-gtk-player/main.c:64-72 | argc-1 signals return to the starting URI, and every URI comes up within fewer signals than that |
| Player.AppendCall | touch-event-gtk-player/main.c:588-590 | appending a call keeps every render rectangle after a window handle for its overlay |
| Player.App.constructor | touch-event-gtk-player/main.c:790-826 | a zeroed state; with URIs, playlist mode on argv[1] with autoplay; otherwise autoplay iff a graph or shader pipeline is given |
| Player.App.Press | touch-event-gtk-player/main.c:119-147 | stores the press stamp on its slot only, and then either sends one toggle or sends NULL and exits, as the classification says |
| Player.App.PointerHandleButton | touch-event-gtk-player/main.c:106-148 | a release changes nothing; any other button state is a press on the pointer slot and never touches the touch slot |
| Player.App.TouchHandleDown | touch-event-gtk-player/main.c:163-200 | a press on the shared touch slot; the pointer slot is untouched |
| Player.App.ButtonNotifyEvent | touch-event-gtk-player/main.c:447-488 | the primary button is a press on the touch slot; other buttons change nothing; the event is always handled |
| Player.App.TouchNotifyEvent | touch-event-gtk-player/main.c:490-545 | touch begin is a press on the touch slot; update, end, cancel and other events change nothing |
| Player.App.KeyboardInput | touch-event-gtk-player/main.c:699-729 | 'p' sends one toggle; 'q' sends NULL, resets the key watcher and exits; any other key sends nothing |
| Player.App.OnAboutToFinish | touch-event-gtk-player/main.c:64-72 | the index advances with wrap, always lands on a non-NULL argument at position 1 or above, and that URI goes to playbin |
| Player.App.MsgStructureChange | touch-event-gtk-player/main.c:324-361 | the stored size is the fallback of the size discovered in the current caps (or the queried caps when there are none); in fixed-size mode that size is also requested for the window |
| Player.App.BusSyncHandler | touch-event-gtk-player/main.c:547-604 | drops exactly the display-context and prepare-window-handle messages; prepare binds the overlay and sends the handle strictly before the allocation rectangle, then PLAYING only when autoplaying; other messages pass with no effect |
| Player.App.MsgStateChanged | touch-event-gtk-player/main.c:363-397 | only the pipeline's own change to READY, when autoplaying, sends PLAYING |
| Player.App.BusCallback | touch-event-gtk-player/main.c:399-443 | error sends NULL; end-of-stream sends NULL and exits; a state change goes to MsgStateChanged; nothing else has an effect; the watch is kept |
| Player.App.VideoWidgetDraw | touch-event-gtk-player/main.c:606-640 | before an overlay is bound nothing is sent; afterwards one render rectangle, the one RenderRect gives for the allocation; only the log changes, so an unchanged allocation sends the same rectangle; the handler returns FALSE, so the draw signal goes on to other handlers |

## Left out

- Window building, CSS styling and widget setup (`build_window`): pure GTK calls.
- Wayland registry, seat and listener wiring (`seat_handle_capabilities`, `global_registry_handler`, `init_wl_event`). This includes the `init_wl_event` call inside the prepare-window-handle branch, which only registers input listeners.
- Pipeline construction (`gst_parse_launch`), option parsing, the graph check and the shader file loading. Their configuration errors exit at startup, before any modelled callback runs.
- The fixed-size preroll and seek sequence and the startup loop that polls until PLAYING with `sleep (1)`. These are timed waits on the pipeline.
- Reading stdin (`io_callback`) and installing the key watcher. `local_kb_set_key_handler (NULL)` on 'q' is logged as one `ResetKeyWatcher` call.
- `g_print` logging, the help text of 'h', and the unused `msg_cb`.
- `g_main_loop_quit` before `exit (1)`, and object and message reference counting.
- Threads: the sync handler runs on a streaming thread. Every callback here is one atomic step, and interleavings are not modelled.
- The pipeline's real state machine. The state returned by `gst_element_get_state` (with an unbounded wait) is a parameter, and requested states are only logged.
- Player.App.MsgStateChanged: the check that the message carries a structure is not modelled, because state-changed messages always carry one.
- RenderRegion.RenderRect: `gint` sizes and offsets are unbounded integers. Signed overflow in the centring arithmetic is not modelled.
- Surface, display and element identities are opaque numbers.
