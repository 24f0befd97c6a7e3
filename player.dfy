/**
 * The player's decision logic: the state the GTK, Wayland and GStreamer
 * callbacks share, and what each callback does to it and asks of the
 * pipeline, the video overlay and the window.
 */
module Player {
  import opened Wrappers
  import opened GstTypes
  import opened TapClock
  import opened KeyCommands
  import opened VideoSize
  import opened RenderRegion
  import opened Playlist

  /** WL_POINTER_BUTTON_STATE_RELEASED */
  const PointerButtonReleased: nat := 0

  /** GDK_BUTTON_PRIMARY */
  const ButtonPrimary: nat := 1

  /**
   * The two stored last-tap stamps: the Wayland pointer has its own, while the
   * GTK button, GTK touch and Wayland touch handlers all share the touch one.
   * (The GTK button and touch handlers are never connected to a signal in
   * main.c; they are modelled as written.)
   */
  datatype TapSlot = TouchTap | PointerTap

  /** The phase of a GDK touch event. */
  datatype TouchPhase = TouchBegin | TouchUpdate | TouchEnd | TouchCancel | OtherTouchEvent

  /** Some SetWindowHandle for overlay `o` is among the first `n` calls of `log`. */
  ghost predicate HandleSent(log: seq<Call>, o: ObjectId, n: int)
  {
    exists j :: 0 <= j < n && j < |log| && log[j].SetWindowHandle? && log[j].overlay == o
  }

  /** No overlay is ever given a render rectangle before it has been given a window handle. */
  ghost predicate HandlesBeforeRects(log: seq<Call>)
  {
    forall i :: 0 <= i < |log| && log[i].SetRenderRect? ==> HandleSent(log, log[i].overlay, i)
  }

  /**
   * Appending a call keeps the handle-before-rectangle order when the call is
   * not a render rectangle or its overlay already has a handle, and every
   * handle already sent stays sent.
   */
  lemma AppendCall(log: seq<Call>, c: Call)
    requires HandlesBeforeRects(log)
    requires c.SetRenderRect? ==> HandleSent(log, c.overlay, |log|)
    ensures HandlesBeforeRects(log + [c])
    ensures forall o :: HandleSent(log, o, |log|) ==> HandleSent(log + [c], o, |log| + 1)
    ensures c.SetWindowHandle? ==> HandleSent(log + [c], c.overlay, |log| + 1)
  {
    var ext := log + [c];
    forall o | HandleSent(log, o, |log|)
      ensures HandleSent(ext, o, |log| + 1)
    {
      var j :| 0 <= j < |log| && log[j].SetWindowHandle? && log[j].overlay == o;
      assert ext[j] == log[j];
    }
    forall i | 0 <= i < |ext| && ext[i].SetRenderRect?
      ensures HandleSent(ext, ext[i].overlay, i)
    {
      if i < |log| {
        assert ext[i] == log[i];
        var j :| 0 <= j < i && j < |log| && log[j].SetWindowHandle? && log[j].overlay == log[i].overlay;
        assert ext[j] == log[j];
      } else {
        var j :| 0 <= j < |log| && log[j].SetWindowHandle? && log[j].overlay == c.overlay;
        assert ext[j] == log[j];
      }
    }
    if c.SetWindowHandle? {
      assert ext[|log|] == c;
    }
  }

  /** The application state (DemoApp and the file-level statics of the player). */
  class App {
    /** The "No Fullscreen" option: a fixed-size window with the video centred in it. */
    const noFullscreen: bool
    /** Whether the pipeline is set PLAYING once it is ready or has its window. */
    const toStart: bool
    /** The pipeline element. */
    const pipeline: ObjectId
    /** argv after option parsing; argv[|argv|] is the terminating NULL. */
    const argv: seq<string>

    var lastTouchTap: u32
    var lastPointerTap: u32
    /** Index into argv of the URI playing (playlist mode only). */
    var currentUri: int
    /** The overlay that asked for a window handle, once one has. */
    var overlay: Option<ObjectId>
    var videoWidth: int
    var videoHeight: int
    /** exit (1) has been called: the process is gone and no callback runs again. */
    var terminated: bool
    /** Every call made to the pipeline, the overlay, the window and the key watcher, in order. */
    ghost var log: seq<Call>

    ghost predicate Valid()
      reads this
    {
      |argv| >= 1 &&
      (|argv| > 1 ==> toStart && 1 <= currentUri < |argv|) &&
      HandlesBeforeRects(log) &&
      (overlay.Some? ==> HandleSent(log, overlay.value, |log|))
    }

    /**
     * The state main builds before the main loop starts: a zeroed DemoApp;
     * with URI arguments, playlist mode on argv[1] with autoplay; otherwise
     * autoplay exactly when a --graph or --shader pipeline was given.
     */
    constructor (argv: seq<string>, noFullscreen: bool, graphOrShader: bool, pipeline: ObjectId)
      requires |argv| >= 1
      ensures Valid() && !terminated
      ensures this.argv == argv && this.noFullscreen == noFullscreen && this.pipeline == pipeline
      ensures toStart == (|argv| > 1 || graphOrShader)
      ensures lastTouchTap == NoTap && lastPointerTap == NoTap
      ensures overlay == None && videoWidth == 0 && videoHeight == 0
      ensures currentUri == (if |argv| > 1 then 1 else 0)
      ensures log == (if |argv| > 1 then [SetUri(argv[1])] else [])
    {
      this.argv := argv;
      this.noFullscreen := noFullscreen;
      this.pipeline := pipeline;
      this.toStart := |argv| > 1 || graphOrShader;
      lastTouchTap, lastPointerTap := NoTap, NoTap;
      overlay := None;
      videoWidth, videoHeight := 0, 0;
      terminated := false;
      currentUri := if |argv| > 1 then 1 else 0;
      log := if |argv| > 1 then [SetUri(argv[1])] else [];
    }

    /** Makes call `c`: appends it to the log. */
    method Send(c: Call)
      requires HandlesBeforeRects(log)
      requires c.SetRenderRect? ==> HandleSent(log, c.overlay, |log|)
      modifies this`log
      ensures log == old(log) + [c]
      ensures HandlesBeforeRects(log)
      ensures forall o :: HandleSent(old(log), o, |old(log)|) ==> HandleSent(log, o, |log|)
      ensures c.SetWindowHandle? ==> HandleSent(log, c.overlay, |log|)
    {
      AppendCall(log, c);
      log := log + [c];
    }

    /** The stored stamp of a slot. */
    function TapOf(slot: TapSlot): u32
      reads this
    {
      match slot
      case TouchTap => lastTouchTap
      case PointerTap => lastPointerTap
    }

    method StoreTap(slot: TapSlot, time: u32)
      modifies this`lastTouchTap, this`lastPointerTap
      ensures TapOf(slot) == time
      ensures slot == TouchTap ==> lastPointerTap == old(lastPointerTap)
      ensures slot == PointerTap ==> lastTouchTap == old(lastTouchTap)
    {
      match slot
      case TouchTap => lastTouchTap := time;
      case PointerTap => lastPointerTap := time;
    }

    /**
     * A press, as each of the four tap handlers treats it. With no pending
     * tap: store the stamp and toggle. Otherwise: store the stamp, then a
     * wrapped difference under 600 ms asks for NULL and exits, and anything
     * else toggles. `queried` is what gst_element_get_state reports.
     */
    method Press(slot: TapSlot, time: u32, queried: State)
      requires Valid() && !terminated
      modifies this`lastTouchTap, this`lastPointerTap, this`terminated, this`log
      ensures Valid()
      ensures TapOf(slot) == time
      ensures slot == TouchTap ==> lastPointerTap == old(lastPointerTap)
      ensures slot == PointerTap ==> lastTouchTap == old(lastTouchTap)
      ensures terminated <==> Classify(old(TapOf(slot)), time) == DoubleTap
      ensures log == old(log) + [SetState(if terminated then Null else Toggle(queried))]
    {
      var last := TapOf(slot);
      if last == NoTap {
        StoreTap(slot, time);
        Send(SetState(Toggle(queried)));
      } else {
        var diff := WrapSub(time, last);
        // Always true here; kept because every handler tests it.
        if last != NoTap {
          StoreTap(slot, time);
          if diff < DoubleTapWindow {
            Send(SetState(Null));
            // g_main_loop_quit and exit (1). The pointer handler's reset of
            // its stamp to 0 comes after exit and never runs.
            terminated := true;
          } else {
            Send(SetState(Toggle(queried)));
          }
        }
      }
    }

    /** pointer_handle_button: a release is ignored; any other button state is a press on the pointer slot. */
    method PointerHandleButton(time: u32, buttonState: nat, queried: State)
      requires Valid() && !terminated
      modifies this`lastTouchTap, this`lastPointerTap, this`terminated, this`log
      ensures Valid()
      ensures lastTouchTap == old(lastTouchTap)
      ensures buttonState == PointerButtonReleased ==>
                lastPointerTap == old(lastPointerTap) && !terminated && log == old(log)
      ensures buttonState != PointerButtonReleased ==>
                lastPointerTap == time &&
                (terminated <==> Classify(old(lastPointerTap), time) == DoubleTap) &&
                log == old(log) + [SetState(if terminated then Null else Toggle(queried))]
    {
      if buttonState == PointerButtonReleased {
        return;
      }
      Press(PointerTap, time, queried);
    }

    /** touch_handle_down: every Wayland touch-down is a press on the touch slot. */
    method TouchHandleDown(time: u32, queried: State)
      requires Valid() && !terminated
      modifies this`lastTouchTap, this`lastPointerTap, this`terminated, this`log
      ensures Valid()
      ensures lastPointerTap == old(lastPointerTap)
      ensures lastTouchTap == time
      ensures terminated <==> Classify(old(lastTouchTap), time) == DoubleTap
      ensures log == old(log) + [SetState(if terminated then Null else Toggle(queried))]
    {
      Press(TouchTap, time, queried);
    }

    /** button_notify_event_cb: the primary button presses on the touch slot; other buttons do nothing. */
    method ButtonNotifyEvent(button: nat, time: u32, queried: State) returns (handled: bool)
      requires Valid() && !terminated
      modifies this`lastTouchTap, this`lastPointerTap, this`terminated, this`log
      ensures Valid() && handled
      ensures lastPointerTap == old(lastPointerTap)
      ensures button != ButtonPrimary ==>
                lastTouchTap == old(lastTouchTap) && !terminated && log == old(log)
      ensures button == ButtonPrimary ==>
                lastTouchTap == time &&
                (terminated <==> Classify(old(lastTouchTap), time) == DoubleTap) &&
                log == old(log) + [SetState(if terminated then Null else Toggle(queried))]
    {
      if button == ButtonPrimary {
        Press(TouchTap, time, queried);
      }
      handled := true;
    }

    /** touch_notify_event_cb: a touch begin presses on the touch slot; update, end, cancel and the rest do nothing. */
    method TouchNotifyEvent(phase: TouchPhase, time: u32, queried: State) returns (handled: bool)
      requires Valid() && !terminated
      modifies this`lastTouchTap, this`lastPointerTap, this`terminated, this`log
      ensures Valid() && handled
      ensures lastPointerTap == old(lastPointerTap)
      ensures phase != TouchBegin ==>
                lastTouchTap == old(lastTouchTap) && !terminated && log == old(log)
      ensures phase == TouchBegin ==>
                lastTouchTap == time &&
                (terminated <==> Classify(old(lastTouchTap), time) == DoubleTap) &&
                log == old(log) + [SetState(if terminated then Null else Toggle(queried))]
    {
      match phase {
        case TouchBegin => Press(TouchTap, time, queried);
        case TouchUpdate =>
        case TouchEnd =>
        case TouchCancel =>
        case OtherTouchEvent =>
      }
      handled := true;
    }

    /**
     * keyboard_cb: 'p' (either case) toggles; 'q' asks for NULL, resets the
     * key watcher and exits; 'h' only prints help; every other character,
     * NUL included, does nothing.
     */
    method KeyboardInput(input: char, queried: State)
      requires Valid() && !terminated
      modifies this`terminated, this`log
      ensures Valid()
      ensures KeyCommand(input) == TogglePlayback ==>
                !terminated && log == old(log) + [SetState(Toggle(queried))]
      ensures KeyCommand(input) == Quit ==>
                terminated && log == old(log) + [SetState(Null), ResetKeyWatcher]
      ensures KeyCommand(input) == Help || KeyCommand(input) == NoCommand ==>
                !terminated && log == old(log)
    {
      match KeyCommand(input)
      case Help =>
      case TogglePlayback =>
        Send(SetState(Toggle(queried)));
      case Quit =>
        Send(SetState(Null));
        Send(ResetKeyWatcher);
        terminated := true;
      case NoCommand =>
    }

    /** argv[i] as C reads it: NULL one past the last argument. */
    function Arg(i: int): (a: Option<string>)
      requires 0 <= i <= |argv|
      ensures a.None? <==> i == |argv|
    {
      if i < |argv| then Some(argv[i]) else None
    }

    /**
     * on_about_to_finish: move to the next argument, back to argv[1] past the
     * last one, and hand that URI to playbin.
     */
    method OnAboutToFinish()
      requires Valid() && !terminated
      requires |argv| > 1
      modifies this`currentUri, this`log
      ensures Valid()
      ensures currentUri == NextUri(old(currentUri), |argv|)
      ensures 1 <= currentUri < |argv| && Arg(currentUri).Some?
      ensures log == old(log) + [SetUri(argv[currentUri])]
    {
      currentUri := currentUri + 1;
      if Arg(currentUri).None? {
        currentUri := 1;
      }
      Send(SetUri(argv[currentUri]));
    }

    /** The window size request msg_structure_change makes in fixed-size mode. */
    function SizeRequest(): seq<Call>
      reads this
    {
      if noFullscreen then [SetWindowSize(videoWidth, videoHeight)] else []
    }

    /**
     * msg_structure_change: read the sink pad's current caps (or, when it has
     * none, the caps it can take), walk them for the size, apply the
     * fixed-size fallback and request that window size, and keep the size.
     */
    method MsgStructureChange(currentCaps: Option<Caps>, queriedCaps: Caps)
      requires HandlesBeforeRects(log)
      modifies this`videoWidth, this`videoHeight, this`log
      ensures HandlesBeforeRects(log)
      ensures forall o :: HandleSent(old(log), o, |old(log)|) ==> HandleSent(log, o, |log|)
      ensures Size(videoWidth, videoHeight) == Fallback(FoldCaps(Unknown, currentCaps.GetOr(queriedCaps)), noFullscreen)
      ensures !noFullscreen ==>
                videoWidth == LastInt(Flatten(currentCaps.GetOr(queriedCaps)), "width").GetOr(0) &&
                videoHeight == LastInt(Flatten(currentCaps.GetOr(queriedCaps)), "height").GetOr(0)
      ensures log == old(log) + SizeRequest()
    {
      var caps := if currentCaps.Some? then currentCaps.value else queriedCaps;
      var size := DiscoverSize(caps);
      if noFullscreen {
        if 200 >= size.width || 200 >= size.height {
          size := FallbackSize;
        }
        Send(SetWindowSize(size.width, size.height));
      }
      videoWidth, videoHeight := size.width, size.height;
    }

    /**
     * bus_sync_handler, run on the streaming thread before the bus sees the
     * message. A request for the Wayland display handle: refresh the video
     * size, set a display context on the asking element, drop the message.
     * A prepare-window-handle message: remember its source as the overlay,
     * refresh the size, give the overlay the window's surface and then the
     * allocation as render rectangle, ask for PLAYING when autoplaying, drop
     * the message. Anything else passes untouched.
     */
    method BusSyncHandler(msg: Message, currentCaps: Option<Caps>, queriedCaps: Caps,
                          display: nat, surface: nat, alloc: Rect) returns (reply: SyncReply)
      requires Valid() && !terminated
      modifies this`overlay, this`videoWidth, this`videoHeight, this`log
      ensures Valid()
      ensures reply == Drop <==> msg.NeedDisplayContext? || msg.PrepareWindowHandle?
      ensures reply == Pass ==>
                overlay == old(overlay) && videoWidth == old(videoWidth) &&
                videoHeight == old(videoHeight) && log == old(log)
      ensures reply == Drop ==>
                Size(videoWidth, videoHeight) == Fallback(FoldCaps(Unknown, currentCaps.GetOr(queriedCaps)), noFullscreen)
      ensures msg.NeedDisplayContext? ==>
                overlay == old(overlay) &&
                log == old(log) + SizeRequest() + [SetContext(msg.src, display)]
      ensures msg.PrepareWindowHandle? ==>
                overlay == Some(msg.src) &&
                log == old(log) + SizeRequest() +
                       [SetWindowHandle(msg.src, surface), SetRenderRect(msg.src, alloc)] +
                       (if toStart then [SetState(Playing)] else [])
    {
      if msg.NeedDisplayContext? {
        MsgStructureChange(currentCaps, queriedCaps);
        Send(SetContext(msg.src, display));
        return Drop;
      } else if msg.PrepareWindowHandle? {
        overlay := Some(msg.src);
        MsgStructureChange(currentCaps, queriedCaps);
        Send(SetWindowHandle(msg.src, surface));
        Send(SetRenderRect(msg.src, alloc));
        if toStart {
          Send(SetState(Playing));
        }
        return Drop;
      }
      return Pass;
    }

    /** msg_state_changed: only the pipeline's own move to READY matters, and then only when autoplaying. */
    method MsgStateChanged(msg: Message)
      requires Valid() && !terminated
      requires msg.StateChanged?
      modifies this`log
      ensures Valid()
      ensures log == old(log) +
                     (if msg.src == pipeline && msg.newState == Ready && toStart then [SetState(Playing)] else [])
    {
      if msg.src == pipeline {
        match msg.newState
        case Ready =>
          if toStart {
            Send(SetState(Playing));
          }
        case _ =>
      }
    }

    /**
     * gstreamer_bus_callback: an error asks for NULL; a state change goes to
     * msg_state_changed; end-of-stream asks for NULL and exits; everything
     * else is ignored. The watch is always kept.
     */
    method BusCallback(msg: Message) returns (keepWatch: bool)
      requires Valid() && !terminated
      modifies this`terminated, this`log
      ensures Valid() && keepWatch
      ensures terminated <==> msg.Eos?
      ensures msg.Error? || msg.Eos? ==> log == old(log) + [SetState(Null)]
      ensures msg.StateChanged? ==>
                log == old(log) +
                       (if msg.src == pipeline && msg.newState == Ready && toStart then [SetState(Playing)] else [])
      ensures !(msg.Error? || msg.Eos? || msg.StateChanged?) ==> log == old(log)
    {
      match msg {
        case Error(_) =>
          Send(SetState(Null));
        case StateChanged(_, _, _, _) =>
          MsgStateChanged(msg);
        case Eos(_) =>
          Send(SetState(Null));
          terminated := true;
        case _ =>
      }
      keepWatch := true;
    }

    /**
     * video_widget_draw_cb: once an overlay is bound, give it the render
     * rectangle for the widget's allocation (the whole allocation, or the
     * video size centred in it in fixed-size mode); before that, nothing.
     * Nothing but the log changes, so redrawing an unchanged allocation
     * sends the same rectangle again.
     */
    method VideoWidgetDraw(alloc: Rect) returns (handled: bool)
      requires Valid() && !terminated
      modifies this`log
      ensures Valid() && !handled
      ensures overlay.None? ==> log == old(log)
      ensures overlay.Some? ==>
                log == old(log) + [SetRenderRect(overlay.value, RenderRect(alloc, noFullscreen, videoWidth, videoHeight))]
    {
      if overlay.Some? {
        if noFullscreen {
          var x := alloc.x + TruncDiv(alloc.width - videoWidth, 2);
          var y := alloc.y + TruncDiv(alloc.height - videoHeight, 2);
          Send(SetRenderRect(overlay.value, Rect(x, y, videoWidth, videoHeight)));
        } else {
          Send(SetRenderRect(overlay.value, alloc));
        }
      }
      // FALSE: the draw signal goes on to the other handlers.
      handled := false;
    }
  }
}
