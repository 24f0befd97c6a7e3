/**
 * The vocabulary the player shares with its collaborators: GStreamer element
 * states, the messages the pipeline posts on its bus, the rectangles GTK
 * allocates, and the calls the player makes on the pipeline, the video overlay,
 * the GTK window and the stdin key watcher.
 */
module GstTypes {

  /** GstState, as returned by gst_element_get_state and requested by gst_element_set_state. */
  datatype State = VoidPending | Null | Ready | Paused | Playing

  /** Identity of a GstObject: the pipeline, a sink, or any other element posting on the bus. */
  type ObjectId = nat

  /** A GtkAllocation, or a render rectangle handed to a video overlay. */
  datatype Rect = Rect(x: int, y: int, width: int, height: int)

  /**
   * One call from the player to something outside it. The player keeps no
   * other record of what it asked for: the pipeline's reaction is reported
   * back later, asynchronously, on the bus.
   */
  datatype Call =
    | SetState(target: State)                      // gst_element_set_state on the pipeline
    | SetContext(element: ObjectId, display: nat)  // a Wayland display-handle context set on an element
    | SetWindowHandle(overlay: ObjectId, surface: nat)
    | SetRenderRect(overlay: ObjectId, rect: Rect)
    | SetWindowSize(width: int, height: int)       // gtk_widget_set_size_request on the top-level window
    | SetUri(uri: string)                          // the "uri" property of playbin
    | ResetKeyWatcher                              // local_kb_set_key_handler (NULL)

  /** The messages the bus handlers tell apart. */
  datatype Message =
    | NeedDisplayContext(src: ObjectId)   // a need-context message asking for the Wayland display handle
    | PrepareWindowHandle(src: ObjectId)  // the video overlay's prepare-window-handle message
    | Error(src: ObjectId)
    | StateChanged(src: ObjectId, oldState: State, newState: State, pending: State)
    | Eos(src: ObjectId)
    | OtherMessage(src: ObjectId)

  /** GstBusSyncReply: whether a message intercepted on the streaming thread goes on to the bus. */
  datatype SyncReply = Pass | Drop

  /**
   * The pause/play toggle shared by every single tap and the 'p' key:
   * a pipeline found PAUSED is asked to play, one in any other state to pause.
   */
  function Toggle(queried: State): (target: State)
    ensures target == Playing <==> queried == Paused
    ensures target == Paused <==> queried != Paused
  {
    if queried == Paused then Playing else Paused
  }
}
