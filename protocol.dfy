/**
 * The messages exchanged between the page and its render workers, and the order in which
 * one worker sees them.
 *
 * A worker handle, a surface and a bitmap are opaque: the page never looks inside them.
 * Posting a message appends an `Envelope` to the page's outbox; a worker receives, in order,
 * exactly the envelopes addressed to it (its `Inbox`).
 */
module Protocol {
  import opened Ids

  datatype Option<T> = None | Some(value: T)

  /** A `Worker` object, identified by the order in which the page created it. */
  type WorkerId = nat

  /**
   * The OffscreenCanvas obtained from a hidden canvas. `context` is what `getContext('2d')`
   * yields for it (None stands for `null`).
   */
  datatype Surface = Surface(handle: nat, context: Option<nat>)

  /** The ImageBitmap taken from a surface with `transferToImageBitmap`. */
  datatype Bitmap = Bitmap(source: nat)

  /** Page to worker. `Transfer` is `isInitialSetup: true` (the canvas travels with it). */
  datatype Message =
    | Transfer(canvasId: CanvasId, canvas: Surface, text: seq<string>)
    | RenderOnly(canvasId: CanvasId, text: seq<string>)

  /** Worker to page: `{ imageBitmap, canvasId }`. */
  datatype Reply = Reply(canvasId: CanvasId, bitmap: Bitmap)

  datatype Envelope = Envelope(worker: WorkerId, msg: Message)

  /** The messages addressed to worker `w`, in the order they were posted. */
  function Inbox(outbox: seq<Envelope>, w: WorkerId): (msgs: seq<Message>)
    ensures |msgs| <= |outbox|
  {
    if outbox == [] then []
    else
      var last := outbox[|outbox| - 1];
      Inbox(outbox[..|outbox| - 1], w) + (if last.worker == w then [last.msg] else [])
  }

  lemma InboxAppend(outbox: seq<Envelope>, e: Envelope, w: WorkerId)
    ensures Inbox(outbox + [e], w) == Inbox(outbox, w) + (if e.worker == w then [e.msg] else [])
  {
  }

  /** Canvas ids some `Transfer` in `msgs` hands over. */
  function Known(msgs: seq<Message>): (ids: set<CanvasId>)
  {
    if msgs == [] then {}
    else
      var last := msgs[|msgs| - 1];
      Known(msgs[..|msgs| - 1]) + (if last.Transfer? then {last.canvasId} else {})
  }

  lemma KnownAppend(msgs: seq<Message>, m: Message)
    ensures Known(msgs + [m]) == Known(msgs) + (if m.Transfer? then {m.canvasId} else {})
  {
  }

  /** `id` is known after `msgs` exactly when one of them transfers it. */
  lemma {:induction false} KnownIff(msgs: seq<Message>, id: CanvasId)
    ensures id in Known(msgs) <==>
            exists k :: 0 <= k < |msgs| && msgs[k].Transfer? && msgs[k].canvasId == id
  {
    if msgs != [] {
      var init := msgs[..|msgs| - 1];
      KnownIff(init, id);
      assert forall k :: 0 <= k < |init| ==> init[k] == msgs[k];
      if exists k :: 0 <= k < |msgs| && msgs[k].Transfer? && msgs[k].canvasId == id {
        var k :| 0 <= k < |msgs| && msgs[k].Transfer? && msgs[k].canvasId == id;
        if k < |init| {
          assert init[k].Transfer? && init[k].canvasId == id;
        }
      }
    }
  }

  /** Every `RenderOnly` in `msgs` comes after a `Transfer` of the same canvas id. */
  predicate Preceded(msgs: seq<Message>)
  {
    if msgs == [] then true
    else
      var init, last := msgs[..|msgs| - 1], msgs[|msgs| - 1];
      Preceded(init) && (last.RenderOnly? ==> last.canvasId in Known(init))
  }

  lemma PrecededAppend(msgs: seq<Message>, m: Message)
    ensures Preceded(msgs + [m]) <==> Preceded(msgs) && (m.RenderOnly? ==> m.canvasId in Known(msgs))
  {
  }
}
