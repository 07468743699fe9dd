/**
 * The render worker (offscreenWorker.js): a per-worker map from canvas id to the canvas it
 * owns, filled by initial-setup messages and looked up by render-only messages.
 *
 * The drawing routine itself (renderer.js) is an opaque step: the model records which surface
 * it ran against and nothing about the pixels.
 */
module OffscreenWorker {
  import opened Ids
  import opened Protocol

  /** The `{ canvas, ctx }` entry of `canvasMap`. */
  datatype Stored = Stored(canvas: Surface, ctx: Option<nat>)

  /** What the worker reports with `console.error`. */
  datatype WorkerError = NoCanvas(canvasId: CanvasId) | NoContext

  /** The effect of handling one message: the new map, the reply posted (if any), the error logged (if any). */
  datatype Outcome = Outcome(canvasMap: map<CanvasId, Stored>, reply: Option<Reply>, error: Option<WorkerError>)

  /** Renders onto the stored entry for `id` and answers with its bitmap, unless it has no context. */
  function RenderStored(canvasMap: map<CanvasId, Stored>, id: CanvasId): Outcome
    requires id in canvasMap
  {
    var stored := canvasMap[id];
    if stored.ctx.None? then Outcome(canvasMap, None, Some(NoContext))
    else Outcome(canvasMap, Some(Reply(id, Bitmap(stored.canvas.handle))), None)
  }

  /** The message handler `self.onmessage` as a function of the map it starts from. */
  function Handle(canvasMap: map<CanvasId, Stored>, msg: Message): (r: Outcome)
    // entries are only ever added: the known ids grow by the transferred id and by nothing else
    ensures r.canvasMap.Keys == canvasMap.Keys + (if msg.Transfer? then {msg.canvasId} else {})
    ensures forall id :: id in canvasMap && id != msg.canvasId ==> r.canvasMap[id] == canvasMap[id]
    // an initial-setup message stores its canvas, replacing any earlier entry for that id
    ensures msg.Transfer? ==> r.canvasMap[msg.canvasId] == Stored(msg.canvas, msg.canvas.context)
    // a render-only message leaves the map as it was
    ensures msg.RenderOnly? ==> r.canvasMap == canvasMap
    // a render-only message for an unknown id is reported and dropped
    ensures r.error == Some(NoCanvas(msg.canvasId)) <==> msg.RenderOnly? && msg.canvasId !in canvasMap
    // exactly one of: a reply is posted, an error is logged
    ensures r.reply.Some? <==> r.error.None?
    // a reply is posted exactly when the entry for the id exists and has a context ...
    ensures r.reply.Some? <==> msg.canvasId in r.canvasMap && r.canvasMap[msg.canvasId].ctx.Some?
    // ... and it carries the same id and the image of the stored canvas
    ensures r.reply.Some? ==> r.reply.value == Reply(msg.canvasId, Bitmap(r.canvasMap[msg.canvasId].canvas.handle))
    // otherwise the entry exists without a context, which is reported as such
    ensures r.reply.None? && !(msg.RenderOnly? && msg.canvasId !in canvasMap) ==> r.error == Some(NoContext)
  {
    match msg
    case Transfer(id, canvas, _) =>
      RenderStored(canvasMap[id := Stored(canvas, canvas.context)], id)
    case RenderOnly(id, _) =>
      if id !in canvasMap then Outcome(canvasMap, None, Some(NoCanvas(id)))
      else RenderStored(canvasMap, id)
  }

  /** The map after the worker has handled `msgs` in order, starting from `canvasMap`. */
  function Run(canvasMap: map<CanvasId, Stored>, msgs: seq<Message>): map<CanvasId, Stored>
  {
    if msgs == [] then canvasMap
    else Handle(Run(canvasMap, msgs[..|msgs| - 1]), msgs[|msgs| - 1]).canvasMap
  }

  /** No message of `msgs`, handled in order from `canvasMap`, hits the "No canvas found" path. */
  predicate NoMiss(canvasMap: map<CanvasId, Stored>, msgs: seq<Message>)
  {
    if msgs == [] then true
    else
      var init, last := msgs[..|msgs| - 1], msgs[|msgs| - 1];
      NoMiss(canvasMap, init) && Handle(Run(canvasMap, init), last).error != Some(NoCanvas(last.canvasId))
  }

  /** The ids a worker knows after a run are the ones it started with plus every id transferred to it. */
  lemma {:induction false} RunKeys(canvasMap: map<CanvasId, Stored>, msgs: seq<Message>)
    ensures Run(canvasMap, msgs).Keys == canvasMap.Keys + Known(msgs)
  {
    if msgs != [] {
      var init, last := msgs[..|msgs| - 1], msgs[|msgs| - 1];
      RunKeys(canvasMap, init);
      assert msgs == init + [last];
      KnownAppend(init, last);
    }
  }

  /**
   * A fresh worker (empty `canvasMap`) never drops a render-only message if and only if every
   * render-only message it receives comes after a transfer of the same canvas.
   */
  lemma {:induction false} NoMissIffPreceded(msgs: seq<Message>)
    ensures NoMiss(map[], msgs) <==> Preceded(msgs)
  {
    if msgs != [] {
      var init, last := msgs[..|msgs| - 1], msgs[|msgs| - 1];
      NoMissIffPreceded(init);
      RunKeys(map[], init);
    }
  }

  /** One render worker: its canvas map and what it has drawn, logged and posted. */
  class RenderWorker {
    var canvasMap: map<CanvasId, Stored>
    var drawn: seq<Surface>        // the surfaces renderGrid ran against, in order
    var errors: seq<WorkerError>   // console.error reports, in order

    constructor ()
      ensures canvasMap == map[] && drawn == [] && errors == []
    {
      canvasMap := map[];
      drawn := [];
      errors := [];
    }

    /** `self.onmessage`: returns the reply the worker posts, or None when it posts nothing. */
    method OnMessage(msg: Message) returns (reply: Option<Reply>)
      modifies this
      ensures var o := Handle(old(canvasMap), msg);
        && canvasMap == o.canvasMap
        && reply == o.reply
        && errors == old(errors) + (if o.error.Some? then [o.error.value] else [])
        && drawn == old(drawn) + (if reply.Some? then [canvasMap[msg.canvasId].canvas] else [])
    {
      var canvas: Surface, ctx: Option<nat>;
      if msg.Transfer? {
        canvas := msg.canvas;
        ctx := canvas.context;
        canvasMap := canvasMap[msg.canvasId := Stored(canvas, ctx)];
      } else {
        if msg.canvasId !in canvasMap {
          errors := errors + [NoCanvas(msg.canvasId)];
          return None;
        }
        var stored := canvasMap[msg.canvasId];
        canvas, ctx := stored.canvas, stored.ctx;
      }
      if ctx.None? {
        errors := errors + [NoContext];
        return None;
      }
      drawn := drawn + [canvas];
      reply := Some(Reply(msg.canvasId, Bitmap(canvas.handle)));
    }
  }
}
