# Offscreen canvas worker pool — a Dafny model

The application draws a grid of text onto a number of canvases. The worker-render path
hands each canvas to a pool of Web Workers. On first use a worker takes permanent
ownership of the canvas's offscreen surface (`transferControlToOffscreen`). After that
the page only sends it render-only messages for that canvas. The page counts finished
renders and publishes the wave's time once the count reaches the number of canvases.

This project models that bookkeeping and proves properties of it:

- `Offscreen` (offscreen.js) is the page-side dispatcher, a class `Dispatcher` with these fields:
  - the pool (`workers`, `maxWorkers`);
  - the canvas-id to worker map (`canvasToWorker`);
  - the document as a `Page`: the visible canvases with their `data-offscreen-transferred`
    attribute, and the hidden offscreen canvases;
  - the counter `completed`, the button state, and the outbox of posted messages.
- `OffscreenWorker` (offscreenWorker.js) is the worker-side handler. `Handle` is a function of
  the worker's `canvasMap`. `RenderWorker` is a class whose `OnMessage` updates the map and
  returns the reply it posts, if any.
- `Protocol` holds the message types. It also defines a worker's inbox: the messages
  addressed to it, in the order they were posted.
- `Scenarios` drives one session through the `Dispatcher` contracts. It opens on a page holding six
  canvases with two workers, renders twice, then changes the worker count once and renders again.
  Every wave's results are delivered one by one through the result handler before the next click,
  because the button is disabled while a wave is outstanding.
- `Ids` holds the ordered id list `canvas1..canvasN` and the pairing of `canvasK` with
  `offscreenCanvasK`.

The main result is `Offscreen.NoRenderOnlyDropped`. The dispatcher's invariant
(`Dispatcher.Valid`, which includes `Consistent`) holds after every operation. While it
holds, a worker that handles its inbox in order, starting from its empty `canvasMap`, never
reaches the "No canvas found" path. That path is the one that drops a message and stalls
a wave. The proof relies on the id list having no repeated id (`Ids.CanvasIdsUnique`).
With a repeated id, the second occurrence may be reassigned to another worker before its
render-only message is sent.

Posting a message appends to `Dispatcher.outbox`. A result coming back is a call of
`Dispatcher.OnResult`, made by the environment in any order. `Offscreen.Finalizations`
counts how often such calls finalize a wave. The equality test that finalizes a wave is only in
the result handler (offscreen.js:116), never on the missing-canvas path (offscreen.js:88-92). So
when every canvas of a wave is missing, the counter reaches the number of canvases but the wave
is never finalized and the button stays disabled (`Offscreen.FinalizedOnce`).

## Model

| member | source | states |
|---|---|---|
| `Ids.NatToStringInjective` | script.js:19 | two different numbers never print as the same decimal text |
| `Ids.CanvasIdsUnique` | script.js:19 | `canvas1..canvasN` contains no id twice |
| `Ids.RemoveFirstAbsent` | offscreen.js:83 | `replace('canvas', '')` leaves an id without "canvas" unchanged |
| `Ids.RemoveFirstAt` | offscreen.js:83 | `replace('canvas', '')` cuts out exactly the first occurrence and keeps everything else |
| `Ids.NumberedTwinsDistinct` | script.js:38-46 | two different canvases of the list never share a hidden twin |
| `Ids.OffscreenIdOfCanvasId` | offscreen.js:83-84 | the hidden twin of `canvasK` is `offscreenCanvasK`, the id script.js:46 gives it |
| `Protocol.KnownIff` | offscreenWorker.js:22-25 | an id is known after a message sequence iff some initial-setup message in it carries that id |
| `OffscreenWorker.Handle` | offscreenWorker.js:16-49 | the known ids grow only by an initial-setup id; setup stores the canvas under its id, overwriting; reuse leaves the map unchanged; an unknown reuse id is reported and dropped; a reply is posted iff the entry exists and has a context, and then it carries the same id and the stored canvas's image; exactly one of reply or error |
| `OffscreenWorker.RunKeys` | offscreenWorker.js:10-25 | after any run, the ids in `canvasMap` are the initial ones plus every id transferred, so entries are never removed |
| `OffscreenWorker.NoMissIffPreceded` | offscreenWorker.js:27-31 | a fresh worker never hits "No canvas found" iff every reuse message it gets follows a setup message for the same id |
| `OffscreenWorker.RenderWorker.constructor` | offscreenWorker.js:10 | a worker starts with an empty `canvasMap` |
| `OffscreenWorker.RenderWorker.OnMessage` | offscreenWorker.js:16-49 | the new map and the returned reply are those of `Handle`; an error is logged exactly when no reply is posted; the renderer runs once, on the stored canvas, exactly when a reply is posted |
| `Offscreen.ClampWorkerCount` | offscreen.js:39-45 | the count lies in [1,16]; a request in [1,16] is kept, and only such a request; NaN or below 1 gives 1; above 16 gives 16 |
| `Offscreen.CanvasCount` | script.js:16-19 | `Math.max(6, parseInt(..))` as a length: NaN gives 0, a request below 6 gives 6, and a request of at least 6 is kept |
| `Offscreen.FreshPageFlags` | script.js:24-42 | the rebuilt page shows exactly `canvas1..canvasN`, none of them carrying the attribute |
| `Offscreen.FreshPageTwinKeys` | script.js:29-50 | the hidden canvases of the rebuilt page are exactly the twins of the listed canvases; no older hidden canvas remains |
| `Offscreen.FreshPageTwinSurfaces` | script.js:44-50 | the twin of the k-th canvas holds the k-th new surface, which has a 2d context |
| `Offscreen.FreshPageHandles` | script.js:44-50 | every surface of the rebuilt page is one of the N surfaces created by the rebuild |
| `Offscreen.FreshPageIsNew` | script.js:29-50 | no hidden canvas of the rebuilt page holds a surface that an earlier hidden canvas held, since every `createElement` gives a new canvas |
| `Offscreen.PlannedCount` | offscreen.js:80-92 | in a wave every canvas is either sent exactly one message or counted as missing |
| `Offscreen.PlannedAllPresent` | offscreen.js:94-99 | when every surface exists, message i is for canvas i and comes from worker `i % MAX_WORKERS` |
| `Offscreen.PlannedAllTransfer` | offscreen.js:129-141 | when no canvas carries the attribute (after a resize or a page rebuild), every message of the wave is a transfer to a pool worker |
| `Offscreen.PlannedAllRenderOnly` | offscreen.js:142-149 | when every present canvas carries the attribute (after one wave), every message of the wave is render-only |
| `Offscreen.FinalizedOnce` | offscreen.js:115-126 | starting from `start` completions, results finalize exactly once if they carry the counter from below the canvas count up to it, and otherwise never; so a wave whose canvases are all missing is never finalized |
| `Offscreen.WaveFinalizedOnce` | offscreen.js:80-127 | when every message of a wave is answered, the wave is finalized exactly once if it sent any message, and never if every canvas was missing |
| `Offscreen.WaveDone` | offscreen.js:80-150 | once the callback has run for every id, the flags and map entries of canvases outside the wave are as before, and the map holds exactly the earlier entries plus every present canvas of the wave |
| `Offscreen.WaveStep` | offscreen.js:80-150 | one callback run extends the wave's progress (messages, missing ids, counter, flags, map entries) by the next canvas |
| `Offscreen.TransferKeepsConsistent` | offscreen.js:95-99 | transferring a canvas to the worker its position selects, then flagging it, keeps the ownership bookkeeping |
| `Offscreen.RenderOnlyKeepsConsistent` | offscreen.js:142-149 | a render-only message for a flagged canvas goes to the worker that received its transfer |
| `Offscreen.UnflaggedKeepsConsistent` | script.js:24-42 | a page on which no canvas carries the attribute keeps the ownership bookkeeping, whatever the id list, so rebuilding the canvases cannot break it |
| `Offscreen.NoRenderOnlyDropped` | offscreen.js:130-149 | while the bookkeeping holds, no worker processing its inbox in order drops a render-only message |
| `Offscreen.Dispatcher.constructor` | offscreen.js:7-31 | the initial ids are `canvas1..canvas6`; no canvas carries the attribute; the pool has `DEFAULT_WORKERS` fresh workers; the map is empty; the counter is 0; the button is enabled; the surfaces created later are numbered from `firstSurface`, above every surface the page starts with |
| `Offscreen.Dispatcher.InitializeWorkers` | offscreen.js:15-28 | every previous worker is terminated and dropped; the pool is exactly `count` newly created workers |
| `Offscreen.Dispatcher.Resize` | offscreen.js:38-60 | `MAX_WORKERS` is the clamped count; the pool is rebuilt with new workers only; `canvasToWorker` is empty; the attribute is removed from every listed canvas and from no other |
| `Offscreen.Dispatcher.UpdateCanvasCount` | script.js:15-51 | the id list is `canvas1..canvasN`; the document is exactly `FreshPage`: those canvases, none carrying the attribute, each with a hidden twin holding a new surface with a 2d context, and nothing else; no new twin holds a surface any earlier hidden canvas held; the surface counter advances by N; the drawn images are cleared |
| `Offscreen.Dispatcher.UpdateWorkerCount` | offscreen.js:34-64 | the full worker-count handler, resize followed by the canvas rebuild: the new pool, an empty map and the rebuilt document, whose surfaces are all new, so the next wave transfers every canvas again; the outbox, the counter, the button, the publications and the error log are left as they were |
| `Offscreen.Dispatcher.RenderWithWorkers` | offscreen.js:70-150 | a click reaches the handler only while the button is enabled; the button is then disabled; the counter equals the number of missing canvases; the messages are exactly `Planned`; every present canvas is flagged and mapped to worker `i % MAX_WORKERS`; other flags and entries are unchanged; the bookkeeping invariant is kept |
| `Offscreen.Dispatcher.DispatchCanvas` | offscreen.js:80-150 | a missing surface is reported and counted, with nothing sent or recorded; otherwise the map entry is recorded first, then a transfer is sent and the canvas flagged iff it lacked the attribute, else a render-only message is sent |
| `Offscreen.Dispatcher.OnResult` | offscreen.js:102-127 | the bitmap replaces the visible canvas's image if that canvas exists; the counter grows by one; the time is published and the button re-enabled exactly when the counter equals the number of listed canvases |
| `Scenarios.FreshWave` | offscreen.js:94-141 | on a page where every canvas exists without the attribute, a wave transfers canvas i, and only it, to worker i mod pool size |
| `Scenarios.ReuseWave` | offscreen.js:94-149 | on a page where every canvas exists with the attribute, message i is a render-only message for canvas i to worker i mod pool size |
| `Scenarios.Open` | offscreen.js:7-31 | script load on a page holding `canvas1..canvas6` and their twins: every canvas exists, none carries the attribute, and the pool is the default two workers; the button is enabled |
| `Scenarios.ResizeTo` | offscreen.js:34-64 | after the worker-count handler the pool is `count` new workers and all six canvases exist without the attribute; the button is left as it was |
| `Scenarios.TransferAll` | offscreen.js:70-150 | a click while no canvas carries the attribute transfers canvas i to worker i mod pool size and leaves every canvas flagged; once every message is answered the button is enabled again |
| `Scenarios.RenderAgain` | offscreen.js:70-150 | a second click sends one render-only message per canvas, to the same worker as before, and leaves the pool and the id list unchanged; once every message is answered the button is enabled again |
| `Scenarios.SessionWaves` | offscreen.js:94-149 | in the session, the second wave reuses each surface at the worker that received it, and the third wave uses none of the first pool's workers |
| `Scenarios.TwoWavesThenResize` | offscreen.js:34-150 | six canvases and two workers, each wave answered before the next click: the first wave transfers each canvas, alternating workers; the second only reuses surfaces at the same worker; after a resize, the third transfers every canvas again, to new workers |
| `Scenarios.DeliverResults` | offscreen.js:102-127 | results handled one after another advance the counter by one each and finalize the wave exactly as often as `Finalizations` says; the button, once re-enabled, stays enabled |
| `Scenarios.AnsweredWave` | offscreen.js:70-127 | a click on the enabled button sends exactly the `Planned` messages and flags every present canvas; one answer per message sent then finalizes the wave exactly once, and re-enables the button, iff anything was sent |

## Left out

- Drawing (renderer.js) is an opaque step. The worker records which surface it rendered on. The
  grid, the random font and text choice and the busy-wait are not modelled.
- Clocks and formatting are not modelled: `performance.now`, the published times, `toFixed`, and
  the `sync_time` field. Finalizing is modelled as a counter of publications plus the button flag.
- Text parsing is not modelled: `parseInt` of the input fields. The model takes its result, with
  None standing for NaN. Writing '1' or '16' back into the worker-count field is a DOM effect and
  is left out too.
- Real workers, `postMessage` delivery, structured cloning and concurrency are not modelled.
  Workers are numbered handles, sending is an append to the outbox, and each worker's inbox is
  delivered in posting order.
- `worker.onmessage` is reassigned for every canvas. Every handler assigned behaves the same, so
  they are modelled as the single method `OnResult`.
- `transferControlToOffscreen` may be called only once per canvas; a second call throws. The model
  does not capture this. After a resize, the handler's call to `updateCanvasCount` recreates every
  canvas before the next wave.
- `updateCanvasCount` gives each new hidden canvas a fresh surface handle with a 2d context. The
  DOM calls themselves (element creation, styles, sizes, the container lookup) are left out.
  A length too large for `Array.from`, which throws, is not modelled.
- `console.log` and `console.error` messages are recorded only as which id or which error was
  reported.
- server.js (static file server) is not part of this model, and neither is the HTML page. The
  canvases the page starts with are a parameter of the `Dispatcher` constructor.
- The code has none of the following guards, and the model follows the code:
  - a canvas's worker is re-recorded on every wave (offscreen.js:99), not fixed at first dispatch;
  - results are never tagged with a wave, and a resize does not reset the counter;
  - the counter may pass the number of canvases;
  - the wave handler has no guard of its own against a second wave: the disabled button
    (offscreen.js:73) is the only one, and it is lifted when the counter equals the number of
    canvases (offscreen.js:116-125). The model states this as the precondition of
    `Offscreen.Dispatcher.RenderWithWorkers` that the button is enabled.
- `Offscreen.Dispatcher.OnResult` accepts any reply at any time. That over-approximates what can
  arrive: `worker.terminate()` (offscreen.js:19) discards the results a terminated worker has not yet
  delivered, and no reply arrives for a message never sent. So the model does not show that a resize
  clicked during a wave leaves `completedRenders` short of the canvas count, which keeps the render
  button disabled for good.
- The images in the replies of `Scenarios.AnsweredWave` are arbitrary. Only a reply's canvas id is
  taken from the message it answers, and only the count of replies matters to finalizing.
