/**
 * The page-side dispatcher of offscreen.js: a pool of render workers, the canvas-id to worker
 * map, the per-canvas "already transferred" attribute and the counter of finished renders.
 *
 * The document is abstracted as a `Page`: the visible canvases that exist (with their
 * `data-offscreen-transferred` attribute) and the hidden offscreen canvases that exist (with
 * the surface `transferControlToOffscreen` yields for them). Posting to a worker appends an
 * envelope to `outbox`; a result arriving from a worker is a call of `OnResult`, in any order
 * the environment chooses.
 */
module Offscreen {
  import opened Ids
  import opened Protocol
  import OffscreenWorker

  const DefaultWorkers: nat := 2
  const InitialCanvasCount: nat := 6
  const RandomText: seq<string> :=
    ["Apple", "Banana", "Cherry", "Dragon", "Elder", "Figgy", "Grape", "Honey", "Indigo", "Joker"]

  /**
   * Validation of the requested worker count; `requested` is the result of `parseInt`, None
   * standing for NaN.
   */
  function ClampWorkerCount(requested: Option<int>): (n: nat)
    ensures 1 <= n <= 16
    // a request inside [1, 16] is kept as it is, and only such a request is
    ensures (requested.Some? && 1 <= requested.value <= 16) <==> requested == Some(n)
    ensures requested.None? || requested.value < 1 ==> n == 1
    ensures requested.Some? && requested.value > 16 ==> n == 16
  {
    if requested.None? || requested.value < 1 then 1
    else if requested.value > 16 then 16
    else requested.value
  }

  /** `Math.max(6, parseInt(value))` used as a length: NaN gives no canvas at all. */
  function CanvasCount(requested: Option<int>): (n: nat)
    ensures requested.None? <==> n == 0
    ensures requested.Some? && requested.value < InitialCanvasCount ==> n == InitialCanvasCount
    ensures requested.Some? && requested.value >= InitialCanvasCount ==> n == requested.value
  {
    if requested.None? then 0
    else if requested.value < InitialCanvasCount then InitialCanvasCount
    else requested.value
  }

  /** The workers a pool of `count` creates after `first` handles were already used. */
  function NewWorkers(first: nat, count: nat): seq<WorkerId>
  {
    seq(count, k requires 0 <= k < count => first + k)
  }

  /**
   * The part of the document the dispatcher touches. `flags` has a key for every visible
   * canvas; its value is whether the canvas carries `data-offscreen-transferred`. `offscreen`
   * has a key for every hidden canvas.
   */
  datatype Page = Page(flags: map<CanvasId, bool>, offscreen: map<CanvasId, Surface>)

  /**
   * The document `updateCanvasCount` leaves: `canvas1..canvas<count>`, none carrying the
   * attribute, each with a hidden twin `offscreenCanvas<k>` holding a new surface (handles
   * numbered from `first`) whose 2d context exists.
   */
  function FreshPage(count: nat, first: nat): Page
  {
    if count == 0 then Page(map[], map[])
    else
      var p := FreshPage(count - 1, first);
      var surface := Surface(first + count - 1, Some(first + count - 1));
      Page(p.flags[NumberedId(count) := false], p.offscreen["offscreenCanvas" + NatToString(count) := surface])
  }

  /** The rebuilt page shows exactly the listed canvases, none of them carrying the attribute. */
  lemma {:induction false} FreshPageFlags(count: nat, first: nat)
    ensures forall id :: id in FreshPage(count, first).flags <==> id in CanvasIds(count)
    ensures forall id :: id in FreshPage(count, first).flags ==> !FreshPage(count, first).flags[id]
  {
    if count > 0 {
      FreshPageFlags(count - 1, first);
      assert CanvasIds(count) == CanvasIds(count - 1) + [NumberedId(count)];
    }
  }

  /** The hidden canvases of the rebuilt page are exactly the twins of the listed ones. */
  lemma {:induction false} FreshPageTwinKeys(count: nat, first: nat)
    ensures FreshPage(count, first).offscreen.Keys == set id | id in CanvasIds(count) :: OffscreenId(id)
  {
    if count > 0 {
      FreshPageTwinKeys(count - 1, first);
      OffscreenIdOfCanvasId(count);
      assert CanvasIds(count) == CanvasIds(count - 1) + [NumberedId(count)];
      assert (set id | id in CanvasIds(count) :: OffscreenId(id))
          == (set id | id in CanvasIds(count - 1) :: OffscreenId(id)) + {OffscreenId(NumberedId(count))};
    }
  }

  /** Every surface of the rebuilt page is new: its handle lies in `first .. first + count - 1`. */
  lemma {:induction false} FreshPageHandles(count: nat, first: nat)
    ensures forall id :: id in FreshPage(count, first).offscreen ==>
      first <= FreshPage(count, first).offscreen[id].handle < first + count
  {
    if count > 0 {
      FreshPageHandles(count - 1, first);
    }
  }

  /** No surface of the rebuilt page is one that a page with handles below `first` already held. */
  lemma FreshPageIsNew(count: nat, first: nat, previous: map<CanvasId, Surface>)
    requires HandlesBelow(previous, first)
    ensures HandlesBelow(FreshPage(count, first).offscreen, first + count)
    ensures forall id :: id in FreshPage(count, first).offscreen ==> FreshPage(count, first).offscreen[id] !in previous.Values
  {
    FreshPageHandles(count, first);
  }

  /** The twin of the k-th listed canvas holds the k-th new surface, and it has a context. */
  lemma {:induction false} FreshPageTwinSurfaces(count: nat, first: nat)
    ensures forall i :: 0 <= i < count ==>
      OffscreenId(CanvasIds(count)[i]) in FreshPage(count, first).offscreen &&
      FreshPage(count, first).offscreen[OffscreenId(CanvasIds(count)[i])] == Surface(first + i, Some(first + i))
  {
    if count > 0 {
      FreshPageTwinSurfaces(count - 1, first);
      OffscreenIdOfCanvasId(count);
      forall i | 0 <= i < count
        ensures OffscreenId(CanvasIds(count)[i]) in FreshPage(count, first).offscreen &&
                FreshPage(count, first).offscreen[OffscreenId(CanvasIds(count)[i])] == Surface(first + i, Some(first + i))
      {
        assert CanvasIds(count)[i] == NumberedId(i + 1);
        if i < count - 1 {
          assert CanvasIds(count - 1)[i] == NumberedId(i + 1);
          NumberedTwinsDistinct(i + 1, count);
        }
      }
    }
  }

  /** Every surface in `offscreen` was created before the `next`-th one. */
  predicate HandlesBelow(offscreen: map<CanvasId, Surface>, next: nat)
  {
    forall id :: id in offscreen ==> offscreen[id].handle < next
  }

  /** Both the visible canvas and its hidden twin exist. */
  predicate Present(page: Page, id: CanvasId)
  {
    id in page.flags && OffscreenId(id) in page.offscreen
  }

  /** The message a present canvas gets from the worker `w`, decided by its attribute. */
  function Job(page: Page, id: CanvasId, w: WorkerId): Envelope
    requires Present(page, id)
  {
    if page.flags[id] then Envelope(w, RenderOnly(id, RandomText))
    else Envelope(w, Transfer(id, page.offscreen[OffscreenId(id)], RandomText))
  }

  /**
   * Reference definition of a wave's messages over the first `k` canvas ids: one job per
   * present canvas, in list order, the canvas at position i going to worker i mod pool size.
   */
  function Planned(ids: seq<CanvasId>, k: nat, page: Page, workers: seq<WorkerId>): seq<Envelope>
    requires k <= |ids| && |workers| >= 1
  {
    if k == 0 then []
    else
      Planned(ids, k - 1, page, workers)
      + (if Present(page, ids[k - 1]) then [Job(page, ids[k - 1], workers[(k - 1) % |workers|])] else [])
  }

  /** The ids among the first `k` whose visible canvas or hidden twin is missing, in order. */
  function MissingIds(ids: seq<CanvasId>, k: nat, page: Page): seq<CanvasId>
    requires k <= |ids|
  {
    if k == 0 then []
    else MissingIds(ids, k - 1, page) + (if Present(page, ids[k - 1]) then [] else [ids[k - 1]])
  }

  /** Every canvas of the wave is either sent exactly one message or counted as missing. */
  lemma {:induction false} PlannedCount(ids: seq<CanvasId>, k: nat, page: Page, workers: seq<WorkerId>)
    requires k <= |ids| && |workers| >= 1
    ensures |Planned(ids, k, page, workers)| + |MissingIds(ids, k, page)| == k
  {
    if k > 0 {
      PlannedCount(ids, k - 1, page, workers);
    }
  }

  /**
   * When every surface exists, the j-th message goes to canvas j, from worker j mod pool size
   * (with two workers and six canvases: positions 0, 2, 4 and 1, 3, 5).
   */
  lemma {:induction false} PlannedAllPresent(ids: seq<CanvasId>, k: nat, page: Page, workers: seq<WorkerId>)
    requires k <= |ids| && |workers| >= 1
    requires forall i :: 0 <= i < k ==> Present(page, ids[i])
    ensures |Planned(ids, k, page, workers)| == k
    ensures forall i :: 0 <= i < k ==> Planned(ids, k, page, workers)[i] == Job(page, ids[i], workers[i % |workers|])
  {
    if k > 0 {
      PlannedAllPresent(ids, k - 1, page, workers);
    }
  }

  /** With no canvas carrying the attribute (a fresh page, or right after a resize), every message is a transfer. */
  lemma {:induction false} PlannedAllTransfer(ids: seq<CanvasId>, k: nat, page: Page, workers: seq<WorkerId>)
    requires k <= |ids| && |workers| >= 1
    requires forall id :: id in page.flags ==> !page.flags[id]
    ensures forall e :: e in Planned(ids, k, page, workers) ==> e.msg.Transfer? && e.worker in workers
  {
    if k > 0 {
      PlannedAllTransfer(ids, k - 1, page, workers);
      var prev, p := Planned(ids, k - 1, page, workers), Planned(ids, k, page, workers);
      assert forall j :: 0 <= j < |prev| ==> p[j] == prev[j];
      if Present(page, ids[k - 1]) {
        var w := workers[(k - 1) % |workers|];
        assert w in workers;
        assert p == prev + [Job(page, ids[k - 1], w)];
        assert p[|prev|] == Job(page, ids[k - 1], w);
      } else {
        assert p == prev;
      }
    }
  }

  /** Once every present canvas carries the attribute (after one wave), every message is render-only. */
  lemma {:induction false} PlannedAllRenderOnly(ids: seq<CanvasId>, k: nat, page: Page, workers: seq<WorkerId>)
    requires k <= |ids| && |workers| >= 1
    requires forall i :: 0 <= i < k && Present(page, ids[i]) ==> page.flags[ids[i]]
    ensures forall e :: e in Planned(ids, k, page, workers) ==> e.msg.RenderOnly? && e.worker in workers
  {
    if k > 0 {
      PlannedAllRenderOnly(ids, k - 1, page, workers);
      var prev, p := Planned(ids, k - 1, page, workers), Planned(ids, k, page, workers);
      assert forall j :: 0 <= j < |prev| ==> p[j] == prev[j];
      if Present(page, ids[k - 1]) {
        var w := workers[(k - 1) % |workers|];
        assert w in workers;
        assert p == prev + [Job(page, ids[k - 1], w)];
        assert p[|prev|] == Job(page, ids[k - 1], w);
      } else {
        assert p == prev;
      }
    }
  }

  /**
   * The number of the next `results` arrivals, counted from `start` completions, at which the
   * counter equals `expected`: the number of times the wave is finalized.
   */
  function Finalizations(start: nat, expected: nat, results: nat): nat
  {
    if results == 0 then 0
    else Finalizations(start, expected, results - 1) + (if start + results == expected then 1 else 0)
  }

  /**
   * A wave is finalized once when the results carry the counter from below `expected` up to
   * it, and never otherwise: not when the missing canvases alone already reached it, not when
   * a result is lost.
   */
  lemma {:induction false} FinalizedOnce(start: nat, expected: nat, results: nat)
    ensures Finalizations(start, expected, results) == if start < expected <= start + results then 1 else 0
  {
    if results > 0 {
      FinalizedOnce(start, expected, results - 1);
    }
  }

  /**
   * A wave over `ids` in which every message sent is answered: the counter starts at the
   * number of missing canvases, and the answers finalize the wave exactly once, unless no
   * message was sent at all, in which case it is never finalized.
   */
  lemma WaveFinalizedOnce(ids: seq<CanvasId>, page: Page, workers: seq<WorkerId>)
    requires |workers| >= 1
    ensures var sent := |Planned(ids, |ids|, page, workers)|;
      Finalizations(|MissingIds(ids, |ids|, page)|, |ids|, sent) == if sent > 0 then 1 else 0
  {
    PlannedCount(ids, |ids|, page, workers);
    FinalizedOnce(|MissingIds(ids, |ids|, page)|, |ids|, |Planned(ids, |ids|, page, workers)|);
  }

  /**
   * One run of the `forEach` callback on the canvas at position `index`, as a relation between
   * the state before (`page`, `assignment`, `outbox`, `errors`, `completed`) and after it.
   */
  ghost predicate CanvasStep(ids: seq<CanvasId>, index: nat, workers: seq<WorkerId>,
                             page: Page, assignment: map<CanvasId, WorkerId>, outbox: seq<Envelope>,
                             errors: seq<CanvasId>, completed: nat,
                             page': Page, assignment': map<CanvasId, WorkerId>, outbox': seq<Envelope>,
                             errors': seq<CanvasId>, completed': nat)
    requires index < |ids| && |workers| >= 1
  {
    var id, w := ids[index], workers[index % |workers|];
    if !Present(page, id) then
      && completed' == completed + 1 && errors' == errors + [id]
      && outbox' == outbox && assignment' == assignment && page' == page
    else
      && completed' == completed && errors' == errors
      && assignment' == assignment[id := w]
      && outbox' == outbox + [Job(page, id, w)]
      && page' == page.(flags := page.flags[id := true])
  }

  /**
   * What a wave has done after the first `i` canvases, starting from `page0`, `assignment0`,
   * `outbox0` and `errors0` with the counter reset.
   */
  ghost predicate WaveProgress(ids: seq<CanvasId>, i: nat, workers: seq<WorkerId>,
                               page0: Page, assignment0: map<CanvasId, WorkerId>, outbox0: seq<Envelope>,
                               errors0: seq<CanvasId>,
                               page: Page, assignment: map<CanvasId, WorkerId>, outbox: seq<Envelope>,
                               errors: seq<CanvasId>, completed: nat)
    requires i <= |ids| && |workers| >= 1
  {
    && completed == |MissingIds(ids, i, page0)|
    && errors == errors0 + MissingIds(ids, i, page0)
    && outbox == outbox0 + Planned(ids, i, page0, workers)
    && page.offscreen == page0.offscreen && page.flags.Keys == page0.flags.Keys
    && (forall j :: 0 <= j < i && Present(page0, ids[j]) ==>
          page.flags[ids[j]] && ids[j] in assignment && assignment[ids[j]] == workers[j % |workers|])
    && (forall id :: id in page0.flags && !(id in ids[..i] && Present(page0, id)) ==>
          page.flags[id] == page0.flags[id])
    && (forall id :: id in assignment <==> id in assignment0 || (id in ids[..i] && Present(page0, id)))
    && (forall id :: id in assignment0 && !(id in ids[..i] && Present(page0, id)) ==>
          assignment[id] == assignment0[id])
  }

  /** Progress over the whole list: every listed canvas has been handled. */
  lemma WaveDone(ids: seq<CanvasId>, workers: seq<WorkerId>,
                 page0: Page, assignment0: map<CanvasId, WorkerId>, outbox0: seq<Envelope>, errors0: seq<CanvasId>,
                 page: Page, assignment: map<CanvasId, WorkerId>, outbox: seq<Envelope>,
                 errors: seq<CanvasId>, completed: nat)
    requires |workers| >= 1
    requires WaveProgress(ids, |ids|, workers, page0, assignment0, outbox0, errors0, page, assignment, outbox, errors, completed)
    ensures forall id :: id in page0.flags && !(id in ids && Present(page0, id)) ==> page.flags[id] == page0.flags[id]
    ensures forall id :: id in assignment <==> id in assignment0 || (id in ids && Present(page0, id))
    ensures forall id :: id in assignment0 && !(id in ids && Present(page0, id)) ==> assignment[id] == assignment0[id]
  {
    assert ids[..|ids|] == ids;
  }

  /** Each callback run extends the wave's progress by one canvas (the ids being distinct). */
  lemma WaveStep(ids: seq<CanvasId>, i: nat, workers: seq<WorkerId>,
                 page0: Page, assignment0: map<CanvasId, WorkerId>, outbox0: seq<Envelope>, errors0: seq<CanvasId>,
                 page: Page, assignment: map<CanvasId, WorkerId>, outbox: seq<Envelope>,
                 errors: seq<CanvasId>, completed: nat,
                 page': Page, assignment': map<CanvasId, WorkerId>, outbox': seq<Envelope>,
                 errors': seq<CanvasId>, completed': nat)
    requires Unique(ids) && i < |ids| && |workers| >= 1
    requires WaveProgress(ids, i, workers, page0, assignment0, outbox0, errors0, page, assignment, outbox, errors, completed)
    requires CanvasStep(ids, i, workers, page, assignment, outbox, errors, completed,
                        page', assignment', outbox', errors', completed')
    ensures WaveProgress(ids, i + 1, workers, page0, assignment0, outbox0, errors0,
                         page', assignment', outbox', errors', completed')
  {
  }

  /**
   * The ownership bookkeeping the dispatcher keeps: a canvas carrying the attribute is in the
   * id list and mapped to the worker its position selects, and that worker has been sent the
   * transfer of it; and no worker has been sent a render-only message before the transfer of
   * the same canvas.
   */
  ghost predicate Consistent(ids: seq<CanvasId>, page: Page, assignment: map<CanvasId, WorkerId>,
                             workers: seq<WorkerId>, outbox: seq<Envelope>)
    requires |workers| >= 1
  {
    && (forall id :: id in page.flags && page.flags[id] ==>
          id in ids && id in assignment && id in Known(Inbox(outbox, assignment[id])))
    && (forall i :: 0 <= i < |ids| && ids[i] in page.flags && page.flags[ids[i]] ==>
          ids[i] in assignment && assignment[ids[i]] == workers[i % |workers|])
    && (forall w :: Preceded(Inbox(outbox, w)))
  }

  /** A page on which no canvas carries the attribute keeps the bookkeeping, whatever the id list. */
  lemma UnflaggedKeepsConsistent(ids: seq<CanvasId>, page: Page, ids': seq<CanvasId>, page': Page,
                                 assignment: map<CanvasId, WorkerId>, workers: seq<WorkerId>, outbox: seq<Envelope>)
    requires |workers| >= 1 && Consistent(ids, page, assignment, workers, outbox)
    requires forall id :: id in page'.flags ==> !page'.flags[id]
    ensures Consistent(ids', page', assignment, workers, outbox)
  {
  }

  /** Sending the transfer of the canvas at position i to its worker, and flagging it, keeps the bookkeeping. */
  lemma TransferKeepsConsistent(ids: seq<CanvasId>, page: Page, assignment: map<CanvasId, WorkerId>,
                                workers: seq<WorkerId>, outbox: seq<Envelope>, i: nat, canvas: Surface, text: seq<string>)
    requires |workers| >= 1 && Unique(ids) && i < |ids|
    requires Consistent(ids, page, assignment, workers, outbox)
    requires ids[i] in page.flags
    ensures var id, w := ids[i], workers[i % |workers|];
      Consistent(ids, page.(flags := page.flags[id := true]), assignment[id := w], workers,
                 outbox + [Envelope(w, Transfer(id, canvas, text))])
  {
    var id, w := ids[i], workers[i % |workers|];
    var e := Envelope(w, Transfer(id, canvas, text));
    var page', assignment', outbox' := page.(flags := page.flags[id := true]), assignment[id := w], outbox + [e];
    forall v: WorkerId ensures Preceded(Inbox(outbox', v)) && Known(Inbox(outbox, v)) <= Known(Inbox(outbox', v)) {
      InboxAppend(outbox, e, v);
      if v == w {
        PrecededAppend(Inbox(outbox, v), e.msg);
        KnownAppend(Inbox(outbox, v), e.msg);
      } else {
        assert Inbox(outbox', v) == Inbox(outbox, v);
      }
    }
    assert id in Known(Inbox(outbox', w)) by {
      InboxAppend(outbox, e, w);
      KnownAppend(Inbox(outbox, w), e.msg);
    }
    forall j | 0 <= j < |ids| && ids[j] in page'.flags && page'.flags[ids[j]]
      ensures ids[j] in assignment' && assignment'[ids[j]] == workers[j % |workers|]
    {
      if ids[j] == id {
        assert j == i;
      }
    }
  }

  /**
   * Sending a render-only message for a flagged canvas at position i to its worker keeps the
   * bookkeeping: that worker is the one the transfer went to.
   */
  lemma RenderOnlyKeepsConsistent(ids: seq<CanvasId>, page: Page, assignment: map<CanvasId, WorkerId>,
                                  workers: seq<WorkerId>, outbox: seq<Envelope>, i: nat, text: seq<string>)
    requires |workers| >= 1 && i < |ids|
    requires Consistent(ids, page, assignment, workers, outbox)
    requires ids[i] in page.flags && page.flags[ids[i]]
    ensures var id, w := ids[i], workers[i % |workers|];
      Consistent(ids, page, assignment[id := w], workers, outbox + [Envelope(w, RenderOnly(id, text))])
  {
    var id, w := ids[i], workers[i % |workers|];
    var e := Envelope(w, RenderOnly(id, text));
    var outbox' := outbox + [e];
    assert assignment[id := w] == assignment;
    forall v: WorkerId ensures Preceded(Inbox(outbox', v)) && Known(Inbox(outbox, v)) <= Known(Inbox(outbox', v)) {
      InboxAppend(outbox, e, v);
      if v == w {
        PrecededAppend(Inbox(outbox, v), e.msg);
        KnownAppend(Inbox(outbox, v), e.msg);
      } else {
        assert Inbox(outbox', v) == Inbox(outbox, v);
      }
    }
  }

  /**
   * The ownership guarantee: while the bookkeeping holds, a worker that handles its messages
   * in the order posted, starting from its empty `canvasMap`, never drops a render-only message
   * with "No canvas found" (the stall of a wave that never reaches its count).
   */
  lemma NoRenderOnlyDropped(ids: seq<CanvasId>, page: Page, assignment: map<CanvasId, WorkerId>,
                            workers: seq<WorkerId>, outbox: seq<Envelope>, w: WorkerId)
    requires |workers| >= 1 && Consistent(ids, page, assignment, workers, outbox)
    ensures OffscreenWorker.NoMiss(map[], Inbox(outbox, w))
  {
    OffscreenWorker.NoMissIffPreceded(Inbox(outbox, w));
  }

  /** The page's module state and the document it drives. */
  class Dispatcher {
    var maxWorkers: nat                       // MAX_WORKERS
    var workers: seq<WorkerId>                // the pool
    var nextWorker: WorkerId                  // handles used so far by `new Worker`
    var terminated: set<WorkerId>             // workers `terminate()` was called on
    var canvasToWorker: map<CanvasId, WorkerId>
    var canvasIds: seq<CanvasId>
    var page: Page
    var nextSurface: nat                      // handles used so far for created offscreen canvases
    var display: map<CanvasId, Bitmap>        // the image last drawn onto each visible canvas
    var completed: nat                        // completedRenders
    var buttonDisabled: bool                  // workerRenderButton.disabled
    var finalized: nat                        // how often the wave time was published
    var errors: seq<CanvasId>                 // ids reported with a missing canvas
    var outbox: seq<Envelope>                 // every message posted, in order

    ghost predicate Valid()
      reads this`maxWorkers, this`workers, this`nextWorker, this`terminated, this`outbox
      reads this`canvasIds, this`page, this`nextSurface, this`canvasToWorker
    {
      && 1 <= maxWorkers <= 16
      && |workers| == maxWorkers
      && (forall k :: 0 <= k < |workers| ==> workers[k] < nextWorker && workers[k] !in terminated)
      && (forall w :: w in terminated ==> w < nextWorker)
      && (forall k :: 0 <= k < |outbox| ==> outbox[k].worker < nextWorker)
      && HandlesBelow(page.offscreen, nextSurface)
      && Unique(canvasIds)
      && Consistent(canvasIds, page, canvasToWorker, workers, outbox)
    }

    /**
     * Script load: the ids `canvas1..canvas6`, the canvases the document starts with (none
     * carrying the attribute) and a pool of the default size.
     */
    constructor (visible: set<CanvasId>, offscreen: map<CanvasId, Surface>, firstSurface: nat)
      requires HandlesBelow(offscreen, firstSurface)
      ensures Valid()
      ensures nextSurface == firstSurface
      ensures maxWorkers == DefaultWorkers && workers == NewWorkers(0, DefaultWorkers) && terminated == {}
      ensures canvasIds == CanvasIds(InitialCanvasCount)
      ensures page.flags.Keys == visible && page.offscreen == offscreen
      ensures forall id :: id in page.flags ==> !page.flags[id]
      ensures canvasToWorker == map[] && outbox == [] && display == map[] && errors == []
      ensures completed == 0 && finalized == 0 && !buttonDisabled
    {
      maxWorkers := DefaultWorkers;
      workers := [];
      nextWorker := 0;
      terminated := {};
      canvasToWorker := map[];
      canvasIds := CanvasIds(InitialCanvasCount);
      page := Page(map id | id in visible :: false, offscreen);
      nextSurface := firstSurface;
      display := map[];
      completed := 0;
      buttonDisabled := false;
      finalized := 0;
      errors := [];
      outbox := [];
      new;
      InitializeWorkers(maxWorkers);
      CanvasIdsUnique(InitialCanvasCount);
    }

    /** `initializeWorkers(count)`: terminate and drop every pooled worker, then create `count` new ones. */
    method InitializeWorkers(count: nat)
      modifies this`workers, this`nextWorker, this`terminated
      ensures workers == NewWorkers(old(nextWorker), count)
      ensures nextWorker == old(nextWorker) + count
      ensures terminated == old(terminated) + (set w | w in old(workers))
    {
      while |workers| > 0
        modifies this`workers, this`terminated
        invariant workers == old(workers)[..|workers|]
        invariant terminated == old(terminated) + (set w | w in old(workers)[|workers|..])
        invariant nextWorker == old(nextWorker)
      {
        var worker := workers[|workers| - 1];
        workers := workers[..|workers| - 1];
        terminated := terminated + {worker};
      }
      assert old(workers)[0..] == old(workers);
      for i := 0 to count
        modifies this`workers, this`nextWorker
        invariant workers == NewWorkers(old(nextWorker), i)
        invariant nextWorker == old(nextWorker) + i
      {
        workers := workers + [nextWorker];
        nextWorker := nextWorker + 1;
      }
    }

    /**
     * Lines 38-60 of the worker-count handler: clamp the request, rebuild the pool, forget every
     * assignment and remove the attribute from every listed canvas.
     */
    method Resize(requested: Option<int>)
      requires Valid()
      modifies this`maxWorkers, this`workers, this`nextWorker, this`terminated, this`canvasToWorker, this`page
      ensures Valid()
      ensures maxWorkers == ClampWorkerCount(requested)
      ensures workers == NewWorkers(old(nextWorker), maxWorkers) && nextWorker == old(nextWorker) + maxWorkers
      ensures terminated == old(terminated) + (set w | w in old(workers))
      ensures forall k :: 0 <= k < |workers| ==> workers[k] !in old(workers)
      ensures canvasToWorker == map[]
      ensures page.offscreen == old(page.offscreen) && page.flags.Keys == old(page.flags).Keys
      ensures forall id :: id in page.flags ==> page.flags[id] == (old(page.flags[id]) && id !in canvasIds)
      ensures forall id :: id in page.flags ==> !page.flags[id]
    {
      maxWorkers := ClampWorkerCount(requested);
      InitializeWorkers(maxWorkers);
      canvasToWorker := map[];
      for i := 0 to |canvasIds|
        modifies this`page
        invariant page.offscreen == old(page.offscreen) && page.flags.Keys == old(page.flags).Keys
        invariant forall id :: id in page.flags ==> page.flags[id] == (old(page.flags[id]) && id !in canvasIds[..i])
      {
        var id := canvasIds[i];
        if id in page.flags {
          page := page.(flags := page.flags[id := false]);
        }
      }
      assert canvasIds[..|canvasIds|] == canvasIds;
    }

    /**
     * `updateCanvasCount` (script.js), called at the end of the worker-count handler: every
     * canvas is removed and `canvas1..canvasN` are created afresh with their hidden twins.
     */
    method UpdateCanvasCount(requested: Option<int>)
      requires Valid()
      modifies this`canvasIds, this`page, this`display, this`nextSurface
      ensures Valid()
      ensures canvasIds == CanvasIds(CanvasCount(requested))
      ensures forall id :: id in page.flags <==> id in canvasIds
      ensures forall id :: id in page.flags ==> !page.flags[id]
      // the document is rebuilt: the twins are new surfaces with a 2d context (FreshPageTwinKeys, FreshPageTwinSurfaces)
      ensures page == FreshPage(|canvasIds|, old(nextSurface))
      // every hidden canvas is a new element: no surface of the old page is reused
      ensures forall id :: id in page.offscreen ==> page.offscreen[id] !in old(page.offscreen).Values
      ensures forall id :: id in canvasIds ==> Present(page, id)
      ensures nextSurface == old(nextSurface) + |canvasIds|
      ensures display == map[]
    {
      var count := CanvasCount(requested);
      canvasIds := CanvasIds(count);
      page := Page(map[], map[]);
      display := map[];
      for i := 1 to count + 1
        modifies this`page, this`nextSurface
        invariant nextSurface == old(nextSurface) + (i - 1)
        invariant page == FreshPage(i - 1, old(nextSurface))
      {
        var surface := Surface(nextSurface, Some(nextSurface));
        page := Page(page.flags[NumberedId(i) := false],
                     page.offscreen["offscreenCanvas" + NatToString(i) := surface]);
        nextSurface := nextSurface + 1;
      }
      FreshPageFlags(count, old(nextSurface));
      FreshPageTwinKeys(count, old(nextSurface));
      FreshPageIsNew(count, old(nextSurface), old(page.offscreen));
      UnflaggedKeepsConsistent(old(canvasIds), old(page), canvasIds, page, canvasToWorker, workers, outbox);
      CanvasIdsUnique(count);
    }

    /** The worker-count button: resize the pool, then rebuild the canvases. */
    method UpdateWorkerCount(requestedWorkers: Option<int>, requestedCanvases: Option<int>)
      requires Valid()
      modifies this`maxWorkers, this`workers, this`nextWorker, this`terminated, this`canvasToWorker
      modifies this`canvasIds, this`page, this`display, this`nextSurface
      ensures Valid()
      ensures maxWorkers == ClampWorkerCount(requestedWorkers)
      ensures workers == NewWorkers(old(nextWorker), maxWorkers) && nextWorker == old(nextWorker) + maxWorkers
      ensures terminated == old(terminated) + (set w | w in old(workers))
      ensures canvasToWorker == map[]
      ensures canvasIds == CanvasIds(CanvasCount(requestedCanvases))
      ensures forall id :: id in page.flags <==> id in canvasIds
      ensures forall id :: id in page.flags ==> !page.flags[id]
      ensures forall id :: id in canvasIds ==> Present(page, id)
      ensures page == FreshPage(|canvasIds|, old(nextSurface))
      // every hidden canvas is a new element: no surface of the old page is reused
      ensures forall id :: id in page.offscreen ==> page.offscreen[id] !in old(page.offscreen).Values
      ensures nextSurface == old(nextSurface) + |canvasIds| && display == map[]
      // the wave state is left alone: a wave in flight keeps its counter
      ensures outbox == old(outbox) && completed == old(completed) && buttonDisabled == old(buttonDisabled)
      ensures finalized == old(finalized) && errors == old(errors)
    {
      Resize(requestedWorkers);
      UpdateCanvasCount(requestedCanvases);
    }

    /**
     * The worker-render button: disable it, reset the counter, and hand every listed canvas,
     * in order, to `DispatchCanvas`.
     */
    method RenderWithWorkers()
      requires Valid()
      requires !buttonDisabled  // a disabled button receives no click
      modifies this`buttonDisabled, this`completed, this`errors, this`canvasToWorker, this`outbox, this`page
      ensures Valid()
      ensures buttonDisabled
      ensures completed == |MissingIds(canvasIds, |canvasIds|, old(page))|
      ensures errors == old(errors) + MissingIds(canvasIds, |canvasIds|, old(page))
      ensures outbox == old(outbox) + Planned(canvasIds, |canvasIds|, old(page), workers)
      ensures page.offscreen == old(page.offscreen) && page.flags.Keys == old(page.flags).Keys
      ensures forall i :: 0 <= i < |canvasIds| && Present(old(page), canvasIds[i]) ==>
                page.flags[canvasIds[i]] && canvasIds[i] in canvasToWorker &&
                canvasToWorker[canvasIds[i]] == workers[i % maxWorkers]
      ensures forall id :: id in old(page.flags) && !(id in canvasIds && Present(old(page), id)) ==>
                page.flags[id] == old(page.flags[id])
      ensures forall id :: id in canvasToWorker <==> id in old(canvasToWorker) || (id in canvasIds && Present(old(page), id))
      ensures forall id :: id in old(canvasToWorker) && !(id in canvasIds && Present(old(page), id)) ==>
                canvasToWorker[id] == old(canvasToWorker[id])
    {
      buttonDisabled := true;
      completed := 0;
      for i := 0 to |canvasIds|
        invariant Valid()
        invariant buttonDisabled
        invariant WaveProgress(canvasIds, i, workers, old(page), old(canvasToWorker), old(outbox), old(errors),
                               page, canvasToWorker, outbox, errors, completed)
      {
        ghost var page0, assignment0, outbox0, errors0, completed0 := page, canvasToWorker, outbox, errors, completed;
        DispatchCanvas(i);
        WaveStep(canvasIds, i, workers, old(page), old(canvasToWorker), old(outbox), old(errors),
                 page0, assignment0, outbox0, errors0, completed0, page, canvasToWorker, outbox, errors, completed);
      }
      WaveDone(canvasIds, workers, old(page), old(canvasToWorker), old(outbox), old(errors),
               page, canvasToWorker, outbox, errors, completed);
    }

    /**
     * The `forEach` callback for the canvas at position `index`: a missing surface is reported
     * and counted as done; otherwise the canvas is assigned worker index mod MAX_WORKERS, which
     * is sent the transfer of the canvas (and the canvas is flagged) when the canvas does not
     * carry the attribute, and a render-only message when it does.
     */
    method DispatchCanvas(index: nat)
      requires Valid() && index < |canvasIds|
      modifies this`completed, this`errors, this`canvasToWorker, this`outbox, this`page
      ensures Valid()
      ensures CanvasStep(canvasIds, index, workers, old(page), old(canvasToWorker), old(outbox), old(errors),
                         old(completed), page, canvasToWorker, outbox, errors, completed)
    {
      var id := canvasIds[index];
      var offscreenId := OffscreenId(id);
      if id !in page.flags || offscreenId !in page.offscreen {
        errors := errors + [id];
        completed := completed + 1;
        return;
      }
      var workerIndex := index % maxWorkers;
      var worker := workers[workerIndex];
      if !page.flags[id] {
        TransferKeepsConsistent(canvasIds, page, canvasToWorker, workers, outbox, index,
                                page.offscreen[offscreenId], RandomText);
      } else {
        RenderOnlyKeepsConsistent(canvasIds, page, canvasToWorker, workers, outbox, index, RandomText);
        assert page.(flags := page.flags[id := true]) == page;
      }
      canvasToWorker := canvasToWorker[id := worker];
      if id !in canvasToWorker || !page.flags[id] {
        var offscreen := page.offscreen[offscreenId];
        outbox := outbox + [Envelope(worker, Transfer(id, offscreen, RandomText))];
        page := page.(flags := page.flags[id := true]);
      } else {
        outbox := outbox + [Envelope(worker, RenderOnly(id, RandomText))];
      }
    }

    /**
     * A worker's result: draw the bitmap onto the visible canvas if it exists, count the
     * render, and finalize (publish the time, re-enable the button) exactly when the count
     * equals the number of listed canvases.
     */
    method OnResult(reply: Reply)
      requires Valid()
      modifies this`display, this`completed, this`finalized, this`buttonDisabled
      ensures Valid()
      ensures display == if reply.canvasId in page.flags then old(display)[reply.canvasId := reply.bitmap] else old(display)
      ensures completed == old(completed) + 1
      ensures completed == |canvasIds| ==> finalized == old(finalized) + 1 && !buttonDisabled
      ensures completed != |canvasIds| ==> finalized == old(finalized) && buttonDisabled == old(buttonDisabled)
    {
      if reply.canvasId in page.flags {
        display := display[reply.canvasId := reply.bitmap];
      }
      completed := completed + 1;
      if completed == |canvasIds| {
        finalized := finalized + 1;
        buttonDisabled := false;
      }
    }
  }
}
