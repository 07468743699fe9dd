/**
 * The page's typical session, driven through the `Dispatcher` contracts: the six canvases of
 * the initial page and two workers, two waves, then a worker-count change and a third wave.
 * Every wave is answered in full before the next click, since the button is disabled while
 * a wave is outstanding.
 */
module Scenarios {
  import opened Ids
  import opened Protocol
  import opened Offscreen

  /** A wave over canvases that all exist and none of which carries the attribute transfers each one. */
  lemma FreshWave(ids: seq<CanvasId>, page: Page, pool: seq<WorkerId>)
    requires |pool| >= 1
    requires forall i :: 0 <= i < |ids| ==> Present(page, ids[i]) && !page.flags[ids[i]]
    ensures var sent := Planned(ids, |ids|, page, pool);
      |sent| == |ids| &&
      forall i :: 0 <= i < |ids| ==>
        sent[i].worker == pool[i % |pool|] && sent[i].msg.Transfer? && sent[i].msg.canvasId == ids[i]
  {
    PlannedAllPresent(ids, |ids|, page, pool);
  }

  /** A wave over canvases that all exist and all carry the attribute only reuses surfaces. */
  lemma ReuseWave(ids: seq<CanvasId>, page: Page, pool: seq<WorkerId>)
    requires |pool| >= 1
    requires forall i :: 0 <= i < |ids| ==> Present(page, ids[i]) && page.flags[ids[i]]
    ensures var sent := Planned(ids, |ids|, page, pool);
      |sent| == |ids| &&
      forall i :: 0 <= i < |ids| ==> sent[i] == Envelope(pool[i % |pool|], RenderOnly(ids[i], RandomText))
  {
    PlannedAllPresent(ids, |ids|, page, pool);
  }

  /** Script load on a page holding `canvas1..canvas6` and their hidden twins. */
  method Open() returns (d: Dispatcher)
    ensures fresh(d) && d.Valid()
    ensures d.canvasIds == CanvasIds(6) && d.workers == NewWorkers(0, DefaultWorkers)
    ensures forall i :: 0 <= i < |d.canvasIds| ==> Present(d.page, d.canvasIds[i]) && !d.page.flags[d.canvasIds[i]]
    ensures !d.buttonDisabled
  {
    var page := FreshPage(6, 0);
    FreshPageFlags(6, 0);
    FreshPageTwinKeys(6, 0);
    FreshPageIsNew(6, 0, map[]);
    d := new Dispatcher(page.flags.Keys, page.offscreen, 6);
  }

  /** The worker-count handler with `count` workers and six canvases. */
  method ResizeTo(d: Dispatcher, count: nat)
    requires d.Valid() && 1 <= count <= 16
    modifies d
    ensures d.Valid() && d.canvasIds == CanvasIds(6)
    ensures d.workers == NewWorkers(old(d.nextWorker), count)
    ensures forall i :: 0 <= i < |d.canvasIds| ==> Present(d.page, d.canvasIds[i]) && !d.page.flags[d.canvasIds[i]]
    ensures d.buttonDisabled == old(d.buttonDisabled)
  {
    d.UpdateWorkerCount(Some(count), Some(6));
  }

  /** A click of the worker-render button while no canvas carries the attribute, and every answer. */
  method TransferAll(d: Dispatcher) returns (sent: seq<Envelope>)
    requires d.Valid() && !d.buttonDisabled && |d.canvasIds| >= 1
    requires forall i :: 0 <= i < |d.canvasIds| ==> Present(d.page, d.canvasIds[i]) && !d.page.flags[d.canvasIds[i]]
    modifies d
    ensures d.Valid()
    ensures d.canvasIds == old(d.canvasIds) && d.workers == old(d.workers) && d.nextWorker == old(d.nextWorker)
    ensures |sent| == |d.canvasIds|
    ensures forall i :: 0 <= i < |d.canvasIds| ==>
      sent[i].worker == d.workers[i % |d.workers|] && sent[i].msg.Transfer? && sent[i].msg.canvasId == d.canvasIds[i]
    ensures forall i :: 0 <= i < |d.canvasIds| ==> Present(d.page, d.canvasIds[i]) && d.page.flags[d.canvasIds[i]]
    ensures !d.buttonDisabled
  {
    FreshWave(d.canvasIds, d.page, d.workers);
    sent := AnsweredWave(d);
  }

  /** A click of the worker-render button once every canvas carries the attribute, and every answer. */
  method RenderAgain(d: Dispatcher) returns (sent: seq<Envelope>)
    requires d.Valid() && !d.buttonDisabled && |d.canvasIds| >= 1
    requires forall i :: 0 <= i < |d.canvasIds| ==> Present(d.page, d.canvasIds[i]) && d.page.flags[d.canvasIds[i]]
    modifies d
    ensures d.Valid()
    ensures d.canvasIds == old(d.canvasIds) && d.workers == old(d.workers) && d.nextWorker == old(d.nextWorker)
    ensures |sent| == |d.canvasIds|
    ensures forall i :: 0 <= i < |d.canvasIds| ==>
      sent[i] == Envelope(d.workers[i % |d.workers|], RenderOnly(d.canvasIds[i], RandomText))
    ensures !d.buttonDisabled
  {
    ReuseWave(d.canvasIds, d.page, d.workers);
    sent := AnsweredWave(d);
  }

  /**
   * The three waves of the session, from what each wave sent: the first and third transfer
   * every canvas, the second reuses each surface at the worker that received it, and the
   * third involves none of the first pool's workers.
   */
  lemma {:induction false} SessionWaves(ids: seq<CanvasId>, pool: seq<WorkerId>, pool2: seq<WorkerId>, n0: nat,
                                        first: seq<Envelope>, second: seq<Envelope>, third: seq<Envelope>)
    requires ids == CanvasIds(6)
    requires |pool| == 2 && pool[0] != pool[1] && forall k :: 0 <= k < |pool| ==> pool[k] < n0
    requires |pool2| >= 1 && forall k :: 0 <= k < |pool2| ==> pool2[k] >= n0
    requires |first| == |second| == |third| == 6
    requires forall i :: 0 <= i < 6 ==>
      first[i].worker == pool[i % 2] && first[i].msg.Transfer? && first[i].msg.canvasId == ids[i]
    requires forall i :: 0 <= i < 6 ==> second[i] == Envelope(pool[i % 2], RenderOnly(ids[i], RandomText))
    requires forall i :: 0 <= i < 6 ==>
      third[i].worker == pool2[i % |pool2|] && third[i].msg.Transfer? && third[i].msg.canvasId == ids[i]
    ensures forall i :: 0 <= i < 6 ==> first[i].msg.Transfer? && first[i].msg.canvasId == NumberedId(i + 1)
    ensures forall i :: 0 <= i < 6 ==> first[i].worker == first[i % 2].worker
    ensures first[0].worker != first[1].worker
    ensures forall i :: 0 <= i < 6 ==> second[i] == Envelope(first[i].worker, RenderOnly(NumberedId(i + 1), RandomText))
    ensures forall i :: 0 <= i < 6 ==> third[i].msg.Transfer? && third[i].msg.canvasId == NumberedId(i + 1)
    ensures forall i, j :: 0 <= i < 6 && 0 <= j < 6 ==> third[i].worker != first[j].worker
  {
    assert forall i :: 0 <= i < 6 ==> ids[i] == NumberedId(i + 1);
    forall i | 0 <= i < 6
      ensures first[i].worker == first[i % 2].worker
    {
      assert (i % 2) % 2 == i % 2;
    }
    forall i, j | 0 <= i < 6 && 0 <= j < 6
      ensures third[i].worker != first[j].worker
    {
      assert third[i].worker == pool2[i % |pool2|] >= n0;
      assert first[j].worker == pool[j % 2] < n0;
    }
  }

  /** The first message of each canvas hands its surface over; later ones reuse it at the same worker. */
  method TwoWavesThenResize() returns (first: seq<Envelope>, second: seq<Envelope>, third: seq<Envelope>)
    ensures |first| == |second| == |third| == 6
    // wave one transfers every canvas, alternating between the two workers
    ensures forall i :: 0 <= i < 6 ==> first[i].msg.Transfer? && first[i].msg.canvasId == NumberedId(i + 1)
    ensures forall i :: 0 <= i < 6 ==> first[i].worker == first[i % 2].worker
    ensures first[0].worker != first[1].worker
    // wave two only reuses surfaces, each at the worker that received it
    ensures forall i :: 0 <= i < 6 ==> second[i] == Envelope(first[i].worker, RenderOnly(NumberedId(i + 1), RandomText))
    // after the resize every canvas is transferred again, to a worker of the new pool
    ensures forall i :: 0 <= i < 6 ==> third[i].msg.Transfer? && third[i].msg.canvasId == NumberedId(i + 1)
    ensures forall i, j :: 0 <= i < 6 && 0 <= j < 6 ==> third[i].worker != first[j].worker
  {
    var d := Open();
    var ids, pool := d.canvasIds, d.workers;
    first := TransferAll(d);
    second := RenderAgain(d);
    var n0 := d.nextWorker;
    ResizeTo(d, 3);
    third := TransferAll(d);
    SessionWaves(ids, pool, d.workers, n0, first, second, third);
  }

  /**
   * The results of a wave arriving one after another, each a call of the result handler: the
   * counter advances by one per result and the wave is finalized as often as `Finalizations`
   * says; the button, once re-enabled, stays enabled.
   */
  method DeliverResults(d: Dispatcher, replies: seq<Reply>)
    requires d.Valid()
    modifies d`display, d`completed, d`finalized, d`buttonDisabled
    ensures d.Valid()
    ensures d.completed == old(d.completed) + |replies|
    ensures d.finalized == old(d.finalized) + Finalizations(old(d.completed), |d.canvasIds|, |replies|)
    ensures d.buttonDisabled == (old(d.buttonDisabled) && Finalizations(old(d.completed), |d.canvasIds|, |replies|) == 0)
  {
    for i := 0 to |replies|
      invariant d.Valid()
      invariant d.completed == old(d.completed) + i
      invariant d.finalized == old(d.finalized) + Finalizations(old(d.completed), |d.canvasIds|, i)
      invariant d.buttonDisabled == (old(d.buttonDisabled) && Finalizations(old(d.completed), |d.canvasIds|, i) == 0)
    {
      d.OnResult(replies[i]);
    }
  }

  /** The reply a worker posts for a message: the same canvas id, with some image. */
  function AnswerTo(e: Envelope, image: nat): Reply
  {
    Reply(e.msg.canvasId, Bitmap(image))
  }

  /**
   * A click of the worker-render button after which every message sent is answered: the
   * wave is finalized exactly once, and the button re-enabled, if and only if anything was
   * sent; a wave whose canvases are all missing leaves the button disabled.
   */
  method AnsweredWave(d: Dispatcher) returns (sent: seq<Envelope>)
    requires d.Valid() && !d.buttonDisabled
    modifies d
    ensures d.Valid()
    ensures d.canvasIds == old(d.canvasIds) && d.workers == old(d.workers) && d.nextWorker == old(d.nextWorker)
    ensures sent == Planned(d.canvasIds, |d.canvasIds|, old(d.page), d.workers)
    ensures forall i :: 0 <= i < |d.canvasIds| && Present(old(d.page), d.canvasIds[i]) ==>
      Present(d.page, d.canvasIds[i]) && d.page.flags[d.canvasIds[i]]
    ensures d.finalized == old(d.finalized) + (if |sent| > 0 then 1 else 0)
    ensures d.buttonDisabled <==> |sent| == 0
  {
    var page0, before := d.page, d.outbox;
    d.RenderWithWorkers();
    sent := d.outbox[|before|..];
    WaveFinalizedOnce(d.canvasIds, page0, d.workers);
    var replies := seq(|sent|, i requires 0 <= i < |sent| => AnswerTo(sent[i], i));
    DeliverResults(d, replies);
  }
}
