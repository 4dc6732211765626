/** The render queue and frame batching that both core files implement identically
    (`queueRender`, `unqeue` and the frame callback; dist/core.mjs:25-42,
    src/renderer.mjs:25-42). `requestAnimationFrame` becomes the `frame` field: the
    frame that has been requested, carrying the snapshot its callback will render. */
module Scheduler {
  import opened Values

  datatype Sched = Sched(renderQueue: seq<Elem>, rendering: bool, frame: Option<seq<Elem>>)

  /** `if (renderQueue.indexOf(element) === -1) renderQueue.push(element)`. */
  function Enqueue(q: seq<Elem>, e: Elem): (r: seq<Elem>)
    ensures e in r
    ensures forall x :: x in r <==> x in q || x == e
    ensures |q| <= |r| <= |q| + 1 && r[..|q|] == q
    ensures NoDup(q) ==> NoDup(r)
  {
    if e in q then q else q + [e]
  }

  /** `unqeue`: copy the queue into the snapshot of a newly requested frame, empty the
      queue and mark the scheduler as rendering. */
  function Unqeue(s: Sched): (r: Sched)
    ensures r.rendering && r.frame.Some? && r.renderQueue == []
    ensures NoDup(s.renderQueue) ==> Inv(r)
  {
    Sched([], true, Some(s.renderQueue))
  }

  /** `queueRender(element)`. */
  function QueueRender(s: Sched, e: Elem): (r: Sched)
    ensures r.rendering
    ensures s.rendering ==> r.frame == s.frame && e in r.renderQueue
    ensures !s.rendering ==> r.frame.Some? && e in r.frame.value && r.renderQueue == []
    ensures Inv(s) ==> Inv(r)
  {
    var s1 := s.(renderQueue := Enqueue(s.renderQueue, e));
    if !s1.rendering then Unqeue(s1) else s1
  }

  /** The frame callback starts: it takes the snapshot its frame carries. */
  function BeginTick(s: Sched): Sched
    requires s.frame.Some?
  {
    s.(frame := None)
  }

  /** The frame callback ends: `rendering = false; if (renderQueue.length > 0) unqeue();`. */
  function EndTick(s: Sched): (r: Sched)
    ensures r.renderQueue == []
    ensures Ticking(s) ==> Inv(r)
  {
    var s1 := s.(rendering := false);
    if |s1.renderQueue| > 0 then Unqeue(s1) else s1
  }

  /** The scheduler between frames: the queue has no duplicates, a frame is requested
      exactly when `rendering` is set, and its snapshot has no duplicates either. */
  predicate Inv(s: Sched) {
    NoDup(s.renderQueue)
    && (s.rendering <==> s.frame.Some?)
    && (s.frame.Some? ==> NoDup(s.frame.value))
  }

  /** The scheduler while a frame callback is rendering its snapshot. */
  predicate Ticking(s: Sched) {
    NoDup(s.renderQueue) && s.rendering && s.frame.None?
  }

  /** Every element handed to `queueRender`, in order. */
  function QueueAll(s: Sched, es: seq<Elem>): Sched
    decreases |es|
  {
    if es == [] then s else QueueAll(QueueRender(s, es[0]), es[1..])
  }

  /** `queueRender` keeps the invariant, leaves a frame requested, and the element is
      then pending: in the queue or in the snapshot of the requested frame. When no
      frame was requested, the new frame's snapshot is the old queue with the element
      added and the queue is emptied; when one was, no second frame is requested. */
  lemma QueueRenderSchedules(s: Sched, e: Elem)
    requires Inv(s)
    ensures var r := QueueRender(s, e);
      Inv(r) && r.rendering && r.frame.Some?
      && (e in r.renderQueue || e in r.frame.value)
      && (!s.rendering ==> r.frame == Some(Enqueue(s.renderQueue, e)) && r.renderQueue == [])
      && (s.rendering ==> r.frame == s.frame && r.renderQueue == Enqueue(s.renderQueue, e))
  {
  }

  /** While the frame callback renders, `queueRender` only adds to the queue: it never
      requests a frame of its own. */
  lemma QueueRenderWhileTicking(s: Sched, e: Elem)
    requires Ticking(s)
    ensures QueueRender(s, e) == s.(renderQueue := Enqueue(s.renderQueue, e))
    ensures Ticking(QueueRender(s, e))
  {
  }

  /** However many elements are queued, and however often each, the invariant holds,
      at most one frame is requested, every queued element is pending, and none is
      pending twice in the queue or twice in the snapshot. */
  lemma {:induction false} QueueAllSchedules(s: Sched, es: seq<Elem>)
    requires Inv(s)
    ensures Inv(QueueAll(s, es))
    ensures es != [] ==> QueueAll(s, es).frame.Some?
    ensures forall x :: x in es ==> x in QueueAll(s, es).renderQueue || x in QueueAll(s, es).frame.value
    decreases |es|
  {
    if es != [] {
      QueueRenderSchedules(s, es[0]);
      var s1 := QueueRender(s, es[0]);
      QueueAllSchedules(s1, es[1..]);
      var r := QueueAll(s1, es[1..]);
      assert r == QueueAll(s, es);
      if es[1..] == [] {
        assert r == s1;
      } else {
        assert r.frame.Some?;
        PendingStaysPending(s1, es[1..], es[0]);
      }
      forall x | x in es
        ensures x in r.renderQueue || x in r.frame.value
      {
        if x != es[0] {
          assert x in es[1..];
        }
      }
    }
  }

  /** Queueing more elements never drops a pending element. */
  lemma {:induction false} PendingStaysPending(s: Sched, es: seq<Elem>, x: Elem)
    requires Inv(s) && s.frame.Some?
    requires x in s.renderQueue || x in s.frame.value
    ensures x in QueueAll(s, es).renderQueue
      || (QueueAll(s, es).frame.Some? && x in QueueAll(s, es).frame.value)
    decreases |es|
  {
    if es != [] {
      QueueRenderSchedules(s, es[0]);
      PendingStaysPending(QueueRender(s, es[0]), es[1..], x);
    }
  }

  /** An element queued twice before its frame fires sits in the snapshot and again in
      the queue, because the snapshot is taken when the frame is requested, not when it
      fires. */
  lemma QueuedTwiceInSnapshotAndQueue(e: Elem)
    ensures QueueAll(Sched([], false, None), [e, e]) == Sched([e], true, Some([e]))
  {
    var s1 := QueueRender(Sched([], false, None), e);
    assert s1 == Sched([], true, Some([e]));
    assert [e, e][1..] == [e];
    assert QueueAll(s1, [e]) == QueueRender(s1, e);
  }

  /** The end of a frame callback restores the invariant, and it requests the next frame
      exactly when elements were queued during this one; that frame renders all of them. */
  lemma EndTickRearms(s: Sched)
    requires Ticking(s)
    ensures Inv(EndTick(s))
    ensures EndTick(s).rendering <==> s.renderQueue != []
    ensures s.renderQueue != [] ==> EndTick(s) == Sched([], true, Some(s.renderQueue))
    ensures s.renderQueue == [] ==> EndTick(s) == Sched([], false, None)
  {
  }
}
