/** What src/renderer.mjs promises, proved of the transition functions in
    `RendererModel` (which `Renderer.Runtime` implements). */
module RendererProperties {
  import opened Values
  import opened RendererModel
  import Scheduler
  import PassProps

  // ---------------------------------------------------------------- cursor

  /** `nextHook` never throws: it advances the cursor by exactly one, whatever its
      value, and changes nothing else. */
  lemma NextHookAlwaysAdvances(s: State)
    ensures NextHook(s).cursor == s.cursor + 1
    ensures NextHook(s) == s.(cursor := NextHook(s).cursor)
  {
  }

  /** The number of `nextHook` calls among the steps. */
  function CountNext(steps: seq<Step>): nat
    decreases |steps|
  {
    if steps == [] then 0 else (if steps[0].NextHookCall? then 1 else 0) + CountNext(steps[1..])
  }

  /** The callbacks the steps queue, in order. */
  function Queued(steps: seq<Step>): seq<nat>
    decreases |steps|
  {
    if steps == [] then [] else (if steps[0].AfterRenderCall? then [steps[0].callback] else []) + Queued(steps[1..])
  }

  /** Running steps moves the cursor by the number of `nextHook` calls and appends
      the queued callbacks, in call order, to the after-render queue. */
  lemma {:induction false} RunStepsEffect(s: State, steps: seq<Step>)
    requires Wf(s)
    ensures RunSteps(s, steps).cursor == s.cursor + CountNext(steps)
    ensures RunSteps(s, steps).after == s.after + Queued(steps)
    decreases |steps|
  {
    if steps != [] {
      RunStepsEffect(Exec(s, steps[0]), steps[1..]);
    }
  }

  /** `render` sets the cursor to 0, so the first hook of a render uses slot 1; the
      cursor is not reset after the render, which leaves it at the number of
      `nextHook` calls the render made. */
  lemma RenderCursor(s: State, e: Elem, steps: seq<Step>)
    ensures NextHook(BeginRender(s, e)).cursor == 1
    ensures Render(s, e, steps).cursor == CountNext(steps)
  {
    RunStepsEffect(BeginRender(s, e), steps);
  }

  /** Since nothing resets `currentElement` or the cursor, a hook called after a
      render still reaches the hook list of the element rendered last. */
  lemma HooksAfterRender(s: State, e: Elem, steps: seq<Step>, init: Val)
    ensures var r := Render(s, e, steps);
      GetCurrentHookState(r, init).1.Some? && e in r.hooks
      && GetCurrentHookState(r, init).0.hooks.Keys == r.hooks.Keys
  {
  }

  // ---------------------------------------------------------------- slots

  /** `getCurrentHookState(init)` throws exactly when no element has been rendered
      yet; otherwise it stores `init` only when the slot at the cursor is absent or
      falsy, and returns it, and else returns the stored value and changes nothing. */
  lemma GetCurrentHookStateInitOnlyWhenFalsy(s: State, init: Val)
    requires Wf(s)
    ensures GetCurrentHookState(s, init).1.None? <==> s.current.None?
    ensures s.current.None? ==> GetCurrentHookState(s, init).0 == s
    ensures s.current.Some? ==>
      var (r, v) := GetCurrentHookState(s, init);
      var list := s.hooks[s.current.value];
      if s.cursor in list && Truthy(list[s.cursor]) then r == s && v == Some(list[s.cursor])
      else v == Some(init) && r == s.(hooks := s.hooks[s.current.value := list[s.cursor := init]])
  {
  }

  // ---------------------------------------------------------------- after-render queue

  /** Every callback queued before or during the render runs exactly once, in
      registration order, right after `element.render()`; the queue is then empty. */
  lemma RenderRunsAfterQueue(s: State, e: Elem, steps: seq<Step>)
    ensures var r := Render(s, e, steps);
      var cbs := s.after + Queued(steps);
      r.log == s.log + [Rendered(e)] + CallbackEvents(cbs)
      && (forall k :: 0 <= k < |cbs| ==> r.log[|s.log| + 1 + k] == CallbackRan(cbs[k]))
      && r.after == []
  {
    RunStepsEffect(BeginRender(s, e), steps);
  }

  // ---------------------------------------------------------------- frame callback

  function RenderedIn(log: seq<Event>): seq<Elem>
    decreases |log|
  {
    if log == [] then []
    else (if log[0].Rendered? then [log[0].elem] else []) + RenderedIn(log[1..])
  }

  lemma {:induction false} RenderedInAppend(a: seq<Event>, b: seq<Event>)
    ensures RenderedIn(a + b) == RenderedIn(a) + RenderedIn(b)
    decreases |a|
  {
    if a == [] {
      assert a + b == b;
    } else {
      var head := if a[0].Rendered? then [a[0].elem] else [];
      assert (a + b)[0] == a[0];
      assert (a + b)[1..] == a[1..] + b;
      RenderedInAppend(a[1..], b);
      calc {
        RenderedIn(a + b);
        head + RenderedIn(a[1..] + b);
        head + (RenderedIn(a[1..]) + RenderedIn(b));
        (head + RenderedIn(a[1..])) + RenderedIn(b);
        RenderedIn(a) + RenderedIn(b);
      }
    }
  }

  lemma {:induction false} CallbacksRenderNothing(cbs: seq<nat>)
    ensures RenderedIn(CallbackEvents(cbs)) == []
    decreases |cbs|
  {
    if cbs != [] {
      var evs := CallbackEvents(cbs);
      assert evs[1..] == CallbackEvents(cbs[1..]);
      CallbacksRenderNothing(cbs[1..]);
    }
  }

  /** `render(element)` calls `element.render()` exactly once and renders nothing else. */
  lemma RenderRendersOnce(s: State, e: Elem, steps: seq<Step>)
    ensures RenderedIn(Render(s, e, steps).log) == RenderedIn(s.log) + [e]
  {
    var s2 := RunSteps(BeginRender(s, e), steps);
    assert RenderedIn([Rendered(e)]) == [e];
    RenderedInAppend(s.log, [Rendered(e)]);
    CallbacksRenderNothing(s2.after);
    RenderedInAppend(s2.log, CallbackEvents(s2.after));
  }

  lemma {:induction false} RenderAllRendersInOrder(s: State, es: seq<Elem>, programs: Elem -> seq<Step>)
    ensures RenderedIn(RenderAll(s, es, programs).log) == RenderedIn(s.log) + es
    decreases |es|
  {
    if es != [] {
      RenderRendersOnce(s, es[0], programs(es[0]));
      RenderAllRendersInOrder(Render(s, es[0], programs(es[0])), es[1..], programs);
      assert [es[0]] + es[1..] == es;
    }
  }

  /** The frame callback renders exactly its snapshot, each element once and in
      snapshot order, and nothing queued while it runs. */
  lemma TickRendersSnapshot(s: State, programs: Elem -> seq<Step>)
    requires Valid(s) && s.sched.frame.Some?
    ensures RenderedIn(Tick(s, programs).log) == RenderedIn(s.log) + s.sched.frame.value
    ensures NoDup(s.sched.frame.value)
  {
    RenderAllRendersInOrder(s.(sched := Scheduler.BeginTick(s.sched)), s.sched.frame.value, programs);
  }

  /** The frame callback leaves the engine valid with an empty queue, and requests the
      next frame exactly when elements were queued while it rendered. */
  lemma TickRearms(s: State, programs: Elem -> seq<Step>)
    requires Valid(s) && s.sched.frame.Some?
    ensures var mid := RenderAll(s.(sched := Scheduler.BeginTick(s.sched)), s.sched.frame.value, programs);
      var r := Tick(s, programs);
      Valid(r) && r.sched.renderQueue == [] && r.props == s.props
      && (r.sched.rendering <==> mid.sched.renderQueue != [])
      && (r.sched.rendering ==> r.sched.frame == Some(mid.sched.renderQueue))
  {
    var mid := RenderAll(s.(sched := Scheduler.BeginTick(s.sched)), s.sched.frame.value, programs);
    Scheduler.EndTickRearms(mid.sched);
  }

  // ---------------------------------------------------------------- the next frame

  /** Some call of the render function is `queueRender(x)`. */
  predicate StepsQueue(steps: seq<Step>, x: Elem) {
    exists k :: 0 <= k < |steps| && steps[k] == QueueRenderCall(x)
  }

  lemma {:induction false} RunStepsKeeps(s: State, steps: seq<Step>, x: Elem)
    requires Wf(s) && Scheduler.Ticking(s.sched) && x in s.sched.renderQueue
    ensures x in RunSteps(s, steps).sched.renderQueue
    decreases |steps|
  {
    if steps != [] {
      RunStepsKeeps(Exec(s, steps[0]), steps[1..], x);
    }
  }

  lemma {:induction false} RunStepsQueues(s: State, steps: seq<Step>, k: nat, x: Elem)
    requires Wf(s) && Scheduler.Ticking(s.sched)
    requires k < |steps| && steps[k] == QueueRenderCall(x)
    ensures x in RunSteps(s, steps).sched.renderQueue
    decreases |steps|
  {
    var s1 := Exec(s, steps[0]);
    if k == 0 {
      RunStepsKeeps(s1, steps[1..], x);
    } else {
      assert steps[1..][k - 1] == steps[k];
      RunStepsQueues(s1, steps[1..], k - 1, x);
    }
  }

  /** While a frame callback renders, queued elements stay queued. */
  lemma {:induction false} RenderAllKeeps(s: State, es: seq<Elem>, programs: Elem -> seq<Step>, x: Elem)
    requires Scheduler.Ticking(s.sched) && x in s.sched.renderQueue
    ensures x in RenderAll(s, es, programs).sched.renderQueue
    decreases |es|
  {
    if es != [] {
      RunStepsKeeps(BeginRender(s, es[0]), programs(es[0]), x);
      RenderAllKeeps(Render(s, es[0], programs(es[0])), es[1..], programs, x);
    }
  }

  lemma {:induction false} RenderAllQueues(s: State, es: seq<Elem>, programs: Elem -> seq<Step>, x: Elem)
    requires Scheduler.Ticking(s.sched) && x in es && StepsQueue(programs(x), x)
    ensures x in RenderAll(s, es, programs).sched.renderQueue
    decreases |es|
  {
    var s1 := Render(s, es[0], programs(es[0]));
    if es[0] == x {
      var k :| 0 <= k < |programs(x)| && programs(x)[k] == QueueRenderCall(x);
      RunStepsQueues(BeginRender(s, x), programs(x), k, x);
      RenderAllKeeps(s1, es[1..], programs, x);
    } else {
      assert x in es[1..];
      RenderAllQueues(s1, es[1..], programs, x);
    }
  }

  /** An element queued after the snapshot was taken is in the next frame's snapshot. */
  lemma RequeuedRendersNext(s: State, programs: Elem -> seq<Step>, x: Elem)
    requires Valid(s) && s.sched.frame.Some? && x in s.sched.renderQueue
    ensures Tick(s, programs).sched.frame.Some? && x in Tick(s, programs).sched.frame.value
  {
    var s1 := s.(sched := Scheduler.BeginTick(s.sched));
    RenderAllKeeps(s1, s.sched.frame.value, programs, x);
    Scheduler.EndTickRearms(RenderAll(s1, s.sched.frame.value, programs).sched);
  }

  /** An element of the snapshot whose render function calls `queueRender` on it is in
      the next frame's snapshot. */
  lemma QueuedDuringRenderRendersNext(s: State, programs: Elem -> seq<Step>, x: Elem)
    requires Valid(s) && s.sched.frame.Some?
    requires x in s.sched.frame.value && StepsQueue(programs(x), x)
    ensures Tick(s, programs).sched.frame.Some? && x in Tick(s, programs).sched.frame.value
  {
    var s1 := s.(sched := Scheduler.BeginTick(s.sched));
    RenderAllQueues(s1, s.sched.frame.value, programs, x);
    Scheduler.EndTickRearms(RenderAll(s1, s.sched.frame.value, programs).sched);
  }

  /** An element queued twice before its frame fires is rendered by that frame's
      callback and is in the next frame's snapshot. */
  lemma QueuedTwiceRendersInTwoFrames(s: State, e: Elem, programs: Elem -> seq<Step>)
    requires Valid(s) && s.sched.frame.None?
    ensures var s1 := s.(sched := Scheduler.QueueAll(s.sched, [e, e]));
      s1.sched.frame.Some? && e in s1.sched.frame.value
      && var r := Tick(s1, programs);
      RenderedIn(r.log) == RenderedIn(s.log) + s1.sched.frame.value
      && r.sched.frame.Some? && e in r.sched.frame.value
  {
    var q1 := Scheduler.QueueRender(s.sched, e);
    assert [e, e][1..] == [e];
    assert Scheduler.QueueAll(s.sched, [e, e]) == Scheduler.QueueAll(q1, [e]);
    assert Scheduler.QueueAll(q1, [e]) == Scheduler.QueueRender(q1, e);
    var s1 := s.(sched := Scheduler.QueueAll(s.sched, [e, e]));
    Scheduler.QueueAllSchedules(s.sched, [e, e]);
    assert Valid(s1);
    TickRendersSnapshot(s1, programs);
    RequeuedRendersNext(s1, programs, e);
  }

  /** `queueRender`, `addPassableProps` and `getPassableProps` keep the engine valid. */
  lemma OperationsKeepValid(s: State, e: Elem, props: Val, id: string)
    requires Valid(s)
    ensures Valid(s.(sched := Scheduler.QueueRender(s.sched, e)))
    ensures Valid(AddPassableProps(s, props).0)
    ensures Valid(GetPassableProps(s, id).0)
  {
    Scheduler.QueueRenderSchedules(s.sched, e);
    PassProps.AddIsFresh(s.props, props);
    PassProps.GetKeepsInv(s.props, id);
  }
}
