/** src/renderer.mjs: the module-level state as the fields of one `Runtime`, and each
    function as a method that updates them in place, proved to do what its
    counterpart in `RendererModel` describes. */
module Renderer {
  import opened Values
  import opened RendererModel
  import Scheduler
  import PassProps
  import HexKeys
  import RendererProperties

  class Runtime {
    var currentElement: Option<Elem>
    var currentHookStateIndex: int
    var hookStateMap: map<Elem, map<int, Val>>
    var passPropsMap: map<string, Val>
    var passPropsId: nat
    var rendering: bool
    var renderQueue: seq<Elem>
    /** The frame requested with `requestAnimationFrame`, holding its snapshot. */
    var frame: Option<seq<Elem>>
    var afterRenderQueue: seq<nat>
    var log: seq<Event>

    ghost function State(): RendererModel.State
      reads this
    {
      RendererModel.State(currentElement, currentHookStateIndex, hookStateMap,
        Scheduler.Sched(renderQueue, rendering, frame),
        PassProps.Registry(passPropsMap, passPropsId),
        afterRenderQueue, log)
    }

    ghost predicate Valid()
      reads this
    {
      RendererModel.Valid(State())
    }

    /** The module as it is loaded (src/renderer.mjs:1-7, 48). */
    constructor()
      ensures State() == Initial() && Valid()
    {
      currentElement := None;
      currentHookStateIndex := -1;
      hookStateMap := map[];
      passPropsMap := map[];
      passPropsId := PassProps.FIRST_ID;
      rendering := false;
      renderQueue := [];
      frame := None;
      afterRenderQueue := [];
      log := [];
    }

    /** `unqeue()` (src/renderer.mjs:25-34). */
    method Unqeue()
      modifies this
      ensures State() == old(State()).(sched := Scheduler.Unqeue(old(State()).sched))
    {
      var queue := renderQueue;
      renderQueue := [];
      rendering := true;
      frame := Some(queue);
    }

    /** `queueRender(element)` (src/renderer.mjs:35-42). */
    method QueueRender(e: Elem)
      modifies this
      ensures State() == old(State()).(sched := Scheduler.QueueRender(old(State()).sched, e))
      ensures old(Valid()) ==> Valid()
    {
      if e !in renderQueue {
        renderQueue := renderQueue + [e];
      }
      if !rendering {
        Unqeue();
      }
    }

    /** The requested frame fires (src/renderer.mjs:29-33). */
    method Tick(programs: Elem -> seq<Step>)
      requires frame.Some?
      modifies this
      ensures State() == RendererModel.Tick(old(State()), programs)
      ensures old(Valid()) ==> Valid()
    {
      ghost var s0 := State();
      var queue := frame.value;
      frame := None;
      ghost var s1 := State();
      var k := 0;
      while k < |queue|
        invariant 0 <= k <= |queue|
        invariant RenderAll(State(), queue[k..], programs) == RenderAll(s1, queue, programs)
      {
        assert queue[k..][1..] == queue[k + 1..];
        Render(queue[k], programs(queue[k]));
        k := k + 1;
      }
      rendering := false;
      if |renderQueue| > 0 {
        Unqeue();
      }
      if RendererModel.Valid(s0) {
        RendererProperties.TickRearms(s0, programs);
      }
    }

    /** `render(element)` (src/renderer.mjs:8-24); `Date.now()` is not modelled. */
    method Render(e: Elem, steps: seq<Step>)
      modifies this
      ensures State() == RendererModel.Render(old(State()), e, steps)
    {
      currentElement := Some(e);
      if e !in hookStateMap {
        hookStateMap := hookStateMap[e := map[]];
      }
      currentHookStateIndex := 0;
      log := log + [Rendered(e)];
      assert State() == BeginRender(old(State()), e);
      RunRenderFunction(steps);
      RunAfterRenderQueue();
      afterRenderQueue := [];
    }

    /** `element.render()`. */
    method RunRenderFunction(steps: seq<Step>)
      requires Wf(State())
      modifies this
      ensures State() == RunSteps(old(State()), steps)
    {
      var i := 0;
      while i < |steps|
        invariant 0 <= i <= |steps|
        invariant Wf(State())
        invariant RunSteps(State(), steps[i..]) == RunSteps(old(State()), steps)
      {
        assert steps[i..][1..] == steps[i + 1..];
        ExecStep(steps[i]);
        i := i + 1;
      }
    }

    /** The loop of src/renderer.mjs:16-22: each queued callback is called once, at
        local index `length - index - 1` as `index` counts down. */
    method RunAfterRenderQueue()
      modifies this
      ensures State() == old(State()).(log := old(log) + CallbackEvents(old(afterRenderQueue)))
    {
      var afterRenderQueueLength := |afterRenderQueue|;
      var afterRenderQueueIndex := afterRenderQueueLength;
      while afterRenderQueueIndex > 0
        invariant 0 <= afterRenderQueueIndex <= afterRenderQueueLength
        invariant afterRenderQueue == old(afterRenderQueue)
        invariant State() == old(State()).(log := old(log)
          + CallbackEvents(afterRenderQueue[..afterRenderQueueLength - afterRenderQueueIndex]))
      {
        afterRenderQueueIndex := afterRenderQueueIndex - 1;
        var afterRenderQueueLocalIndex := afterRenderQueueLength - afterRenderQueueIndex - 1;
        ghost var done := afterRenderQueue[..afterRenderQueueLocalIndex];
        assert afterRenderQueue[..afterRenderQueueLocalIndex + 1] == done + [afterRenderQueue[afterRenderQueueLocalIndex]];
        assert CallbackEvents(done + [afterRenderQueue[afterRenderQueueLocalIndex]])
          == CallbackEvents(done) + [CallbackRan(afterRenderQueue[afterRenderQueueLocalIndex])];
        log := log + [CallbackRan(afterRenderQueue[afterRenderQueueLocalIndex])];
      }
      assert afterRenderQueue[..afterRenderQueueLength] == afterRenderQueue;
    }

    /** One call made by an element's render function. */
    method ExecStep(step: Step)
      requires Wf(State())
      modifies this
      ensures State() == Exec(old(State()), step)
    {
      match step
      case NextHookCall => NextHook();
      case HookStateCall(init) => var _ := GetCurrentHookState(init);
      case AfterRenderCall(cb) => QueueAfterRender(cb);
      case QueueRenderCall(e) => QueueRender(e);
    }

    /** `nextHook()` (src/renderer.mjs:64-66). */
    method NextHook()
      modifies this
      ensures State() == RendererModel.NextHook(old(State()))
    {
      currentHookStateIndex := currentHookStateIndex + 1;
    }

    /** `queueAfterRender(callback)` (src/renderer.mjs:68-70). */
    method QueueAfterRender(cb: nat)
      modifies this
      ensures State() == RendererModel.QueueAfterRender(old(State()), cb)
    {
      afterRenderQueue := afterRenderQueue + [cb];
    }

    /** `getCurrentHookState(initialState)` (src/renderer.mjs:72-79); `None` is the
        TypeError thrown before any render. */
    method GetCurrentHookState(init: Val) returns (r: Option<Val>)
      requires Wf(State())
      modifies this
      ensures (State(), r) == RendererModel.GetCurrentHookState(old(State()), init)
    {
      if currentElement.None? {
        return None;
      }
      var hookState := hookStateMap[currentElement.value];
      if currentHookStateIndex !in hookState || !Truthy(hookState[currentHookStateIndex]) {
        hookStateMap := hookStateMap[currentElement.value := hookState[currentHookStateIndex := init]];
        return Some(init);
      }
      r := Some(hookState[currentHookStateIndex]);
    }

    /** `addPassableProps(props)` (src/renderer.mjs:48-57). */
    method AddPassableProps(props: Val) returns (id: string)
      modifies this
      ensures (State(), id) == RendererModel.AddPassableProps(old(State()), props)
      ensures old(Valid()) ==> Valid()
    {
      ghost var s0 := State();
      id := HexKeys.ToHex(passPropsId);
      passPropsId := passPropsId + 1;
      if |id| % 2 == 1 {
        id := "0" + id;
      }
      passPropsMap := passPropsMap[id := props];
      if RendererModel.Valid(s0) {
        PassProps.AddIsFresh(s0.props, props);
      }
    }

    /** `getPassableProps(id)` (src/renderer.mjs:43-47). */
    method GetPassableProps(id: string) returns (props: Val)
      modifies this
      ensures (State(), props) == RendererModel.GetPassableProps(old(State()), id)
      ensures old(Valid()) ==> Valid()
    {
      ghost var s0 := State();
      props := if id in passPropsMap then passPropsMap[id] else Undefined;
      passPropsMap := passPropsMap - {id};
      if RendererModel.Valid(s0) {
        PassProps.GetKeepsInv(s0.props, id);
      }
    }

    /** `prps(props)` (src/renderer.mjs:58-63). */
    method Prps(props: Val) returns (attributes: map<string, string>)
      modifies this
      ensures var (s, id) := RendererModel.AddPassableProps(old(State()), props);
        State() == s && attributes == map[PassProps.PROPS_ATTRIBUTE := id]
    {
      var id := AddPassableProps(props);
      attributes := map[PassProps.PROPS_ATTRIBUTE := id];
    }
  }
}
