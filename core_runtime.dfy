/** dist/core.mjs: the module-level state as the fields of one `Runtime`, and each
    function as a method that updates them in place. Every method is proved to do
    exactly what its counterpart in `CoreModel` describes. */
module Core {
  import opened Values
  import opened CoreModel
  import Scheduler
  import PassProps
  import HexKeys
  import CoreProperties

  /** The comparison loop of `useEffect` (dist/core.mjs:211-218): walk the old
      dependency list from its end and stop at the first item that is not `===` to the
      new item at the same index. */
  method DepsUnchanged(prev: seq<Val>, values: seq<Val>) returns (nothingChanged: bool)
    ensures nothingChanged <==> ItemsUnchanged(prev, values)
  {
    nothingChanged := true;
    var index := |prev|;
    while index > 0
      invariant 0 <= index <= |prev|
      invariant forall j :: index <= j < |prev| ==> ItemAt(values, j) == prev[j]
    {
      index := index - 1;
      if ItemAt(values, index) != prev[index] {
        nothingChanged := false;
        break;
      }
    }
  }

  class Runtime {
    /** The user code the engine calls: reducers and effects. */
    const env: Env

    var currentElement: Option<Elem>
    var currentHookStateIndex: Cursor
    var hookStateMap: map<Elem, map<int, Slot>>
    var passPropsMap: map<string, Val>
    var passPropsId: nat
    var rendering: bool
    var renderQueue: seq<Elem>
    /** The frame requested with `requestAnimationFrame`, holding the snapshot `queue`
        its callback closes over. */
    var frame: Option<seq<Elem>>
    var afterRenderQueue: seq<Callback>
    /** The `renderer` property of elements, as `useRenderer` sets it. */
    var renderers: map<Elem, Val>
    /** What the engine did that user code can observe. */
    var log: seq<Event>

    ghost function State(): CoreModel.State
      reads this
    {
      CoreModel.State(currentElement, currentHookStateIndex, hookStateMap,
        Scheduler.Sched(renderQueue, rendering, frame),
        PassProps.Registry(passPropsMap, passPropsId),
        afterRenderQueue, renderers, log)
    }

    ghost predicate Valid()
      reads this
    {
      CoreModel.Valid(State())
    }

    /** The module as it is loaded (dist/core.mjs:1-7, 48). */
    constructor(env: Env)
      ensures this.env == env && State() == Initial() && Valid()
    {
      this.env := env;
      currentElement := None;
      currentHookStateIndex := Unset;
      hookStateMap := map[];
      passPropsMap := map[];
      passPropsId := PassProps.FIRST_ID;
      rendering := false;
      renderQueue := [];
      frame := None;
      afterRenderQueue := [];
      renderers := map[];
      log := [];
    }

    // -------------------------------------------------------------- scheduling

    /** `unqeue()` (dist/core.mjs:25-34). */
    method Unqeue()
      modifies this
      ensures State() == old(State()).(sched := Scheduler.Unqeue(old(State()).sched))
    {
      var queue := renderQueue;
      renderQueue := [];
      rendering := true;
      frame := Some(queue);
    }

    /** `queueRender(element)` (dist/core.mjs:35-42). */
    method QueueRender(e: Elem)
      modifies this
      ensures State() == old(State()).(sched := Scheduler.QueueRender(old(State()).sched, e))
      ensures old(Valid()) ==> Valid()
    {
      if e !in renderQueue {
        renderQueue := renderQueue + [e];
      }
      if !rendering {
        Unqeue();
      }
    }

    /** The requested frame fires: its callback (dist/core.mjs:29-33) renders the
        snapshot, element by element, with `programs` saying what each element's render
        function does. */
    method Tick(programs: Elem -> seq<Step>)
      requires frame.Some? && AfterValid(State()) && TickOk(env, State(), programs)
      modifies this
      ensures State() == CoreModel.Tick(env, old(State()), programs)
      ensures old(Valid()) ==> Valid()
    {
      ghost var s0 := State();
      var queue := frame.value;
      frame := None;
      RenderQueue(queue, programs);
      rendering := false;
      if |renderQueue| > 0 {
        Unqeue();
      }
      if CoreModel.Valid(s0) {
        CoreProperties.TickRearms(env, s0, programs);
      }
    }

    /** `queue.forEach(element => render(element))`. */
    method RenderQueue(queue: seq<Elem>, programs: Elem -> seq<Step>)
      requires AfterValid(State()) && RenderAllOk(env, State(), queue, programs)
      modifies this
      ensures State() == RenderAll(env, old(State()), queue, programs)
    {
      var k := 0;
      while k < |queue|
        invariant 0 <= k <= |queue|
        invariant AfterValid(State()) && RenderAllOk(env, State(), queue[k..], programs)
        invariant RenderAll(env, State(), queue[k..], programs) == RenderAll(env, old(State()), queue, programs)
      {
        assert queue[k..][1..] == queue[k + 1..];
        RenderAllFirst(env, State(), queue[k..], programs);
        Render(queue[k], programs(queue[k]));
        k := k + 1;
      }
    }

    // -------------------------------------------------------------- rendering

    /** `render(element)` (dist/core.mjs:8-24), with `element.render()` running `steps`. */
    method Render(e: Elem, steps: seq<Step>)
      requires AfterValid(State()) && RenderOk(env, State(), e, steps)
      modifies this
      ensures State() == CoreModel.Render(env, old(State()), e, steps)
    {
      currentElement := Some(e);
      if e !in hookStateMap {
        hookStateMap := hookStateMap[e := map[]];
      }
      currentHookStateIndex := Index(-1);
      log := log + [Rendered(e)];
      assert State() == BeginRender(old(State()), e);
      RenderParts(env, old(State()), e, steps);
      RunRenderFunction(steps);
      RunAfterRenderQueue();
      afterRenderQueue := [];
      currentHookStateIndex := Unset;
    }

    /** `element.render()`: the element's render function runs its steps in order. */
    method RunRenderFunction(steps: seq<Step>)
      requires Wf(State()) && AfterValid(State()) && StepsOk(env, State(), steps)
      modifies this
      ensures State() == RunSteps(env, old(State()), steps)
    {
      var i := 0;
      while i < |steps|
        invariant 0 <= i <= |steps|
        invariant Wf(State()) && StepsOk(env, State(), steps[i..])
        invariant RunSteps(env, State(), steps[i..]) == RunSteps(env, old(State()), steps)
      {
        assert steps[i..][1..] == steps[i + 1..];
        ExecStep(steps[i]);
        i := i + 1;
      }
    }

    /** The loop of dist/core.mjs:15-21: the callbacks queued during the render run once
        each, at local index `length - index - 1` as `index` counts down, that is in
        registration order. */
    method RunAfterRenderQueue()
      requires AfterValid(State())
      modifies this
      ensures State() == RunCallbacks(env, old(State()), old(afterRenderQueue))
    {
      ghost var s0 := State();
      var afterRenderQueueLength := |afterRenderQueue|;
      var afterRenderQueueIndex := afterRenderQueueLength;
      while afterRenderQueueIndex > 0
        invariant 0 <= afterRenderQueueIndex <= afterRenderQueueLength
        invariant afterRenderQueue == s0.after
        invariant CallbacksValid(State(), s0.after[afterRenderQueueLength - afterRenderQueueIndex..])
        invariant RunCallbacks(env, State(), s0.after[afterRenderQueueLength - afterRenderQueueIndex..])
          == RunCallbacks(env, s0, s0.after)
      {
        afterRenderQueueIndex := afterRenderQueueIndex - 1;
        var afterRenderQueueLocalIndex := afterRenderQueueLength - afterRenderQueueIndex - 1;
        ghost var rest := s0.after[afterRenderQueueLocalIndex..];
        ghost var before := State();
        assert rest[0] == afterRenderQueue[afterRenderQueueLocalIndex];
        assert rest[1..] == s0.after[afterRenderQueueLocalIndex + 1..];
        assert IsEffectSlot(before, rest[0].elem, rest[0].index);
        RunCallbacksStep(env, before, rest);
        RunCallback(afterRenderQueue[afterRenderQueueLocalIndex]);
      }
    }

    /** One step of an element's render function. */
    method ExecStep(step: Step)
      requires Wf(State()) && StepOk(State(), step)
      modifies this
      ensures State() == Exec(env, old(State()), step)
    {
      match step
      case HostElementCall => var _ := UseHostElement();
      case ReducerCall(f, init) => var _ := UseReducer(UserReducer(f), init);
      case StateCall(init) => var _ := UseState(init);
      case RendererCall(f) => var _ := UseRenderer(f);
      case EffectCall(f, values) => var _ := UseEffect(f, values);
      case DispatchCall(d, action) => Dispatch(d, action);
      case SetStateCall(d, value) => SetState(d, value);
      case QueueRenderCall(e) => QueueRender(e);
    }

    /** The callback `useEffect` queued (dist/core.mjs:223-228). */
    method RunCallback(cb: Callback)
      requires IsEffectSlot(State(), cb.elem, cb.index)
      modifies this
      ensures State() == CoreModel.RunCallback(env, old(State()), cb)
    {
      var state := hookStateMap[cb.elem][cb.index];
      log := log + [EffectCalled(state.effect)];
      var cleanUp := env.effectResult(state.effect);
      if cleanUp.Some? {
        hookStateMap := hookStateMap[cb.elem := hookStateMap[cb.elem][cb.index := state.(cleanUp := UserCleanup(cleanUp.value))]];
      }
    }

    // -------------------------------------------------------------- hook slots

    /** `nextHook()` (dist/core.mjs:64-69). */
    method NextHook() returns (r: Result<()>)
      modifies this
      ensures (State(), r) == CoreModel.NextHook(old(State()))
    {
      if currentHookStateIndex.Unset? {
        return Err(HooksOutsideComponent);
      }
      currentHookStateIndex := Index(currentHookStateIndex.i + 1);
      r := Ok(());
    }

    /** `queueAfterRender(callback)` (dist/core.mjs:71-73). */
    method QueueAfterRender(cb: Callback)
      modifies this
      ensures State() == old(State()).(after := old(State()).after + [cb])
    {
      afterRenderQueue := afterRenderQueue + [cb];
    }

    /** `getCurrentHookState(initialState)` (dist/core.mjs:75-82). */
    method GetCurrentHookState(init: Slot) returns (slot: Slot)
      requires InRender(State())
      modifies this
      ensures (State(), slot) == CoreModel.GetCurrentHookState(old(State()), init)
    {
      var hookState := hookStateMap[currentElement.value];
      var i := currentHookStateIndex.i;
      if i !in hookState || !SlotTruthy(hookState[i]) {
        hookStateMap := hookStateMap[currentElement.value := hookState[i := init]];
        return init;
      }
      slot := hookState[i];
    }

    /** `useHostElement()` (dist/core.mjs:163-165). */
    method UseHostElement() returns (r: Result<Elem>)
      requires Wf(State())
      modifies this
      ensures (State(), r) == CoreModel.UseHostElement(old(State()))
    {
      var ok := NextHook();
      if ok.Err? {
        return Err(ok.error);
      }
      r := Ok(currentElement.value);
    }

    /** `useReducer(reducer, initialState)` (dist/core.mjs:169-182). */
    method UseReducer(reducer: Reducer, init: Val) returns (r: Result<(Val, Dispatcher)>)
      requires Wf(State()) && ReducerFits(State(), 1)
      modifies this
      ensures (State(), r) == CoreModel.UseReducer(old(State()), reducer, init)
    {
      var ok := NextHook();
      if ok.Err? {
        return Err(ok.error);
      }
      var index := currentHookStateIndex.i;
      var hookState := GetCurrentHookState(ReducerSlot(reducer, init));
      var element := UseHostElement();
      r := Ok((hookState.state, Dispatcher(element.value, index)));
    }

    /** `useState(initialState)` (dist/core.mjs:183-196). */
    method UseState(init: Val) returns (r: Result<(Val, Dispatcher)>)
      requires Wf(State()) && ReducerFits(State(), 2)
      modifies this
      ensures (State(), r) == CoreModel.UseState(old(State()), init)
    {
      var ok := NextHook();
      if ok.Err? {
        return Err(ok.error);
      }
      r := UseReducer(StateReducer, init);
    }

    /** A `dispatch(action)` closure is called (dist/core.mjs:177-180). */
    method Dispatch(d: Dispatcher, action: Val)
      requires IsReducerSlot(State(), d)
      modifies this
      ensures State() == CoreModel.Dispatch(env, old(State()), d, action)
      ensures old(Valid()) ==> Valid()
    {
      var hookState := hookStateMap[d.elem][d.index];
      hookState := hookState.(state := Reduce(env, hookState.reducer, hookState.state, action));
      hookStateMap := hookStateMap[d.elem := hookStateMap[d.elem][d.index := hookState]];
      QueueRender(d.elem);
    }

    /** A `useState` setter is called (dist/core.mjs:190-194). */
    method SetState(d: Dispatcher, value: Val)
      requires IsReducerSlot(State(), d)
      modifies this
      ensures State() == CoreModel.SetState(env, old(State()), d, value)
      ensures old(Valid()) ==> Valid()
    {
      Dispatch(d, SetStateAction(value));
    }

    /** `useRenderer(rendererIn)` (dist/core.mjs:197-201). */
    method UseRenderer(rendererIn: Val) returns (r: Result<()>)
      requires Wf(State()) && PlainFits(State(), 1)
      modifies this
      ensures (State(), r) == CoreModel.UseRenderer(old(State()), rendererIn)
    {
      var ok := NextHook();
      if ok.Err? {
        return Err(ok.error);
      }
      var renderer := GetCurrentHookState(Plain(rendererIn));
      var element := UseHostElement();
      renderers := renderers[element.value := renderer.v];
      r := Ok(());
    }

    /** `useEffect(effect, values)` (dist/core.mjs:202-230). */
    method UseEffect(effect: EffectId, values: Deps) returns (r: Result<()>)
      requires Wf(State()) && EffectFits(State(), values)
      modifies this
      ensures (State(), r) == CoreModel.UseEffect(old(State()), effect, values)
    {
      var ok := NextHook();
      if ok.Err? {
        return Err(ok.error);
      }
      var state := GetCurrentHookState(EffectSlot(effect, values, NoopCleanup));
      var e := currentElement.value;
      var i := currentHookStateIndex.i;
      var nothingChanged := false;
      if !SameRef(state.values, values) && state.values.DepArray? && |state.values.items| > 0 {
        nothingChanged := DepsUnchanged(state.values.items, values.items);
        state := state.(values := values);
        hookStateMap := hookStateMap[e := hookStateMap[e][i := state]];
      }
      if !nothingChanged {
        log := log + [CleanupCalled(state.cleanUp)];
        QueueAfterRender(RunEffect(e, i));
      }
      r := Ok(());
    }

    // -------------------------------------------------------------- passable props

    /** `addPassableProps(props)` (dist/core.mjs:48-57). */
    method AddPassableProps(props: Val) returns (id: string)
      modifies this
      ensures (State(), id) == CoreModel.AddPassableProps(old(State()), props)
      ensures old(Valid()) ==> Valid()
    {
      ghost var s0 := State();
      id := HexKeys.ToHex(passPropsId);
      passPropsId := passPropsId + 1;
      if |id| % 2 == 1 {
        id := "0" + id;
      }
      passPropsMap := passPropsMap[id := props];
      if CoreModel.Valid(s0) {
        PassProps.AddIsFresh(s0.props, props);
      }
    }

    /** `getPassableProps(id)` (dist/core.mjs:43-47). */
    method GetPassableProps(id: string) returns (props: Val)
      modifies this
      ensures (State(), props) == CoreModel.GetPassableProps(old(State()), id)
      ensures old(Valid()) ==> Valid()
    {
      ghost var s0 := State();
      props := if id in passPropsMap then passPropsMap[id] else Undefined;
      passPropsMap := passPropsMap - {id};
      if CoreModel.Valid(s0) {
        PassProps.GetKeepsInv(s0.props, id);
      }
    }

    /** `prps(props)` (dist/core.mjs:58-63): the attributes that pass `props` to a
        component, a single `data-props` attribute holding the new key. */
    method Prps(props: Val) returns (attributes: map<string, string>)
      modifies this
      ensures var (s, id) := CoreModel.AddPassableProps(old(State()), props);
        State() == s && attributes == map[PassProps.PROPS_ATTRIBUTE := id]
    {
      var id := AddPassableProps(props);
      attributes := map[PassProps.PROPS_ATTRIBUTE := id];
    }
  }
}
