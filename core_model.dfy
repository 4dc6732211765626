/** The hook-state engine of dist/core.mjs as pure transition functions over the
    engine's module-level state. The class `Core.Runtime` implements each of them
    imperatively; `CoreProperties` proves what the engine promises about them. */
module CoreModel {
  import opened Values
  import Scheduler
  import PassProps

  /** An effect function passed to `useEffect`, by identity. */
  type EffectId = nat

  /** `currentHookStateIndex`: `undefined` outside a render, a number during one. */
  datatype Cursor = Unset | Index(i: int)

  /** The reducer stored in a `useReducer` slot: the one `useState` builds
      (`(_, action) => action.value`), or a user reducer, by identity. */
  datatype Reducer = StateReducer | UserReducer(id: nat)

  /** A cleanup function: the initial `() => {}` or one returned by an effect. */
  datatype Cleanup = NoopCleanup | UserCleanup(id: nat)

  /** A dependency list: `undefined` or an array, with its identity and its items. */
  datatype Deps = NoDeps | DepArray(ref: nat, items: seq<Val>)

  /** One entry of an element's hook list. `useReducer` and `useEffect` store objects
      (`{ reducer, state }`, `{ effect, values, cleanUp }`), which their closures then
      update in place; `useRenderer` stores the renderer value itself. An object never
      leaves its position, so (element, index) identifies it. */
  datatype Slot =
    | Plain(v: Val)
    | ReducerSlot(reducer: Reducer, state: Val)
    | EffectSlot(effect: EffectId, values: Deps, cleanUp: Cleanup)

  /** `!hookState[i]` is false: objects are truthy, a stored value is as it is. */
  predicate SlotTruthy(slot: Slot) {
    slot.Plain? ==> Truthy(slot.v)
  }

  /** A `dispatch` closure: it holds the element and (the position of) the slot object. */
  datatype Dispatcher = Dispatcher(elem: Elem, index: int)

  /** The after-render callback `useEffect` queues for the effect slot at a position. */
  datatype Callback = RunEffect(elem: Elem, index: int)

  /** What the engine does that is visible outside it: `element.render()` is called,
      a cleanup is called, an effect is called. */
  datatype Event = Rendered(elem: Elem) | CleanupCalled(cleanUp: Cleanup) | EffectCalled(effect: EffectId)

  /** The code the engine calls but does not contain: user reducers, and what each
      effect returns (a cleanup function, or a falsy value). */
  datatype Env = Env(reduce: (nat, Val, Val) -> Val, effectResult: EffectId -> Option<nat>)

  /** The module-level state of dist/core.mjs (lines 1-7, 48), plus the `renderer`
      property `useRenderer` sets on elements and the log of events. */
  datatype State = State(
    current: Option<Elem>,
    cursor: Cursor,
    hooks: map<Elem, map<int, Slot>>,
    sched: Scheduler.Sched,
    props: PassProps.Registry,
    after: seq<Callback>,
    renderers: map<Elem, Val>,
    log: seq<Event>)

  /** `new Error("Using hooks outside of a component is forbidden!")`. */
  datatype UsageError = HooksOutsideComponent

  datatype Result<T> = Ok(value: T) | Err(error: UsageError)

  function Initial(): State {
    State(None, Unset, map[], Scheduler.Sched([], false, None), PassProps.Initial(), [], map[], [])
  }

  /** A render is in progress: the cursor is a number, and the element being rendered
      has a hook list. */
  predicate InRender(s: State) {
    s.cursor.Index? && s.current.Some? && s.current.value in s.hooks
  }

  /** The cursor is a number only during a render. */
  predicate Wf(s: State) {
    s.cursor.Index? ==> InRender(s)
  }

  predicate IsEffectSlot(s: State, e: Elem, i: int) {
    e in s.hooks && i in s.hooks[e] && s.hooks[e][i].EffectSlot?
  }

  predicate IsReducerSlot(s: State, d: Dispatcher) {
    d.elem in s.hooks && d.index in s.hooks[d.elem] && s.hooks[d.elem][d.index].ReducerSlot?
  }

  /** Effect slots stay effect slots. */
  ghost predicate EffectSlotsKept(s: State, r: State) {
    forall e, i :: IsEffectSlot(s, e, i) ==> IsEffectSlot(r, e, i)
  }

  /** Only cleanups change: the same elements have hook lists with the same positions,
      every slot other than an effect slot is as it was, and an effect slot keeps its
      effect and its dependency list. */
  ghost predicate OnlyCleanups(s: State, r: State) {
    && r.hooks.Keys == s.hooks.Keys
    && (forall e :: e in s.hooks ==> r.hooks[e].Keys == s.hooks[e].Keys)
    && (forall e, i :: e in s.hooks && i in s.hooks[e] ==> SameButCleanup(s.hooks[e][i], r.hooks[e][i]))
  }

  predicate SameButCleanup(a: Slot, b: Slot) {
    if a.EffectSlot? then b.EffectSlot? && b.effect == a.effect && b.values == a.values
    else b == a
  }

  /** Each of the callbacks belongs to an effect slot. */
  predicate CallbacksValid(s: State, cbs: seq<Callback>) {
    forall k :: 0 <= k < |cbs| ==> IsEffectSlot(s, cbs[k].elem, cbs[k].index)
  }

  /** Every queued after-render callback belongs to an effect slot. */
  predicate AfterValid(s: State) {
    CallbacksValid(s, s.after)
  }

  lemma CallbacksStayValid(s: State, t: State, cbs: seq<Callback>)
    requires CallbacksValid(s, cbs) && EffectSlotsKept(s, t)
    ensures CallbacksValid(t, cbs)
  {
    forall k | 0 <= k < |cbs| ensures IsEffectSlot(t, cbs[k].elem, cbs[k].index) {
      assert IsEffectSlot(s, cbs[k].elem, cbs[k].index);
    }
  }

  /** Only events other than `Rendered` were logged. */
  predicate NoRenders(s: State, r: State) {
    |s.log| <= |r.log| && r.log[..|s.log|] == s.log
    && forall k :: |s.log| <= k < |r.log| ==> !r.log[k].Rendered?
  }

  // ---------------------------------------------------------------- slots and cursor

  /** `nextHook()` (dist/core.mjs:64-69). */
  function NextHook(s: State): (r: (State, Result<()>))
    ensures r.0 == s.(cursor := r.0.cursor) && (Wf(s) ==> Wf(r.0))
  {
    if s.cursor.Unset? then (s, Err(HooksOutsideComponent))
    else (s.(cursor := Index(s.cursor.i + 1)), Ok(()))
  }

  /** `getCurrentHookState(initialState)` (dist/core.mjs:75-82). */
  function GetCurrentHookState(s: State, init: Slot): (r: (State, Slot))
    requires InRender(s)
    ensures InRender(r.0) && EffectSlotsKept(s, r.0)
  {
    var e := s.current.value;
    var list := s.hooks[e];
    var i := s.cursor.i;
    if i !in list || !SlotTruthy(list[i]) then (s.(hooks := s.hooks[e := list[i := init]]), init)
    else (s, list[i])
  }

  /** The truthy slot a hook would find `offset` positions after the cursor, if any. */
  function Existing(s: State, offset: int): Option<Slot> {
    if InRender(s) && s.cursor.i + offset in s.hooks[s.current.value]
       && SlotTruthy(s.hooks[s.current.value][s.cursor.i + offset])
    then Some(s.hooks[s.current.value][s.cursor.i + offset])
    else None
  }

  /** The hook-order contract: what a hook finds at its position, if anything, was
      stored by the same kind of hook. */
  predicate ReducerFits(s: State, offset: int) {
    Existing(s, offset).Some? ==> Existing(s, offset).value.ReducerSlot?
  }

  predicate PlainFits(s: State, offset: int) {
    Existing(s, offset).Some? ==> Existing(s, offset).value.Plain?
  }

  /** For `useEffect`, also: the comparison loop is not entered with `values`
      undefined (`values[index]` would throw a TypeError). */
  predicate EffectFits(s: State, values: Deps) {
    Existing(s, 1).Some? ==>
      Existing(s, 1).value.EffectSlot?
      && !(Compared(Existing(s, 1).value.values, values) && values.NoDeps?)
  }

  /** `getCurrentElement()` and `useHostElement()` (dist/core.mjs:84-86, 163-165). */
  function UseHostElement(s: State): (r: (State, Result<Elem>))
    requires Wf(s)
    ensures Wf(r.0)
  {
    var (s1, ok) := NextHook(s);
    if ok.Err? then (s, Err(ok.error)) else (s1, Ok(s1.current.value))
  }

  // ---------------------------------------------------------------- reducer and state

  /** `hookState.reducer(hookState.state, action)`: the `useState` reducer returns the
      value a setter dispatched whatever the old state; a user reducer is the `Env`'s. */
  function Reduce(env: Env, reducer: Reducer, state: Val, action: Val): (r: Val)
    ensures reducer.StateReducer? && action.SetStateAction? ==> r == action.value
    ensures reducer.UserReducer? ==> r == env.reduce(reducer.id, state, action)
  {
    match reducer
    case StateReducer => ActionValue(action)
    case UserReducer(id) => env.reduce(id, state, action)
  }

  /** `action.value` for the actions a `useState` setter dispatches. */
  function ActionValue(action: Val): (r: Val)
    ensures action.SetStateAction? ==> r == action.value
    ensures !action.SetStateAction? ==> r == Undefined
  {
    match action
    case SetStateAction(v) => v
    case _ => Undefined
  }

  /** `useReducer(reducer, initialState)` (dist/core.mjs:169-182): the state and dispatch. */
  function UseReducer(s: State, reducer: Reducer, init: Val): (r: (State, Result<(Val, Dispatcher)>))
    requires Wf(s) && ReducerFits(s, 1)
    ensures Wf(r.0) && EffectSlotsKept(s, r.0)
  {
    var (s1, ok) := NextHook(s);
    if ok.Err? then (s, Err(ok.error))
    else
      var (s2, slot) := GetCurrentHookState(s1, ReducerSlot(reducer, init));
      var s3 := UseHostElement(s2).0;
      (s3, Ok((slot.state, Dispatcher(s1.current.value, s1.cursor.i))))
  }

  /** `useState(initialState)` (dist/core.mjs:183-196): `useReducer` with the reducer
      that replaces the state by the dispatched value. */
  function UseState(s: State, init: Val): (r: (State, Result<(Val, Dispatcher)>))
    requires Wf(s) && ReducerFits(s, 2)
    ensures Wf(r.0) && EffectSlotsKept(s, r.0)
  {
    var (s1, ok) := NextHook(s);
    if ok.Err? then (s, Err(ok.error)) else UseReducer(s1, StateReducer, init)
  }

  /** Calling a `dispatch(action)` closure (dist/core.mjs:177-180): the new state is
      computed at once, then the element is queued for rendering. */
  function Dispatch(env: Env, s: State, d: Dispatcher, action: Val): (r: State)
    requires IsReducerSlot(s, d)
    ensures (Wf(s) ==> Wf(r)) && EffectSlotsKept(s, r)
  {
    var slot := s.hooks[d.elem][d.index];
    var slot' := slot.(state := Reduce(env, slot.reducer, slot.state, action));
    s.(hooks := s.hooks[d.elem := s.hooks[d.elem][d.index := slot']],
       sched := Scheduler.QueueRender(s.sched, d.elem))
  }

  /** Calling a `useState` setter `newState => dispatch({ type: "set_state", value: newState })`. */
  function SetState(env: Env, s: State, d: Dispatcher, value: Val): (r: State)
    requires IsReducerSlot(s, d)
    ensures (Wf(s) ==> Wf(r)) && EffectSlotsKept(s, r)
  {
    Dispatch(env, s, d, SetStateAction(value))
  }

  // ---------------------------------------------------------------- renderer

  /** `useRenderer(rendererIn)` (dist/core.mjs:197-201): the element's renderer becomes
      the value stored in the slot. */
  function UseRenderer(s: State, renderer: Val): (r: (State, Result<()>))
    requires Wf(s) && PlainFits(s, 1)
    ensures Wf(r.0) && EffectSlotsKept(s, r.0)
  {
    var (s1, ok) := NextHook(s);
    if ok.Err? then (s, Err(ok.error))
    else
      var (s2, slot) := GetCurrentHookState(s1, Plain(renderer));
      var s3 := UseHostElement(s2).0;
      (s3.(renderers := s3.renderers[s1.current.value := slot.v]), Ok(()))
  }

  // ---------------------------------------------------------------- effect

  /** `state.values !== values` is false. */
  predicate SameRef(a: Deps, b: Deps) {
    (a.NoDeps? && b.NoDeps?) || (a.DepArray? && b.DepArray? && a.ref == b.ref)
  }

  /** `state.values !== values && state.values && state.values.length > 0`: the
      condition under which the dependency lists are compared. */
  predicate Compared(prev: Deps, values: Deps) {
    !SameRef(prev, values) && prev.DepArray? && |prev.items| > 0
  }

  /** `values[index]`: an index past the end reads `undefined`. */
  function ItemAt(items: seq<Val>, j: nat): Val {
    if j < |items| then items[j] else Undefined
  }

  /** Every old item is `===` to the new item at the same index. */
  predicate ItemsUnchanged(prev: seq<Val>, items: seq<Val>) {
    forall j :: 0 <= j < |prev| ==> ItemAt(items, j) == prev[j]
  }

  /** `nothingChanged` once the comparison is done. */
  predicate NothingChanged(prev: Deps, values: Deps)
    requires Compared(prev, values) ==> values.DepArray?
  {
    Compared(prev, values) && ItemsUnchanged(prev.items, values.items)
  }

  /** `useEffect(effect, values)` (dist/core.mjs:202-230). */
  function UseEffect(s: State, effect: EffectId, values: Deps): (r: (State, Result<()>))
    requires Wf(s) && EffectFits(s, values)
    ensures Wf(r.0) && EffectSlotsKept(s, r.0)
    ensures AfterValid(s) ==> AfterValid(r.0)
  {
    var (s1, ok) := NextHook(s);
    if ok.Err? then (s, Err(ok.error))
    else
      var (s2, slot) := GetCurrentHookState(s1, EffectSlot(effect, values, NoopCleanup));
      var e := s1.current.value;
      var i := s1.cursor.i;
      var compared := Compared(slot.values, values);
      var slot' := if compared then slot.(values := values) else slot;
      var s3 := if compared then s2.(hooks := s2.hooks[e := s2.hooks[e][i := slot']]) else s2;
      if NothingChanged(slot.values, values) then (s3, Ok(()))
      else (s3.(log := s3.log + [CleanupCalled(slot'.cleanUp)], after := s3.after + [RunEffect(e, i)]), Ok(()))
  }

  /** The callback `useEffect` queued (dist/core.mjs:223-228): call the stored effect;
      a truthy return becomes the slot's cleanup. */
  function RunCallback(env: Env, s: State, cb: Callback): (r: State)
    requires IsEffectSlot(s, cb.elem, cb.index)
    ensures EffectSlotsKept(s, r) && OnlyCleanups(s, r)
    ensures r == s.(hooks := r.hooks, log := r.log) && r.log == s.log + [EffectCalled(s.hooks[cb.elem][cb.index].effect)]
  {
    var slot := s.hooks[cb.elem][cb.index];
    var s1 := s.(log := s.log + [EffectCalled(slot.effect)]);
    match env.effectResult(slot.effect)
    case Some(c) =>
      s1.(hooks := s1.hooks[cb.elem := s1.hooks[cb.elem][cb.index := slot.(cleanUp := UserCleanup(c))]])
    case None => s1
  }

  // ---------------------------------------------------------------- rendering

  /** What an element's render function does, one step at a time: it calls a hook, calls
      a dispatch or setter it holds, or (through the view it commits, for instance an
      attached child or a changed attribute) makes the host call `queueRender`. */
  datatype Step =
    | HostElementCall
    | ReducerCall(reducer: nat, init: Val)
    | StateCall(init: Val)
    | RendererCall(renderer: Val)
    | EffectCall(effect: EffectId, values: Deps)
    | DispatchCall(d: Dispatcher, action: Val)
    | SetStateCall(d: Dispatcher, value: Val)
    | QueueRenderCall(elem: Elem)

  /** The step keeps the hook-order contract and throws nothing. */
  predicate StepOk(s: State, step: Step) {
    match step
    case HostElementCall => true
    case ReducerCall(_, _) => ReducerFits(s, 1)
    case StateCall(_) => ReducerFits(s, 2)
    case RendererCall(_) => PlainFits(s, 1)
    case EffectCall(_, values) => EffectFits(s, values)
    case DispatchCall(d, _) => IsReducerSlot(s, d)
    case SetStateCall(d, _) => IsReducerSlot(s, d)
    case QueueRenderCall(_) => true
  }

  function Exec(env: Env, s: State, step: Step): (r: State)
    requires Wf(s) && StepOk(s, step)
    ensures Wf(r) && EffectSlotsKept(s, r)
    ensures AfterValid(s) ==> AfterValid(r)
    ensures r.current == s.current && (s.cursor.Index? ==> r.cursor.Index?)
    ensures NoRenders(s, r) && r.props == s.props
    ensures Scheduler.Ticking(s.sched) ==> Scheduler.Ticking(r.sched)
  {
    match step
    case HostElementCall => UseHostElement(s).0
    case ReducerCall(f, init) => UseReducer(s, UserReducer(f), init).0
    case StateCall(init) => UseState(s, init).0
    case RendererCall(f) => UseRenderer(s, f).0
    case EffectCall(f, values) => UseEffect(s, f, values).0
    case DispatchCall(d, action) => Dispatch(env, s, d, action)
    case SetStateCall(d, value) => SetState(env, s, d, value)
    case QueueRenderCall(e) => s.(sched := Scheduler.QueueRender(s.sched, e))
  }

  /** Running the steps in order keeps the hook-order contract throughout. */
  predicate StepsOk(env: Env, s: State, steps: seq<Step>)
    requires Wf(s)
    decreases |steps|
  {
    steps == [] || (StepOk(s, steps[0]) && StepsOk(env, Exec(env, s, steps[0]), steps[1..]))
  }

  function RunSteps(env: Env, s: State, steps: seq<Step>): (r: State)
    requires Wf(s) && StepsOk(env, s, steps)
    ensures Wf(r) && EffectSlotsKept(s, r)
    ensures AfterValid(s) ==> AfterValid(r)
    ensures r.current == s.current && (s.cursor.Index? ==> r.cursor.Index?)
    ensures NoRenders(s, r) && r.props == s.props
    ensures Scheduler.Ticking(s.sched) ==> Scheduler.Ticking(r.sched)
    decreases |steps|
  {
    if steps == [] then s else RunSteps(env, Exec(env, s, steps[0]), steps[1..])
  }

  /** The events of running the effects of `cbs`, in order. */
  function EffectEvents(s: State, cbs: seq<Callback>): seq<Event>
    requires CallbacksValid(s, cbs)
  {
    if cbs == [] then []
    else
      assert IsEffectSlot(s, cbs[0].elem, cbs[0].index);
      [EffectCalled(s.hooks[cbs[0].elem][cbs[0].index].effect)] + EffectEvents(s, cbs[1..])
  }

  /** The events depend only on the effects stored in the slots. */
  lemma {:induction false} EffectEventsAgree(s: State, t: State, cbs: seq<Callback>)
    requires CallbacksValid(s, cbs)
    requires forall e, i :: IsEffectSlot(s, e, i) ==> IsEffectSlot(t, e, i) && t.hooks[e][i].effect == s.hooks[e][i].effect
    ensures CallbacksValid(t, cbs)
    ensures EffectEvents(t, cbs) == EffectEvents(s, cbs)
    decreases |cbs|
  {
    if cbs != [] {
      EffectEventsAgree(s, t, cbs[1..]);
    }
  }

  /** Running the after-render callbacks `cbs` in order; each calls the effect stored in
      its slot exactly once, in registration order, and only cleanups change. */
  function RunCallbacks(env: Env, s: State, cbs: seq<Callback>): (r: State)
    requires CallbacksValid(s, cbs)
    ensures EffectSlotsKept(s, r) && r == s.(hooks := r.hooks, log := r.log)
    ensures r.log == s.log + EffectEvents(s, cbs)
    ensures forall e, i :: IsEffectSlot(s, e, i) ==> r.hooks[e][i].effect == s.hooks[e][i].effect
    ensures OnlyCleanups(s, r)
    decreases |cbs|
  {
    if cbs == [] then s
    else
      var s1 := RunCallback(env, s, cbs[0]);
      EffectEventsAgree(s, s1, cbs[1..]);
      RunCallbacks(env, s1, cbs[1..])
  }

  /** The first callback runs, then the rest. */
  lemma RunCallbacksStep(env: Env, s: State, cbs: seq<Callback>)
    requires cbs != [] && CallbacksValid(s, cbs)
    ensures CallbacksValid(RunCallback(env, s, cbs[0]), cbs[1..])
    ensures RunCallbacks(env, s, cbs) == RunCallbacks(env, RunCallback(env, s, cbs[0]), cbs[1..])
  {
    CallbacksStayValid(s, RunCallback(env, s, cbs[0]), cbs[1..]);
  }

  /** `render(element)` up to `element.render()`: the element becomes current, gets an
      empty hook list if it has none, and the cursor is set to -1. */
  function BeginRender(s: State, e: Elem): (r: State)
    ensures InRender(r) && r.current == Some(e) && r.cursor == Index(-1)
    ensures r.log == s.log + [Rendered(e)]
    ensures r.hooks == s.hooks[e := if e in s.hooks then s.hooks[e] else map[]]
    ensures r == s.(current := r.current, cursor := r.cursor, hooks := r.hooks, log := r.log)
  {
    s.(current := Some(e),
       hooks := if e in s.hooks then s.hooks else s.hooks[e := map[]],
       cursor := Index(-1),
       log := s.log + [Rendered(e)])
  }

  predicate RenderOk(env: Env, s: State, e: Elem, steps: seq<Step>) {
    StepsOk(env, BeginRender(s, e), steps)
  }

  /** `render(element)` (dist/core.mjs:8-24), with `element.render()` running `steps`. */
  function Render(env: Env, s: State, e: Elem, steps: seq<Step>): (r: State)
    requires AfterValid(s) && RenderOk(env, s, e, steps)
    ensures Wf(r) && r.cursor.Unset? && r.after == [] && r.props == s.props
    ensures Scheduler.Ticking(s.sched) ==> Scheduler.Ticking(r.sched)
  {
    var s1 := BeginRender(s, e);
    assert AfterValid(s1) by {
      assert forall k :: 0 <= k < |s.after| ==>
        IsEffectSlot(s, s.after[k].elem, s.after[k].index);
    }
    var s2 := RunSteps(env, s1, steps);
    var s3 := RunCallbacks(env, s2, s2.after);
    s3.(after := [], cursor := Unset)
  }

  /** `render` in three parts: the element becomes current, its render function runs,
      then the after-render queue. */
  lemma RenderParts(env: Env, s: State, e: Elem, steps: seq<Step>)
    requires AfterValid(s) && RenderOk(env, s, e, steps)
    ensures var s1 := BeginRender(s, e);
      Wf(s1) && AfterValid(s1) && StepsOk(env, s1, steps)
      && var s2 := RunSteps(env, s1, steps);
      AfterValid(s2)
      && Render(env, s, e, steps) == RunCallbacks(env, s2, s2.after).(after := [], cursor := Unset)
  {
    assert AfterValid(BeginRender(s, e)) by {
      assert forall k :: 0 <= k < |s.after| ==>
        IsEffectSlot(s, s.after[k].elem, s.after[k].index);
    }
  }

  predicate RenderAllOk(env: Env, s: State, es: seq<Elem>, programs: Elem -> seq<Step>)
    requires AfterValid(s)
    decreases |es|
  {
    es == [] ||
    (RenderOk(env, s, es[0], programs(es[0]))
     && RenderAllOk(env, Render(env, s, es[0], programs(es[0])), es[1..], programs))
  }

  /** `queue.forEach(element => render(element))`. */
  function RenderAll(env: Env, s: State, es: seq<Elem>, programs: Elem -> seq<Step>): (r: State)
    requires AfterValid(s) && RenderAllOk(env, s, es, programs)
    ensures AfterValid(r) && (Wf(s) ==> Wf(r))
    ensures es != [] ==> r.cursor.Unset? && r.after == []
    ensures r.props == s.props
    ensures Scheduler.Ticking(s.sched) ==> Scheduler.Ticking(r.sched)
    decreases |es|
  {
    if es == [] then s
    else RenderAll(env, Render(env, s, es[0], programs(es[0])), es[1..], programs)
  }

  /** The first element of `queue.forEach(element => render(element))`, then the rest. */
  lemma RenderAllFirst(env: Env, s: State, es: seq<Elem>, programs: Elem -> seq<Step>)
    requires es != [] && AfterValid(s) && RenderAllOk(env, s, es, programs)
    ensures RenderOk(env, s, es[0], programs(es[0]))
    ensures var s1 := Render(env, s, es[0], programs(es[0]));
      AfterValid(s1) && RenderAllOk(env, s1, es[1..], programs)
      && RenderAll(env, s, es, programs) == RenderAll(env, s1, es[1..], programs)
  {
  }

  predicate TickOk(env: Env, s: State, programs: Elem -> seq<Step>)
    requires s.sched.frame.Some? && AfterValid(s)
  {
    RenderAllOk(env, s.(sched := Scheduler.BeginTick(s.sched)), s.sched.frame.value, programs)
  }

  /** The frame callback (dist/core.mjs:29-33): render the snapshot, clear `rendering`,
      and request another frame if elements were queued meanwhile. */
  function Tick(env: Env, s: State, programs: Elem -> seq<Step>): (r: State)
    requires s.sched.frame.Some? && AfterValid(s) && TickOk(env, s, programs)
    ensures r.sched.renderQueue == [] && AfterValid(r) && r.props == s.props
  {
    var s2 := RenderAll(env, s.(sched := Scheduler.BeginTick(s.sched)), s.sched.frame.value, programs);
    s2.(sched := Scheduler.EndTick(s2.sched))
  }

  // ---------------------------------------------------------------- passable props

  /** `addPassableProps(props)` (dist/core.mjs:49-57). */
  function AddPassableProps(s: State, props: Val): (r: (State, string))
    ensures r.0 == s.(props := r.0.props)
    ensures r.1 in r.0.props.entries && r.0.props.entries[r.1] == props
    ensures r.0.props.nextId == s.props.nextId + 1
  {
    var (reg, id) := PassProps.Add(s.props, props);
    (s.(props := reg), id)
  }

  /** `getPassableProps(id)` (dist/core.mjs:43-47). */
  function GetPassableProps(s: State, id: string): (r: (State, Val))
    ensures r.0 == s.(props := r.0.props)
    ensures id !in r.0.props.entries && r.0.props.nextId == s.props.nextId
  {
    var (reg, props) := PassProps.Get(s.props, id);
    (s.(props := reg), props)
  }

  /** The engine between two operations: no render in progress, nothing queued to run
      after a render, and the scheduler and registry invariants. */
  predicate Valid(s: State) {
    s.cursor.Unset? && s.after == [] && Scheduler.Inv(s.sched) && PassProps.Inv(s.props)
  }
}
