/** The earlier engine of src/renderer.mjs as pure transition functions. It shares
    the render queue and the passable-props registry with dist/core.mjs; it differs
    in its cursor, which is always a number: -1 when the module loads, 0 at the start
    of each render, never reset afterwards, and `nextHook` never throws. Its hooks
    live elsewhere; what runs in a render is `nextHook`, `getCurrentHookState`,
    `queueAfterRender` and `queueRender` calls. */
module RendererModel {
  import opened Values
  import Scheduler
  import PassProps

  /** What the engine does that is visible outside it: `element.render()` is called,
      an after-render callback is called. */
  datatype Event = Rendered(elem: Elem) | CallbackRan(callback: nat)

  /** The module-level state of src/renderer.mjs (lines 1-7, 48) and the log. Slots
      hold values; after-render callbacks are named by identity. */
  datatype State = State(
    current: Option<Elem>,
    cursor: int,
    hooks: map<Elem, map<int, Val>>,
    sched: Scheduler.Sched,
    props: PassProps.Registry,
    after: seq<nat>,
    log: seq<Event>)

  function Initial(): State {
    State(None, -1, map[], Scheduler.Sched([], false, None), PassProps.Initial(), [], [])
  }

  /** Once an element has been rendered, it stays current and has a hook list. */
  predicate Wf(s: State) {
    s.current.Some? ==> s.current.value in s.hooks
  }

  /** `nextHook()` (src/renderer.mjs:64-66). */
  function NextHook(s: State): (r: State)
    ensures r == s.(cursor := r.cursor) && r.cursor > s.cursor && (Wf(s) ==> Wf(r))
  {
    s.(cursor := s.cursor + 1)
  }

  /** `queueAfterRender(callback)` (src/renderer.mjs:68-70). */
  function QueueAfterRender(s: State, cb: nat): (r: State)
    ensures r == s.(after := r.after) && (Wf(s) ==> Wf(r))
    ensures |r.after| == |s.after| + 1 && r.after[..|s.after|] == s.after && r.after[|s.after|] == cb
  {
    s.(after := s.after + [cb])
  }

  /** `getCurrentHookState(initialState)` (src/renderer.mjs:72-79). Before any render
      `currentElement` is `undefined`, so `hookState` is `undefined` and reading its
      index throws a TypeError: the result is `None` and nothing changes. */
  function GetCurrentHookState(s: State, init: Val): (r: (State, Option<Val>))
    requires Wf(s)
    ensures Wf(r.0) && r.0 == s.(hooks := r.0.hooks) && r.0.hooks.Keys == s.hooks.Keys
  {
    if s.current.None? then (s, None)
    else
      var list := s.hooks[s.current.value];
      if s.cursor !in list || !Truthy(list[s.cursor]) then
        (s.(hooks := s.hooks[s.current.value := list[s.cursor := init]]), Some(init))
      else (s, Some(list[s.cursor]))
  }

  /** What a render function does, one call at a time. */
  datatype Step =
    | NextHookCall
    | HookStateCall(init: Val)
    | AfterRenderCall(callback: nat)
    | QueueRenderCall(elem: Elem)

  function Exec(s: State, step: Step): (r: State)
    requires Wf(s)
    ensures Wf(r) && r.current == s.current && r.log == s.log && r.props == s.props
    ensures Scheduler.Ticking(s.sched) ==> Scheduler.Ticking(r.sched)
  {
    match step
    case NextHookCall => NextHook(s)
    case HookStateCall(init) => GetCurrentHookState(s, init).0
    case AfterRenderCall(cb) => QueueAfterRender(s, cb)
    case QueueRenderCall(e) => s.(sched := Scheduler.QueueRender(s.sched, e))
  }

  function RunSteps(s: State, steps: seq<Step>): (r: State)
    requires Wf(s)
    ensures Wf(r) && r.current == s.current && r.log == s.log && r.props == s.props
    ensures Scheduler.Ticking(s.sched) ==> Scheduler.Ticking(r.sched)
    decreases |steps|
  {
    if steps == [] then s else RunSteps(Exec(s, steps[0]), steps[1..])
  }

  /** The events of calling the callbacks, in order. */
  function CallbackEvents(cbs: seq<nat>): (evs: seq<Event>)
    ensures |evs| == |cbs| && forall k :: 0 <= k < |cbs| ==> evs[k] == CallbackRan(cbs[k])
  {
    if cbs == [] then [] else [CallbackRan(cbs[0])] + CallbackEvents(cbs[1..])
  }

  /** `render(element)` up to `element.render()` (src/renderer.mjs:10-14). */
  function BeginRender(s: State, e: Elem): (r: State)
    ensures Wf(r) && r.current == Some(e) && r.cursor == 0
    ensures r.log == s.log + [Rendered(e)]
    ensures r.hooks.Keys == s.hooks.Keys + {e} && forall x :: x in s.hooks ==> r.hooks[x] == s.hooks[x]
    ensures e !in s.hooks ==> r.hooks[e] == map[]
    ensures r == s.(current := r.current, cursor := r.cursor, hooks := r.hooks, log := r.log)
  {
    s.(current := Some(e),
       hooks := if e in s.hooks then s.hooks else s.hooks[e := map[]],
       cursor := 0,
       log := s.log + [Rendered(e)])
  }

  /** `render(element)` (src/renderer.mjs:8-24), with `element.render()` running
      `steps`. The after-render queue runs in registration order and is then
      emptied; the cursor is left where the render function left it. */
  function Render(s: State, e: Elem, steps: seq<Step>): (r: State)
    ensures Wf(r) && r.current == Some(e) && r.after == [] && r.props == s.props
    ensures Scheduler.Ticking(s.sched) ==> Scheduler.Ticking(r.sched)
  {
    var s2 := RunSteps(BeginRender(s, e), steps);
    s2.(log := s2.log + CallbackEvents(s2.after), after := [])
  }

  /** `queue.forEach(element => render(element))`. */
  function RenderAll(s: State, es: seq<Elem>, programs: Elem -> seq<Step>): (r: State)
    ensures es != [] ==> r.after == []
    ensures (Wf(s) ==> Wf(r)) && r.props == s.props
    ensures Scheduler.Ticking(s.sched) ==> Scheduler.Ticking(r.sched)
    decreases |es|
  {
    if es == [] then s else RenderAll(Render(s, es[0], programs(es[0])), es[1..], programs)
  }

  /** The frame callback (src/renderer.mjs:29-33). */
  function Tick(s: State, programs: Elem -> seq<Step>): (r: State)
    requires s.sched.frame.Some?
    ensures r.sched.renderQueue == [] && r.props == s.props && (Wf(s) ==> Wf(r))
  {
    var s2 := RenderAll(s.(sched := Scheduler.BeginTick(s.sched)), s.sched.frame.value, programs);
    s2.(sched := Scheduler.EndTick(s2.sched))
  }

  /** `addPassableProps(props)` (src/renderer.mjs:48-57). */
  function AddPassableProps(s: State, props: Val): (r: (State, string))
    ensures r.0 == s.(props := r.0.props)
    ensures r.1 in r.0.props.entries && r.0.props.entries[r.1] == props
    ensures r.0.props.nextId == s.props.nextId + 1
  {
    var (reg, id) := PassProps.Add(s.props, props);
    (s.(props := reg), id)
  }

  /** `getPassableProps(id)` (src/renderer.mjs:43-47). */
  function GetPassableProps(s: State, id: string): (r: (State, Val))
    ensures r.0 == s.(props := r.0.props)
    ensures id !in r.0.props.entries && r.0.props.nextId == s.props.nextId
  {
    var (reg, props) := PassProps.Get(s.props, id);
    (s.(props := reg), props)
  }

  /** The engine between two frames. */
  predicate Valid(s: State) {
    Wf(s) && s.after == [] && Scheduler.Inv(s.sched) && PassProps.Inv(s.props)
  }
}
