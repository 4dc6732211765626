# functional-components: hook-state engine and render scheduler

This project models the core of `functional-components` in Dafny. That core is the
engine that lets a custom element's render function keep state between renders. It has
five parts:

- **Hook slots.** Each element has a list of slots, indexed by the order in which hooks
  are called. `currentHookStateIndex` is the cursor over that list.
- **Hooks.** `useReducer`, `useState`, `useEffect` and `useRenderer` are built on the
  slots. Each hook consumes cursor positions through `createHook` and `nextHook`.
- **Render queue and frame batching.** `queueRender` and `unqeue` keep a duplicate-free
  queue and at most one requested animation frame. When the frame fires, its callback
  renders the snapshot taken when the frame was requested.
- **After-render queue.** It holds the callbacks `useEffect` registers. They run once
  `element.render()` returns.
- **Passable-props registry.** `addPassableProps`, `getPassableProps` and `prps` give out
  even-length hexadecimal keys under which a props bundle can be claimed exactly once.

There are two copies of the engine:

- `dist/core.mjs` is the shipped build. Its cursor is `undefined` outside a render, and
  `nextHook` throws there.
- `src/renderer.mjs` is the earlier version. Its cursor is always a number and
  `nextHook` never throws.

The shipped build also holds the pieces of `addComponent` and `defineComponent` that
decide when an element is queued:

- the `skipQueue` gate of `attributeChangedCallback`;
- the props claim at the start of `render()`;
- the first `connectedCallback`;
- the observed-attribute list;
- the registry in which the first definition of a name wins.

## Layout

| file | module | contents |
|---|---|---|
| values.dfy | `Values` | JavaScript values (`Val`), truthiness, element ids |
| hex_keys.dfy | `HexKeys` | `Number.prototype.toString(16)`, the key padding, and decoding |
| scheduler.dfy | `Scheduler` | `queueRender`, `unqeue` and the frame callback's bookkeeping, shared by both copies |
| pass_props.dfy | `PassProps` | the passable-props registry, shared by both copies |
| core_model.dfy | `CoreModel` | the `dist/core.mjs` engine as pure transition functions over its module-level state |
| core_runtime.dfy | `Core` | class `Runtime`, with that state as fields and each function as a method that updates them in place |
| core_properties.dfy | `CoreProperties` | what the engine promises, proved of `CoreModel` |
| components.dfy | `Components` | the element callbacks and the component registry, as functions and as classes |
| renderer_model.dfy, renderer_runtime.dfy, renderer_properties.dfy | `RendererModel`, `Renderer`, `RendererProperties` | the same three layers for `src/renderer.mjs` |

### How the model is built

**Methods and functions.** Every method of `Core.Runtime`, `Renderer.Runtime`,
`Components.ComponentElement` and `Components.ComponentRegistry` is proved against a
pure function: it ensures `State() == F(old(State()), ...)`. The properties are then
lemmas about `F`.

**Animation frames.** `requestAnimationFrame` becomes the field `frame`. It holds the
snapshot the frame's callback will render. `Tick` fires that callback.

**Render functions.** An element's render function is a list of `Step`s: hook calls,
calls of a `dispatch` or setter the render holds, and `queueRender` calls its committed
view makes the host perform. `Tick` is given these lists as `programs: Elem -> seq<Step>`.

**Functions passed by the user.** Reducers, effects and cleanups are named by identity.
An `Env` supplies a user reducer's result and what an effect returns.

**Visible effects.** These are recorded in a log: `element.render()` being called, a
cleanup being called, and an effect being called.

**Slot objects.** `{ reducer, state }` and `{ effect, values, cleanUp }` are mutated in
place by their closures. An object is truthy, so it never leaves its position. The pair
(element, index) therefore identifies it, and a `dispatch` closure or a queued effect
callback holds that pair.

**Preconditions.** The hook-order contract says that what a hook finds at its position
was stored by the same kind of hook. Together with the `TypeError` at
`dist/core.mjs:214`, it is a precondition: `StepOk`, `StepsOk`, `RenderOk` and `TickOk`
simulate the render functions to state it.

### Behaviour worth knowing

- After-render callbacks run in registration order: the loop reads index
  `length - index - 1` while `index` counts down (`dist/core.mjs:15-21`). See
  `CoreProperties.RenderRunsAfterQueue`.
- A stored empty dependency array fails `state.values.length > 0`, so the effect re-runs
  on every render (`dist/core.mjs:209`, `CoreProperties.EmptyDepsAlwaysRerun`).
- The same array reference passed again fails `state.values !== values`, so it re-runs
  too (`CoreProperties.SameArrayAlwaysReruns`). Only a *fresh* array equal item by item
  to a stored non-empty one skips the effect (`CoreProperties.FreshEqualArraySkips`).
- The queue is snapshotted when the frame is requested (`dist/core.mjs:26-28`). An
  element queued twice before its frame fires is in that frame's snapshot and still in the
  queue (`Scheduler.QueuedTwiceInSnapshotAndQueue`). It is rendered in that frame and is
  in the snapshot of the next one (`CoreProperties.QueuedTwiceRendersInTwoFrames`).
- An element still in the queue when a frame callback ends, including one that queued
  itself during its own render, is in the snapshot of the next frame
  (`CoreProperties.RequeuedRendersNext`, `CoreProperties.QueuedDuringRenderRendersNext`).
- `this.init` is set only to `false`, so the early return of `attributeChangedCallback`
  is dead code (`Components.InitNeverSet`).

## Model

| member | source | states |
|---|---|---|
| HexKeys.ToHex | dist/core.mjs:50 | `toString(16)` of the counter is a non-empty lower-case hexadecimal numeral with no leading zero |
| HexKeys.FromHexToHex | dist/core.mjs:50 | reading the hexadecimal key back gives the counter value it was made from |
| HexKeys.PropsKey | dist/core.mjs:50-54 | a key is lower-case hexadecimal of even length and decodes to the counter value |
| HexKeys.LeadingZero | dist/core.mjs:52-54 | padding an odd-length numeral with one "0" keeps its value |
| HexKeys.KeysDistinct | dist/core.mjs:48-54 | distinct counter values give distinct keys |
| HexKeys.FirstKey | dist/core.mjs:48-54 | the first key handed out, for counter 100000, is "0186a0" |
| Scheduler.Enqueue | dist/core.mjs:36-38 | the queue gains the element at its end only if it was absent; it keeps its old prefix and stays duplicate-free |
| Scheduler.QueueRenderSchedules | dist/core.mjs:25-42 | `queueRender` keeps the scheduler invariant and leaves exactly one frame requested. The element is then pending. With no frame outstanding, the new frame's snapshot is the queue plus the element, and the queue is emptied; otherwise the frame is unchanged |
| Scheduler.QueueRenderWhileTicking | dist/core.mjs:35-42 | while a frame callback renders, `queueRender` only appends to the queue and requests no frame |
| Scheduler.QueueAllSchedules | dist/core.mjs:25-42 | after any sequence of `queueRender` calls the invariant holds, a frame is requested, and every queued element is pending |
| Scheduler.PendingStaysPending | dist/core.mjs:35-42 | queueing more elements never drops a pending element |
| Scheduler.QueuedTwiceInSnapshotAndQueue | dist/core.mjs:25-42 | an element queued twice before its frame fires is both in the snapshot and in the queue |
| Scheduler.EndTickRearms | dist/core.mjs:31-32 | the end of a frame callback restores the invariant and requests a new frame exactly when the queue is non-empty; that frame's snapshot is the queue |
| PassProps.AddIsFresh | dist/core.mjs:49-57 | `addPassableProps` returns an unused even-length key that decodes to the counter, stores only that entry, and advances the counter by one |
| PassProps.GetKeepsInv | dist/core.mjs:43-47 | `getPassableProps` keeps the registry invariant and removes exactly the claimed key |
| PassProps.ClaimOnce | dist/core.mjs:43-57 | a stored bundle is returned by the first claim of its key; the second claim returns `undefined` and changes nothing |
| PassProps.AddAllKeys | dist/core.mjs:48-57 | successive keys encode consecutive counter values and are pairwise distinct |
| CoreModel.RunCallbacks | dist/core.mjs:15-21 | running the after-render callbacks calls each one's stored effect once, in registration order. Only cleanups change: every element keeps its hook positions, every other slot is unchanged, and each effect slot keeps its effect and dependency list |
| CoreModel.Render | dist/core.mjs:8-24 | after `render` the cursor is `undefined` again and the after-render queue is empty |
| Core.DepsUnchanged | dist/core.mjs:211-218 | the backward comparison loop ends with `nothingChanged` true exactly when every old item is `===` to the new item at its index |
| Core.Runtime.constructor | dist/core.mjs:1-7 | the loaded module: nothing rendered, queues empty, counter at 100000 |
| Core.Runtime.Unqeue | dist/core.mjs:25-34 | the queue moves into the snapshot of a newly requested frame and `rendering` is set |
| Core.Runtime.QueueRender | dist/core.mjs:35-42 | the scheduler changes as `Scheduler.QueueRender` says, and nothing else changes |
| Core.Runtime.Tick | dist/core.mjs:29-33 | the frame callback renders its snapshot in order, clears `rendering`, and re-arms when the queue refilled |
| Core.Runtime.RenderQueue | dist/core.mjs:30 | the loop over the snapshot renders each element in turn |
| Core.Runtime.Render | dist/core.mjs:8-24 | `render(element)` updates the state exactly as `CoreModel.Render` says |
| Core.Runtime.RunRenderFunction | dist/core.mjs:14 | `element.render()` performs its steps in order |
| Core.Runtime.RunAfterRenderQueue | dist/core.mjs:15-21 | the countdown loop runs the queued callbacks in registration order |
| Core.Runtime.RunCallback | dist/core.mjs:223-228 | the queued callback calls the stored effect, and a truthy return becomes the cleanup |
| Core.Runtime.NextHook | dist/core.mjs:64-69 | the cursor advances by one, or an error is returned when the cursor is `undefined` |
| Core.Runtime.QueueAfterRender | dist/core.mjs:71-73 | the callback is appended to the after-render queue and nothing else changes |
| Core.Runtime.GetCurrentHookState | dist/core.mjs:75-82 | the slot at the cursor is read, or initialised when absent or falsy |
| Core.Runtime.UseHostElement | dist/core.mjs:163-165 | one position is consumed and the rendered element is returned |
| Core.Runtime.UseReducer | dist/core.mjs:169-182 | the engine changes as `CoreModel.UseReducer` says: two positions are consumed, the slot is the first, and the dispatcher targets it |
| Core.Runtime.UseState | dist/core.mjs:183-196 | three positions; `useReducer` runs with the replacing reducer |
| Core.Runtime.Dispatch | dist/core.mjs:177-180 | the slot's state becomes the reducer's result and the element is queued |
| Core.Runtime.SetState | dist/core.mjs:190-194 | a setter dispatches `{ type: "set_state", value }` |
| Core.Runtime.UseRenderer | dist/core.mjs:197-201 | the element's renderer becomes the value stored in the slot |
| Core.Runtime.UseEffect | dist/core.mjs:202-230 | the effect hook updates the state exactly as `CoreModel.UseEffect` says |
| Core.Runtime.AddPassableProps | dist/core.mjs:49-57 | the counter's padded hexadecimal key is returned and the bundle is stored under it |
| Core.Runtime.GetPassableProps | dist/core.mjs:43-47 | the bundle under the key, or `undefined`, is returned and the key is removed |
| Core.Runtime.Prps | dist/core.mjs:58-63 | the attributes returned are a single `data-props` holding the new key |
| CoreProperties.NextHookGuard | dist/core.mjs:64-69 | `nextHook` throws exactly when the cursor is `undefined`, and then changes nothing; otherwise it advances the cursor by one |
| CoreProperties.HooksOnlyDuringRender | dist/core.mjs:8-24 | the first hook of a render uses slot 0, and a hook called after the render throws and changes nothing |
| CoreProperties.GetCurrentHookStateInitOnlyWhenFalsy | dist/core.mjs:75-82 | `init` is stored and returned only when the slot is absent or falsy; otherwise the stored slot is returned and nothing changes |
| CoreProperties.UseReducerShape | dist/core.mjs:169-182 | `useReducer` consumes two positions, and its slot is the first of them. The first render stores `{ reducer, state: init }`; later renders ignore the new arguments. The dispatcher targets that slot |
| CoreProperties.UseStateShape | dist/core.mjs:183-196 | `useState` consumes three positions; its slot is the second, holding the replacing reducer |
| CoreProperties.UseRendererShape | dist/core.mjs:197-201 | `useRenderer` consumes two positions; the renderer is the stored value, `rendererIn` only on the first render |
| CoreProperties.UseHostElementShape | dist/core.mjs:163-165 | `useHostElement` consumes one position and returns the element being rendered |
| CoreProperties.DispatchAppliesNow | dist/core.mjs:177-180 | a dispatch applies the first-render reducer at once and leaves the element pending; only that slot and the scheduler change |
| CoreProperties.DispatchAllFolds | dist/core.mjs:169-182 | N dispatches fold the reducer left to right in call order, and after at least one the element is pending |
| CoreProperties.LastSetWins | dist/core.mjs:183-196 | with the `useState` reducer, the last value set before the next render is the state |
| CoreProperties.UseEffectShape | dist/core.mjs:202-230 | `useEffect` skips exactly when a stored slot exists, the new list is a different reference, the stored list is non-empty, and every stored item is `===` to the new one. Otherwise it calls the current cleanup and queues the effect callback. The new list is stored only when compared |
| CoreProperties.EmptyDepsAlwaysRerun | dist/core.mjs:209 | a stored empty dependency array re-runs the effect on every render |
| CoreProperties.SameArrayAlwaysReruns | dist/core.mjs:209 | passing the same array reference again re-runs the effect and leaves the slot as it was |
| CoreProperties.NoDepsAlwaysRerun | dist/core.mjs:209 | an `undefined` dependency list re-runs the effect on every render |
| CoreProperties.FreshEqualArraySkips | dist/core.mjs:209-219 | a fresh array equal item by item to the stored non-empty one skips the effect and becomes the stored list |
| CoreProperties.RunCallbackCleanup | dist/core.mjs:223-228 | the callback calls the effect stored at the first render; a truthy return replaces the cleanup, a falsy one keeps it |
| CoreProperties.EffectEventsInOrder | dist/core.mjs:15-21 | the callbacks produce one effect call each, in registration order |
| CoreProperties.RenderRunsAfterQueue | dist/core.mjs:14-23 | once `element.render()` returns, every queued callback runs exactly once in registration order; then the queue is empty and the cursor `undefined` |
| CoreProperties.RenderRendersOnce | dist/core.mjs:8-24 | `render(element)` calls `element.render()` once and renders nothing else |
| CoreProperties.RenderAllRendersInOrder | dist/core.mjs:30 | rendering a sequence of elements renders each exactly once, in order |
| CoreProperties.TickRendersSnapshot | dist/core.mjs:29-33 | the frame callback renders exactly its duplicate-free snapshot, in order, and nothing queued meanwhile |
| CoreProperties.TickRearms | dist/core.mjs:29-33 | after the frame callback the engine is valid, the queue is empty, and a next frame is requested exactly when the queue is non-empty as it stands when the callback ends, and that queue is its snapshot |
| CoreProperties.OperationsKeepValid | dist/core.mjs:35-57 | `queueRender`, a dispatch, `addPassableProps` and `getPassableProps` keep the engine valid between frames |
| CoreProperties.HooksOutsideRenderThrow | dist/core.mjs:64-69 | with the cursor `undefined`, `useHostElement`, `useReducer`, `useState`, `useRenderer` and `useEffect` each throw and leave the engine unchanged |
| CoreProperties.ExecKeeps | dist/core.mjs:35-42 | during a frame callback, no hook call, dispatch or `queueRender` removes an element from the queue |
| CoreProperties.ExecQueues | dist/core.mjs:35-42 | during a frame callback, a `queueRender` of an element, or a dispatch to one of its slots, leaves it in the queue |
| CoreProperties.RunStepsKeeps | dist/core.mjs:14 | during a frame callback, a render function never removes an element from the queue |
| CoreProperties.RunStepsQueues | dist/core.mjs:14 | during a frame callback, a render function with a step that queues an element leaves that element in the queue |
| CoreProperties.RenderKeeps | dist/core.mjs:8-24 | during a frame callback, `render(element)` never removes an element from the queue |
| CoreProperties.RenderQueues | dist/core.mjs:8-24 | during a frame callback, a render whose function queues an element leaves that element in the queue |
| CoreProperties.RenderAllKeeps | dist/core.mjs:30 | rendering the snapshot never removes an element from the queue |
| CoreProperties.RenderAllQueues | dist/core.mjs:30 | an element of the snapshot whose render function queues it is in the queue after the snapshot is rendered |
| CoreProperties.RequeuedRendersNext | dist/core.mjs:29-33 | an element in the queue when the frame fires is in the snapshot of the next requested frame |
| CoreProperties.QueuedDuringRenderRendersNext | dist/core.mjs:29-42 | an element that queues itself during its own render is in the snapshot of the next requested frame |
| CoreProperties.QueuedTwiceRendersInTwoFrames | dist/core.mjs:25-42 | an element queued twice with no frame outstanding is in the new frame's snapshot; that frame renders its snapshot, and the element is in the snapshot of the next frame |
| CoreModel.NextHook | dist/core.mjs:64-69 | `nextHook` changes only the cursor and keeps the engine well-formed (its outcome is `CoreProperties.NextHookGuard`) |
| CoreModel.GetCurrentHookState | dist/core.mjs:75-82 | reading a slot during a render keeps the render in progress and drops no effect slot |
| CoreModel.UseHostElement | dist/core.mjs:163-165 | `useHostElement` keeps the engine well-formed |
| CoreModel.UseReducer | dist/core.mjs:169-182 | `useReducer` keeps the engine well-formed and drops no effect slot |
| CoreModel.UseState | dist/core.mjs:183-196 | `useState` keeps the engine well-formed and drops no effect slot |
| CoreModel.Dispatch | dist/core.mjs:177-180 | a dispatch keeps the engine well-formed and drops no effect slot |
| CoreModel.SetState | dist/core.mjs:190-194 | a setter call keeps the engine well-formed and drops no effect slot |
| CoreModel.UseRenderer | dist/core.mjs:197-201 | `useRenderer` keeps the engine well-formed and drops no effect slot |
| CoreModel.UseEffect | dist/core.mjs:202-230 | `useEffect` keeps the engine well-formed, drops no effect slot, and every queued callback still belongs to an effect slot |
| CoreModel.RunCallback | dist/core.mjs:223-228 | a queued effect callback logs one call of the effect stored in its slot. Only cleanups change: every element keeps its hook positions, every other slot is unchanged, and each effect slot keeps its effect and dependency list |
| CoreModel.Reduce | dist/core.mjs:178-186 | the `useState` reducer returns the dispatched value whatever the old state; a user reducer's result is the one `Env` gives |
| CoreModel.ActionValue | dist/core.mjs:184-186 | `action.value`: the value of a `set_state` action, `undefined` for any other action |
| CoreModel.Exec | dist/core.mjs:14 | one step of a render function keeps the engine well-formed and the callbacks valid, keeps the element and the render in progress, renders nothing, leaves the props registry alone, and keeps a frame callback's scheduler state |
| CoreModel.RunSteps | dist/core.mjs:14 | a whole render function has the same guarantees as each of its steps |
| CoreModel.BeginRender | dist/core.mjs:8-14 | the start of `render(element)` makes the element current and sets the cursor to -1. The element keeps its hook list, or gets an empty one when it has none, and every other list is unchanged. One render is logged and nothing else changes |
| CoreModel.RenderAll | dist/core.mjs:30 | rendering a non-empty snapshot ends with the cursor `undefined` and the after-render queue empty, keeps the engine well-formed, the props registry and a frame callback's scheduler state |
| CoreModel.Tick | dist/core.mjs:29-33 | after the frame callback the queue is empty, the callbacks are valid and the props registry is unchanged |
| CoreModel.AddPassableProps | dist/core.mjs:49-57 | only the props registry changes: the bundle is stored under the returned key and the counter advances by one |
| CoreModel.GetPassableProps | dist/core.mjs:43-47 | only the props registry changes: the key is no longer stored and the counter is unchanged |
| Core.Runtime.ExecStep | dist/core.mjs:14 | one step of `element.render()` updates the engine exactly as `CoreModel.Exec` says |
| Scheduler.Unqeue | dist/core.mjs:25-34 | `unqeue` sets `rendering`, requests a frame and empties the queue; a duplicate-free queue gives the scheduler invariant |
| Scheduler.QueueRender | dist/core.mjs:35-42 | `queueRender` sets `rendering`. While rendering it leaves the frame alone and the element is in the queue; otherwise a frame is requested whose snapshot holds the element and the queue is emptied. It keeps the invariant |
| Scheduler.EndTick | dist/core.mjs:31-32 | the end of a frame callback empties the queue, and restores the invariant from a duplicate-free queue during a callback |
| PassProps.Add | dist/core.mjs:49-57 | the key is even-length lower-case hexadecimal and decodes to the counter; exactly that key is added, holding the bundle; the counter advances by one |
| PassProps.Get | dist/core.mjs:43-47 | exactly the key is removed and the counter is unchanged; the stored bundle is returned, or `undefined` when the key is absent |
| Components.HostStep | dist/core.mjs:111-136 | no element callback sets `init` once it is false |
| Components.AttributeChanged | dist/core.mjs:128-136 | an attribute change queues the element only when the values differ and `skipQueue` is unset, and changes nothing else |
| Components.Connected | dist/core.mjs:111-116 | after `connectedCallback` the shadow root is attached |
| Components.TakeProps | dist/core.mjs:118-123 | after the claim the `data-props` attribute is gone whenever it was truthy |
| Components.FinishRender | dist/core.mjs:126 | after `render()` `init` is false |
| Components.InitNeverSet | dist/core.mjs:126-131 | whatever happens to an element, `init` is never true |
| Components.AttributeChangeQueues | dist/core.mjs:128-136 | a change queues the element exactly when the values differ and `skipQueue` is unset; either way `skipQueue` is cleared |
| Components.TakePropsDoesNotQueue | dist/core.mjs:118-123 | claiming props gives the element the stored bundle, removes that key, and does not queue the element |
| Components.PropsReachComponent | dist/core.mjs:118-123 | a bundle passed with its key in `data-props` reaches the new element without queueing it again |
| Components.ConnectQueuesOnce | dist/core.mjs:111-116 | only the first connection queues the element |
| Components.ObservedAttributes | dist/core.mjs:137-145 | `data-props` comes first, followed by the attributes the options name |
| Components.Define | dist/core.mjs:149-156 | after `defineComponent` the name is in the map, and no other name is added |
| Components.DefineKeepsInv | dist/core.mjs:149-156 | a second definition changes nothing, so `customElements.define` is called once per name |
| Components.FirstDefinitionWins | dist/core.mjs:149-156 | after any sequence of definitions, each name maps to the component of its first definition |
| Components.ComponentElement.constructor | dist/core.mjs:106-110 | a new element has no flags set and empty props |
| Components.ComponentElement.AttributeChangedCallback | dist/core.mjs:128-136 | the element and the engine change as `AttributeChanged` says |
| Components.ComponentElement.ConnectedCallback | dist/core.mjs:111-116 | the element and the engine change as `Connected` says |
| Components.ComponentElement.TakePassedProps | dist/core.mjs:118-123 | the element and the engine change as `TakeProps` says |
| Components.ComponentElement.FinishRendering | dist/core.mjs:126 | `init` is set to false and nothing else changes |
| Components.ComponentRegistry.constructor | dist/core.mjs:103 | the registry starts empty |
| Components.ComponentRegistry.DefineComponent | dist/core.mjs:149-156 | the registry changes as `Define` says |
| RendererModel.NextHook | src/renderer.mjs:64-66 | `nextHook` changes only the cursor, moves it forward, and keeps the engine well-formed |
| RendererModel.QueueAfterRender | src/renderer.mjs:68-70 | only the after-render queue changes: it keeps its old contents and gains the callback at its end |
| RendererModel.GetCurrentHookState | src/renderer.mjs:72-79 | only the hook lists change, no element gains or loses a list, and the engine stays well-formed |
| RendererModel.BeginRender | src/renderer.mjs:8-15 | the start of `render(element)` makes the element current and sets the cursor to 0. The element keeps its hook list, or gets an empty one when it has none, and every other list is unchanged. One render is logged and nothing else changes |
| RendererModel.CallbackEvents | src/renderer.mjs:16-22 | the after-render loop produces one event per callback, in registration order |
| RendererModel.Exec | src/renderer.mjs:15 | one call of a render function keeps the engine well-formed, keeps the element being rendered, logs nothing, leaves the props registry alone, and keeps a frame callback's scheduler state |
| RendererModel.RunSteps | src/renderer.mjs:15 | a whole render function has the same guarantees as each of its calls |
| RendererModel.RenderAll | src/renderer.mjs:30 | rendering a non-empty snapshot leaves the after-render queue empty, keeps the engine well-formed, the props registry and a frame callback's scheduler state |
| RendererModel.Tick | src/renderer.mjs:29-33 | after the frame callback the queue is empty, the props registry is unchanged and the engine stays well-formed |
| RendererModel.AddPassableProps | src/renderer.mjs:49-57 | only the props registry changes: the bundle is stored under the returned key and the counter advances by one |
| RendererModel.GetPassableProps | src/renderer.mjs:43-47 | only the props registry changes: the key is no longer stored and the counter is unchanged |
| Renderer.Runtime.ExecStep | src/renderer.mjs:15 | one call of `element.render()` updates the engine exactly as `RendererModel.Exec` says |
| RendererProperties.RunStepsKeeps | src/renderer.mjs:15 | during a frame callback, a render function never removes an element from the queue |
| RendererProperties.RunStepsQueues | src/renderer.mjs:15 | during a frame callback, a render function that calls `queueRender` on an element leaves it in the queue |
| RendererProperties.RenderAllKeeps | src/renderer.mjs:30 | rendering the snapshot never removes an element from the queue |
| RendererProperties.RenderAllQueues | src/renderer.mjs:30 | an element of the snapshot whose render function queues it is in the queue after the snapshot is rendered |
| RendererProperties.RequeuedRendersNext | src/renderer.mjs:29-33 | an element in the queue when the frame fires is in the snapshot of the next requested frame |
| RendererProperties.QueuedDuringRenderRendersNext | src/renderer.mjs:29-42 | an element that queues itself during its own render is in the snapshot of the next requested frame |
| RendererProperties.QueuedTwiceRendersInTwoFrames | src/renderer.mjs:25-42 | an element queued twice with no frame outstanding is in the new frame's snapshot; that frame renders its snapshot, and the element is in the snapshot of the next frame |
| RendererModel.Render | src/renderer.mjs:8-24 | after `render` the after-render queue is empty and the rendered element stays current |
| Renderer.Runtime.constructor | src/renderer.mjs:1-7 | the loaded module: cursor -1, queues empty, counter at 100000 |
| Renderer.Runtime.Unqeue | src/renderer.mjs:25-34 | the queue moves into the snapshot of a newly requested frame |
| Renderer.Runtime.QueueRender | src/renderer.mjs:35-42 | the scheduler changes as `Scheduler.QueueRender` says |
| Renderer.Runtime.Tick | src/renderer.mjs:29-33 | the frame callback renders its snapshot in order and re-arms when the queue refilled |
| Renderer.Runtime.Render | src/renderer.mjs:8-24 | `render(element)` updates the state exactly as `RendererModel.Render` says |
| Renderer.Runtime.RunRenderFunction | src/renderer.mjs:15 | `element.render()` performs its steps in order |
| Renderer.Runtime.RunAfterRenderQueue | src/renderer.mjs:16-22 | the countdown loop calls the queued callbacks in registration order |
| Renderer.Runtime.NextHook | src/renderer.mjs:64-66 | the cursor advances by one |
| Renderer.Runtime.QueueAfterRender | src/renderer.mjs:68-70 | the callback is appended to the queue |
| Renderer.Runtime.GetCurrentHookState | src/renderer.mjs:72-79 | the slot at the cursor is read, or initialised when absent or falsy |
| Renderer.Runtime.AddPassableProps | src/renderer.mjs:49-57 | the counter's padded hexadecimal key is returned and the bundle is stored under it |
| Renderer.Runtime.GetPassableProps | src/renderer.mjs:43-47 | the bundle under the key, or `undefined`, is returned and the key is removed |
| Renderer.Runtime.Prps | src/renderer.mjs:58-63 | a single `data-props` attribute holding the new key |
| RendererProperties.NextHookAlwaysAdvances | src/renderer.mjs:64-66 | `nextHook` never throws: it advances the cursor by exactly one and changes nothing else |
| RendererProperties.RunStepsEffect | src/renderer.mjs:64-70 | a render function moves the cursor once per `nextHook` and appends its callbacks, in call order, to the queue |
| RendererProperties.RenderCursor | src/renderer.mjs:14 | the first hook of a render uses index 1; after the render the cursor is left at the number of `nextHook` calls |
| RendererProperties.HooksAfterRender | src/renderer.mjs:8-24 | after a render, a hook still reaches the hook list of the element rendered last |
| RendererProperties.GetCurrentHookStateInitOnlyWhenFalsy | src/renderer.mjs:72-79 | it throws exactly before any render. Otherwise `init` is stored only when the slot is absent or falsy, and else the stored value is returned with nothing changed |
| RendererProperties.RenderRunsAfterQueue | src/renderer.mjs:16-23 | every queued callback runs exactly once, in registration order, right after `element.render()`, and the queue is then empty |
| RendererProperties.RenderRendersOnce | src/renderer.mjs:8-24 | `render(element)` calls `element.render()` once and renders nothing else |
| RendererProperties.RenderAllRendersInOrder | src/renderer.mjs:30 | rendering a sequence of elements renders each exactly once, in order |
| RendererProperties.TickRendersSnapshot | src/renderer.mjs:29-33 | the frame callback renders exactly its duplicate-free snapshot, in order |
| RendererProperties.TickRearms | src/renderer.mjs:29-33 | after the frame callback the engine is valid and the queue empty, and a next frame is requested exactly when the queue is non-empty as it stands when the callback ends, and that queue is its snapshot |
| RendererProperties.OperationsKeepValid | src/renderer.mjs:35-57 | `queueRender`, `addPassableProps` and `getPassableProps` keep the engine valid |

## Left out

- `defaultRenderer` (`dist/core.mjs:88-101`, `src/renderer.mjs:85-98`) is not modelled: it only manipulates DOM nodes (`NodeList`, `contains`, `innerHTML`, `appendChild`).
- The host side of `addComponent` is not modelled:
  - `HTMLElement`, `attachShadow` (reduced to the flag `attached`);
  - `customElements.define` (recorded as a `Definition`);
  - the calls of the component function and of `this.renderer` inside `render()`.
  - `getAttribute`/`removeAttribute` are reduced to the field `propsAttr`. Removing the attribute is taken to call `attributeChangedCallback` synchronously, as custom elements do.
- The element's props claim and its hook calls are modelled separately (`Components.TakeProps` and `Step`s) and are not combined into one `render()`.
- `useAttribute`, `useShadowRoot`, `useCSS` and `useExposeMethod` are not modelled: they are DOM and dynamic-property side effects. `useShadowRoot` (`dist/core.mjs:166-168`) and `useAttribute` (`dist/core.mjs:231-232`) each consume two cursor positions, so a render using one can be written with two `HostElementCall` steps in its place.
- `requestAnimationFrame` is not modelled. It is replaced by the `frame` field and the `Tick` method. The time at which frames fire is not modelled.
- `Date.now()` in `src/renderer.mjs:9` is not modelled; its value is unused.
- The `console.warn` of a second `defineComponent` is not modelled.
- Exceptions thrown by user render functions, reducers and effects are not modelled. The `TypeError` at `dist/core.mjs:214`, raised when `values` is `undefined` and the stored list is non-empty, is a precondition (`CoreModel.EffectFits`). Calling a hook in a different order in a later render is also a precondition (`ReducerFits`, `PlainFits`).
- The side effects of effects, cleanups and after-render callbacks beyond what the log records are not modelled. In particular, an effect that dispatches or queues more callbacks is not modelled.
- A user reducer's result and an effect's return value are functions of their identity and arguments (`Env`). An effect therefore returns the same cleanup each time it runs.
- In `src/renderer.mjs` the hooks live outside the file. Its render functions are modelled as the engine calls they make: `nextHook`, `getCurrentHookState`, `queueAfterRender` and `queueRender`.
- UseEffect: a dependency array is modelled as a snapshot of its items, taken when it is passed. `state.values = values` (`dist/core.mjs:219`) keeps the caller's live array, and mutating that array in place after it is stored is not modelled. With such a mutation, a later fresh array is compared against the array's new items in the code but against the snapshot in the model.
- `===` on values is modelled as equality of `Val`. Object identity is a reference number, and `NaN !== NaN` is not modelled.
- `passPropsId` is an unbounded natural number. JavaScript numbers lose precision above 2^53, far beyond any reachable count.
- Garbage collection and the identity semantics of `Map` keys are not modelled. Elements are abstract ids.
