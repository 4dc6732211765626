/** What dist/core.mjs promises about its hooks, its after-render queue and its frame
    callback, proved of the transition functions in `CoreModel` (which `Core.Runtime`
    implements). */
module CoreProperties {
  import opened Values
  import opened CoreModel
  import Scheduler
  import PassProps

  // ---------------------------------------------------------------- cursor

  /** `nextHook` throws exactly when the cursor is `undefined`, and then changes
      nothing; otherwise it advances the cursor by one and changes nothing else. */
  lemma NextHookGuard(s: State)
    ensures NextHook(s).1.Err? <==> s.cursor.Unset?
    ensures s.cursor.Unset? ==> NextHook(s).0 == s
    ensures s.cursor.Index? ==> NextHook(s).0 == s.(cursor := Index(s.cursor.i + 1))
  {
  }

  /** `render` sets the cursor to -1, so the first hook of a render uses slot 0, and
      resets it to `undefined` afterwards, so a hook called after the render throws. */
  lemma HooksOnlyDuringRender(env: Env, s: State, e: Elem, steps: seq<Step>)
    requires AfterValid(s) && RenderOk(env, s, e, steps)
    ensures NextHook(BeginRender(s, e)).0.cursor == Index(0)
    ensures NextHook(Render(env, s, e, steps)).1 == Err(HooksOutsideComponent)
    ensures NextHook(Render(env, s, e, steps)).0 == Render(env, s, e, steps)
  {
  }

  /** Every hook called outside a render throws the usage error and changes nothing. */
  lemma HooksOutsideRenderThrow(s: State, reducer: Reducer, init: Val, renderer: Val, effect: EffectId, values: Deps)
    requires s.cursor.Unset?
    ensures UseHostElement(s) == (s, Err(HooksOutsideComponent))
    ensures UseReducer(s, reducer, init) == (s, Err(HooksOutsideComponent))
    ensures UseState(s, init) == (s, Err(HooksOutsideComponent))
    ensures UseRenderer(s, renderer) == (s, Err(HooksOutsideComponent))
    ensures UseEffect(s, effect, values) == (s, Err(HooksOutsideComponent))
  {
  }

  // ---------------------------------------------------------------- slots

  /** `getCurrentHookState(init)` stores `init` only when the slot at the cursor is
      absent or falsy, and returns it; otherwise it returns the stored slot and
      changes nothing. */
  lemma GetCurrentHookStateInitOnlyWhenFalsy(s: State, init: Slot)
    requires InRender(s)
    ensures var (r, slot) := GetCurrentHookState(s, init);
      var list := s.hooks[s.current.value];
      var i := s.cursor.i;
      if i in list && SlotTruthy(list[i]) then r == s && slot == list[i]
      else slot == init && r == s.(hooks := s.hooks[s.current.value := list[i := init]])
  {
  }

  /** `useReducer` takes two positions (its own and the nested `useHostElement`); its
      slot is the first. On the first render the slot is `{ reducer, state: init }`;
      later the stored slot is returned untouched, so the reducer and state passed
      again are ignored. The dispatcher points at the slot of the rendered element. */
  lemma UseReducerShape(s: State, reducer: Reducer, init: Val)
    requires InRender(s) && ReducerFits(s, 1)
    ensures var (r, res) := UseReducer(s, reducer, init);
      var e := s.current.value;
      var i := s.cursor.i + 1;
      res.Ok? && r.cursor == Index(s.cursor.i + 2)
      && r == s.(cursor := r.cursor, hooks := r.hooks)
      && res.value.1 == Dispatcher(e, i) && IsReducerSlot(r, res.value.1)
      && (if Existing(s, 1).Some?
          then r.hooks == s.hooks && res.value.0 == Existing(s, 1).value.state
          else r.hooks == s.hooks[e := s.hooks[e][i := ReducerSlot(reducer, init)]] && res.value.0 == init)
  {
  }

  /** `useState` takes three positions (its own, then those of `useReducer`); its slot
      is the second, holding the replacing reducer and, on the first render, `init`. */
  lemma UseStateShape(s: State, init: Val)
    requires InRender(s) && ReducerFits(s, 2)
    ensures var (r, res) := UseState(s, init);
      var e := s.current.value;
      var i := s.cursor.i + 2;
      res.Ok? && r.cursor == Index(s.cursor.i + 3)
      && r == s.(cursor := r.cursor, hooks := r.hooks)
      && res.value.1 == Dispatcher(e, i) && IsReducerSlot(r, res.value.1)
      && (if Existing(s, 2).Some?
          then r.hooks == s.hooks && res.value.0 == Existing(s, 2).value.state
          else r.hooks == s.hooks[e := s.hooks[e][i := ReducerSlot(StateReducer, init)]] && res.value.0 == init)
  {
    var (s1, _) := NextHook(s);
    UseReducerShape(s1, StateReducer, init);
  }

  /** `useRenderer` takes two positions; the element's renderer becomes the value
      stored in its slot, which is `rendererIn` only on the first render (or while the
      stored value is falsy). */
  lemma UseRendererShape(s: State, rendererIn: Val)
    requires InRender(s) && PlainFits(s, 1)
    ensures var (r, res) := UseRenderer(s, rendererIn);
      var e := s.current.value;
      var v := if Existing(s, 1).Some? then Existing(s, 1).value.v else rendererIn;
      res.Ok? && r.cursor == Index(s.cursor.i + 2)
      && r.hooks[e][s.cursor.i + 1] == Plain(v)
      && r.renderers == s.renderers[e := v]
      && r == s.(cursor := r.cursor, hooks := r.hooks, renderers := r.renderers)
  {
  }

  /** `useHostElement` takes one position and returns the element being rendered. */
  lemma UseHostElementShape(s: State)
    requires InRender(s)
    ensures UseHostElement(s) == (s.(cursor := Index(s.cursor.i + 1)), Ok(s.current.value))
  {
  }

  // ---------------------------------------------------------------- dispatch

  /** The element is waiting to be rendered: in the queue, or in the snapshot of the
      frame that has been requested. */
  predicate Pending(sched: Scheduler.Sched, e: Elem) {
    e in sched.renderQueue || (sched.frame.Some? && e in sched.frame.value)
  }

  /** A dispatch applies the slot's own reducer at once, and leaves the element
      pending; only the slot and the scheduler change. More elements are never
      dropped from the scheduler. */
  lemma DispatchAppliesNow(env: Env, s: State, d: Dispatcher, action: Val)
    requires IsReducerSlot(s, d)
    ensures var r := Dispatch(env, s, d, action);
      var slot := s.hooks[d.elem][d.index];
      r.hooks == s.hooks[d.elem := s.hooks[d.elem][d.index := ReducerSlot(slot.reducer, Reduce(env, slot.reducer, slot.state, action))]]
      && Pending(r.sched, d.elem)
      && r == s.(hooks := r.hooks, sched := r.sched)
  {
  }

  /** The state a sequence of actions leaves, applied in call order. */
  function FoldActions(env: Env, reducer: Reducer, state: Val, actions: seq<Val>): Val
    decreases |actions|
  {
    if actions == [] then state else FoldActions(env, reducer, Reduce(env, reducer, state, actions[0]), actions[1..])
  }

  /** Successive calls of the same `dispatch` closure. */
  function DispatchAll(env: Env, s: State, d: Dispatcher, actions: seq<Val>): (r: State)
    requires IsReducerSlot(s, d)
    ensures IsReducerSlot(r, d)
    decreases |actions|
  {
    if actions == [] then s else DispatchAll(env, Dispatch(env, s, d, actions[0]), d, actions[1..])
  }

  /** N dispatches fold left to right, in call order, with the reducer stored at the
      first render; after at least one, the element is pending. */
  lemma {:induction false} DispatchAllFolds(env: Env, s: State, d: Dispatcher, actions: seq<Val>)
    requires IsReducerSlot(s, d)
    ensures var slot := s.hooks[d.elem][d.index];
      DispatchAll(env, s, d, actions).hooks
        == s.hooks[d.elem := s.hooks[d.elem][d.index := ReducerSlot(slot.reducer, FoldActions(env, slot.reducer, slot.state, actions))]]
    ensures actions != [] ==> Pending(DispatchAll(env, s, d, actions).sched, d.elem)
    ensures var r := DispatchAll(env, s, d, actions); r == s.(hooks := r.hooks, sched := r.sched)
    decreases |actions|
  {
    if actions != [] {
      var slot := s.hooks[d.elem][d.index];
      var s1 := Dispatch(env, s, d, actions[0]);
      DispatchAppliesNow(env, s, d, actions[0]);
      DispatchAllFolds(env, s1, d, actions[1..]);
      var r := DispatchAll(env, s1, d, actions[1..]);
      assert r == DispatchAll(env, s, d, actions);
      var slot1 := s1.hooks[d.elem][d.index];
      assert slot1 == ReducerSlot(slot.reducer, Reduce(env, slot.reducer, slot.state, actions[0]));
      assert FoldActions(env, slot.reducer, slot.state, actions)
        == FoldActions(env, slot.reducer, slot1.state, actions[1..]);
      var final := ReducerSlot(slot.reducer, FoldActions(env, slot.reducer, slot.state, actions));
      assert r.hooks == s1.hooks[d.elem := s1.hooks[d.elem][d.index := final]];
      assert s1.hooks[d.elem][d.index := final] == s.hooks[d.elem][d.index := final];
      assert s1.hooks[d.elem := s1.hooks[d.elem][d.index := final]]
        == s.hooks[d.elem := s.hooks[d.elem][d.index := final]];
      if actions[1..] == [] {
        assert r == s1;
      }
    } else {
      var slot := s.hooks[d.elem][d.index];
      assert s.hooks[d.elem][d.index := ReducerSlot(slot.reducer, slot.state)] == s.hooks[d.elem];
    }
  }

  /** The actions a `useState` setter dispatches for `values`. */
  function SetStateActions(values: seq<Val>): (r: seq<Val>)
    ensures |r| == |values| && forall k :: 0 <= k < |values| ==> r[k] == SetStateAction(values[k])
  {
    if values == [] then [] else [SetStateAction(values[0])] + SetStateActions(values[1..])
  }

  /** With the `useState` reducer, the last value set wins. */
  lemma {:induction false} LastSetWins(env: Env, state: Val, values: seq<Val>)
    requires values != []
    ensures FoldActions(env, StateReducer, state, SetStateActions(values)) == values[|values| - 1]
    decreases |values|
  {
    var actions := SetStateActions(values);
    assert actions[1..] == SetStateActions(values[1..]);
    if |values| > 1 {
      LastSetWins(env, ActionValue(actions[0]), values[1..]);
    }
  }

  // ---------------------------------------------------------------- effect

  /** `useEffect` takes one position. It skips the effect exactly when a stored slot
      exists, the new dependency list is a different reference, the stored list is
      a non-empty array, and every stored item is `===` to the new item at the same
      index. Otherwise it calls the current cleanup at once and queues a callback for
      its slot. The new list is stored only when the comparison was made; the effect
      and the cleanup stored at the first render stay. */
  lemma UseEffectShape(s: State, effect: EffectId, values: Deps)
    requires InRender(s) && EffectFits(s, values)
    ensures var (r, res) := UseEffect(s, effect, values);
      res.Ok? && r.cursor == Index(s.cursor.i + 1)
      && r == s.(cursor := r.cursor, hooks := r.hooks, log := r.log, after := r.after)
    ensures var r := UseEffect(s, effect, values).0;
      var e := s.current.value;
      var prev := StoredEffect(s, effect, values);
      r.hooks == s.hooks[e := s.hooks[e][s.cursor.i + 1 := prev.(values := if Compared(prev.values, values) then values else prev.values)]]
    ensures var r := UseEffect(s, effect, values).0;
      Skips(s, effect, values) ==> r.log == s.log && r.after == s.after
    ensures var r := UseEffect(s, effect, values).0;
      !Skips(s, effect, values) ==>
        r.log == s.log + [CleanupCalled(StoredEffect(s, effect, values).cleanUp)]
        && r.after == s.after + [RunEffect(s.current.value, s.cursor.i + 1)]
  {
    var e := s.current.value;
    var i := s.cursor.i + 1;
    var prev := StoredEffect(s, effect, values);
    if Existing(s, 1).Some? && !Compared(prev.values, values) {
      assert s.hooks[e][i := prev] == s.hooks[e];
      assert s.hooks[e := s.hooks[e]] == s.hooks;
    }
  }

  /** The slot `useEffect` works on: the stored one, or the one it creates. */
  function StoredEffect(s: State, effect: EffectId, values: Deps): (slot: Slot)
    requires InRender(s) && EffectFits(s, values)
    ensures slot.EffectSlot?
  {
    if Existing(s, 1).Some? then Existing(s, 1).value else EffectSlot(effect, values, NoopCleanup)
  }

  /** The condition under which `useEffect` skips the effect: a stored slot exists,
      the new list is a different reference, the stored list is a non-empty array,
      and every stored item is `===` to the new item at the same index. */
  predicate Skips(s: State, effect: EffectId, values: Deps)
    requires InRender(s) && EffectFits(s, values)
  {
    var prev := StoredEffect(s, effect, values);
    Existing(s, 1).Some?
    && !SameRef(prev.values, values) && prev.values.DepArray? && |prev.values.items| > 0
    && values.DepArray? && ItemsUnchanged(prev.values.items, values.items)
  }

  /** The effect of the slot `useEffect` reaches is re-run: the cleanup was called and
      a callback was queued. */
  predicate Reran(s: State, r: State) {
    InRender(s) && IsEffectSlot(r, s.current.value, s.cursor.i + 1)
    && r.log == s.log + [CleanupCalled(r.hooks[s.current.value][s.cursor.i + 1].cleanUp)]
    && r.after == s.after + [RunEffect(s.current.value, s.cursor.i + 1)]
  }

  /** With an empty stored list, the effect re-runs on every render. */
  lemma EmptyDepsAlwaysRerun(s: State, effect: EffectId, values: Deps)
    requires InRender(s) && EffectFits(s, values)
    requires Existing(s, 1).Some? && Existing(s, 1).value.EffectSlot?
    requires Existing(s, 1).value.values.DepArray? && Existing(s, 1).value.values.items == []
    ensures Reran(s, UseEffect(s, effect, values).0)
  {
    UseEffectShape(s, effect, values);
  }

  /** The same array passed again re-runs the effect, and the slot is left as it was. */
  lemma SameArrayAlwaysReruns(s: State, effect: EffectId)
    requires InRender(s) && Existing(s, 1).Some? && Existing(s, 1).value.EffectSlot?
    ensures var r := UseEffect(s, effect, Existing(s, 1).value.values).0;
      Reran(s, r) && r.hooks == s.hooks
  {
    var values := Existing(s, 1).value.values;
    UseEffectShape(s, effect, values);
    var e := s.current.value;
    assert s.hooks[e][s.cursor.i + 1 := Existing(s, 1).value] == s.hooks[e];
  }

  /** No dependency list (`undefined`) re-runs the effect on every render. */
  lemma NoDepsAlwaysRerun(s: State, effect: EffectId)
    requires InRender(s) && EffectFits(s, NoDeps)
    ensures Reran(s, UseEffect(s, effect, NoDeps).0)
  {
    UseEffectShape(s, effect, NoDeps);
  }

  /** A fresh array with the same items as the stored non-empty one skips the effect,
      and it becomes the stored list. */
  lemma FreshEqualArraySkips(s: State, effect: EffectId, ref: nat)
    requires InRender(s) && Existing(s, 1).Some? && Existing(s, 1).value.EffectSlot?
    requires Existing(s, 1).value.values.DepArray? && |Existing(s, 1).value.values.items| > 0
    requires Existing(s, 1).value.values.ref != ref
    ensures var slot := Existing(s, 1).value;
      var values := DepArray(ref, slot.values.items);
      var r := UseEffect(s, effect, values).0;
      r.log == s.log && r.after == s.after
      && r.hooks[s.current.value][s.cursor.i + 1] == slot.(values := values)
  {
    var slot := Existing(s, 1).value;
    UseEffectShape(s, effect, DepArray(ref, slot.values.items));
  }

  // ---------------------------------------------------------------- after-render queue

  /** The callback `useEffect` queued calls the effect stored at the first render; a
      truthy return replaces the cleanup, a falsy one leaves the old cleanup. */
  lemma RunCallbackCleanup(env: Env, s: State, cb: Callback)
    requires IsEffectSlot(s, cb.elem, cb.index)
    ensures var r := RunCallback(env, s, cb);
      var slot := s.hooks[cb.elem][cb.index];
      var cleanUp := if env.effectResult(slot.effect).Some? then UserCleanup(env.effectResult(slot.effect).value) else slot.cleanUp;
      r.log == s.log + [EffectCalled(slot.effect)]
      && r.hooks == s.hooks[cb.elem := s.hooks[cb.elem][cb.index := slot.(cleanUp := cleanUp)]]
  {
    var slot := s.hooks[cb.elem][cb.index];
    if env.effectResult(slot.effect).None? {
      assert s.hooks[cb.elem][cb.index := slot] == s.hooks[cb.elem];
      assert s.hooks[cb.elem := s.hooks[cb.elem][cb.index := slot]] == s.hooks;
    }
  }

  /** The events of the callbacks are one effect call per callback, in registration
      order. */
  lemma {:induction false} EffectEventsInOrder(s: State, cbs: seq<Callback>)
    requires CallbacksValid(s, cbs)
    ensures |EffectEvents(s, cbs)| == |cbs|
    ensures forall k :: 0 <= k < |cbs| ==>
      EffectEvents(s, cbs)[k] == EffectCalled(s.hooks[cbs[k].elem][cbs[k].index].effect)
    decreases |cbs|
  {
    if cbs != [] {
      EffectEventsInOrder(s, cbs[1..]);
      forall k | 0 <= k < |cbs|
        ensures EffectEvents(s, cbs)[k] == EffectCalled(s.hooks[cbs[k].elem][cbs[k].index].effect)
      {
        if k > 0 {
          assert cbs[k] == cbs[1..][k - 1];
        }
      }
    }
  }

  /** After `element.render()` returns, every callback queued so far runs exactly
      once, in registration order; then the queue is empty and hooks are forbidden. */
  lemma RenderRunsAfterQueue(env: Env, s: State, e: Elem, steps: seq<Step>)
    requires AfterValid(s) && RenderOk(env, s, e, steps)
    ensures var s1 := BeginRender(s, e);
      AfterValid(s1) && StepsOk(env, s1, steps)
      && var s2 := RunSteps(env, s1, steps);
      var r := Render(env, s, e, steps);
      |r.log| == |s2.log| + |s2.after| && r.log[..|s2.log|] == s2.log
      && (forall k :: 0 <= k < |s2.after| ==>
            r.log[|s2.log| + k] == EffectCalled(s2.hooks[s2.after[k].elem][s2.after[k].index].effect))
      && r.after == [] && r.cursor.Unset?
  {
    var s1 := BeginRender(s, e);
    assert AfterValid(s1) by {
      assert forall k :: 0 <= k < |s.after| ==> IsEffectSlot(s, s.after[k].elem, s.after[k].index);
    }
    var s2 := RunSteps(env, s1, steps);
    EffectEventsInOrder(s2, s2.after);
  }

  // ---------------------------------------------------------------- frame callback

  /** The elements rendered, in order, according to a log. */
  function RenderedIn(log: seq<Event>): seq<Elem>
    decreases |log|
  {
    if log == [] then []
    else (if log[0].Rendered? then [log[0].elem] else []) + RenderedIn(log[1..])
  }

  lemma {:induction false} RenderedInAppend(a: seq<Event>, b: seq<Event>)
    ensures RenderedIn(a + b) == RenderedIn(a) + RenderedIn(b)
    decreases |a|
  {
    if a == [] {
      assert a + b == b;
    } else {
      var head := if a[0].Rendered? then [a[0].elem] else [];
      assert (a + b)[0] == a[0];
      assert (a + b)[1..] == a[1..] + b;
      RenderedInAppend(a[1..], b);
      calc {
        RenderedIn(a + b);
        head + RenderedIn(a[1..] + b);
        head + (RenderedIn(a[1..]) + RenderedIn(b));
        (head + RenderedIn(a[1..])) + RenderedIn(b);
        RenderedIn(a) + RenderedIn(b);
      }
    }
  }

  lemma {:induction false} RenderedInNone(log: seq<Event>)
    requires forall k :: 0 <= k < |log| ==> !log[k].Rendered?
    ensures RenderedIn(log) == []
    decreases |log|
  {
    if log != [] {
      assert !log[0].Rendered?;
      RenderedInNone(log[1..]);
    }
  }

  /** A log extended only by events other than `Rendered` names the same renders. */
  lemma NoRendersSameRenders(s: State, r: State)
    requires NoRenders(s, r)
    ensures RenderedIn(r.log) == RenderedIn(s.log)
  {
    var ext := r.log[|s.log|..];
    assert r.log == s.log + ext;
    RenderedInNone(ext);
    RenderedInAppend(s.log, ext);
  }

  /** `render(element)` calls `element.render()` exactly once and renders nothing else. */
  lemma RenderRendersOnce(env: Env, s: State, e: Elem, steps: seq<Step>)
    requires AfterValid(s) && RenderOk(env, s, e, steps)
    ensures RenderedIn(Render(env, s, e, steps).log) == RenderedIn(s.log) + [e]
  {
    var s1 := BeginRender(s, e);
    assert RenderedIn(s1.log) == RenderedIn(s.log) + [e] by {
      assert RenderedIn([Rendered(e)]) == [e];
      RenderedInAppend(s.log, [Rendered(e)]);
    }
    assert AfterValid(s1) by {
      assert forall k :: 0 <= k < |s.after| ==> IsEffectSlot(s, s.after[k].elem, s.after[k].index);
    }
    var s2 := RunSteps(env, s1, steps);
    NoRendersSameRenders(s1, s2);
    assert Render(env, s, e, steps).log == RunCallbacks(env, s2, s2.after).log;
    CallbacksRenderNothing(env, s2, s2.after);
  }

  /** The callbacks run after `element.render()` render nothing themselves. */
  lemma CallbacksRenderNothing(env: Env, s: State, cbs: seq<Callback>)
    requires CallbacksValid(s, cbs)
    ensures RenderedIn(RunCallbacks(env, s, cbs).log) == RenderedIn(s.log)
  {
    var events := EffectEvents(s, cbs);
    EffectEventsInOrder(s, cbs);
    RenderedInNone(events);
    RenderedInAppend(s.log, events);
  }

  /** Rendering a sequence of elements renders each once, in order. */
  lemma {:induction false} RenderAllRendersInOrder(env: Env, s: State, es: seq<Elem>, programs: Elem -> seq<Step>)
    requires AfterValid(s) && RenderAllOk(env, s, es, programs)
    ensures RenderedIn(RenderAll(env, s, es, programs).log) == RenderedIn(s.log) + es
    decreases |es|
  {
    if es != [] {
      var s1 := Render(env, s, es[0], programs(es[0]));
      RenderAllStep(env, s, es, programs);
      RenderAllRendersInOrder(env, s1, es[1..], programs);
      ConsAfter(RenderedIn(s.log), es);
    }
  }

  lemma ConsAfter(a: seq<Elem>, es: seq<Elem>)
    requires es != []
    ensures (a + [es[0]]) + es[1..] == a + es
  {
    assert [es[0]] + es[1..] == es;
  }

  /** One element of `RenderAll`: it is rendered once, then the rest follow. */
  lemma RenderAllStep(env: Env, s: State, es: seq<Elem>, programs: Elem -> seq<Step>)
    requires es != [] && AfterValid(s) && RenderAllOk(env, s, es, programs)
    ensures var s1 := Render(env, s, es[0], programs(es[0]));
      AfterValid(s1) && RenderAllOk(env, s1, es[1..], programs)
      && RenderAll(env, s, es, programs) == RenderAll(env, s1, es[1..], programs)
      && RenderedIn(s1.log) == RenderedIn(s.log) + [es[0]]
  {
    RenderAllFirst(env, s, es, programs);
    RenderRendersOnce(env, s, es[0], programs(es[0]));
  }

  /** The frame callback renders exactly the snapshot its frame carries, each element
      once and in snapshot order (the snapshot has no duplicates), and nothing queued
      while it runs. */
  lemma TickRendersSnapshot(env: Env, s: State, programs: Elem -> seq<Step>)
    requires Valid(s) && s.sched.frame.Some? && TickOk(env, s, programs)
    ensures RenderedIn(Tick(env, s, programs).log) == RenderedIn(s.log) + s.sched.frame.value
    ensures NoDup(s.sched.frame.value)
  {
    RenderAllRendersInOrder(env, s.(sched := Scheduler.BeginTick(s.sched)), s.sched.frame.value, programs);
  }

  /** The frame callback leaves the engine valid with an empty queue; it requests the
      next frame exactly when elements were queued while it rendered, and that frame's
      snapshot is what was queued. */
  lemma TickRearms(env: Env, s: State, programs: Elem -> seq<Step>)
    requires Valid(s) && s.sched.frame.Some? && TickOk(env, s, programs)
    ensures var mid := RenderAll(env, s.(sched := Scheduler.BeginTick(s.sched)), s.sched.frame.value, programs);
      var r := Tick(env, s, programs);
      Valid(r) && r.sched.renderQueue == [] && r.props == s.props
      && (r.sched.rendering <==> mid.sched.renderQueue != [])
      && (r.sched.rendering ==> r.sched.frame == Some(mid.sched.renderQueue))
  {
    var mid := RenderAll(env, s.(sched := Scheduler.BeginTick(s.sched)), s.sched.frame.value, programs);
    Scheduler.EndTickRearms(mid.sched);
  }

  // ---------------------------------------------------------------- the next frame

  /** The step makes the host queue `x`: a `queueRender(x)`, or a dispatch or setter
      whose slot belongs to `x`. */
  predicate QueuesElem(step: Step, x: Elem) {
    step == QueueRenderCall(x)
    || (step.DispatchCall? && step.d.elem == x)
    || (step.SetStateCall? && step.d.elem == x)
  }

  /** Some call of the render function queues `x`. */
  predicate StepsQueue(steps: seq<Step>, x: Elem) {
    exists k :: 0 <= k < |steps| && QueuesElem(steps[k], x)
  }

  /** While a frame callback renders, an element already queued stays queued. */
  lemma ExecKeeps(env: Env, s: State, step: Step, x: Elem)
    requires Wf(s) && StepOk(s, step) && Scheduler.Ticking(s.sched) && x in s.sched.renderQueue
    ensures x in Exec(env, s, step).sched.renderQueue
  {
  }

  /** While a frame callback renders, a step that queues `x` leaves it queued. */
  lemma ExecQueues(env: Env, s: State, step: Step, x: Elem)
    requires Wf(s) && StepOk(s, step) && Scheduler.Ticking(s.sched) && QueuesElem(step, x)
    ensures x in Exec(env, s, step).sched.renderQueue
  {
  }

  lemma {:induction false} RunStepsKeeps(env: Env, s: State, steps: seq<Step>, x: Elem)
    requires Wf(s) && StepsOk(env, s, steps) && Scheduler.Ticking(s.sched) && x in s.sched.renderQueue
    ensures x in RunSteps(env, s, steps).sched.renderQueue
    decreases |steps|
  {
    if steps != [] {
      ExecKeeps(env, s, steps[0], x);
      RunStepsKeeps(env, Exec(env, s, steps[0]), steps[1..], x);
    }
  }

  lemma {:induction false} RunStepsQueues(env: Env, s: State, steps: seq<Step>, k: nat, x: Elem)
    requires Wf(s) && StepsOk(env, s, steps) && Scheduler.Ticking(s.sched)
    requires k < |steps| && QueuesElem(steps[k], x)
    ensures x in RunSteps(env, s, steps).sched.renderQueue
    decreases |steps|
  {
    var s1 := Exec(env, s, steps[0]);
    if k == 0 {
      ExecQueues(env, s, steps[0], x);
      RunStepsKeeps(env, s1, steps[1..], x);
    } else {
      assert steps[1..][k - 1] == steps[k];
      RunStepsQueues(env, s1, steps[1..], k - 1, x);
    }
  }

  /** Rendering an element while a frame callback runs keeps queued elements queued. */
  lemma RenderKeeps(env: Env, s: State, e: Elem, steps: seq<Step>, x: Elem)
    requires AfterValid(s) && RenderOk(env, s, e, steps)
    requires Scheduler.Ticking(s.sched) && x in s.sched.renderQueue
    ensures x in Render(env, s, e, steps).sched.renderQueue
  {
    RenderParts(env, s, e, steps);
    RunStepsKeeps(env, BeginRender(s, e), steps, x);
  }

  /** A render function that queues `x` while a frame callback runs leaves `x` queued. */
  lemma RenderQueues(env: Env, s: State, e: Elem, steps: seq<Step>, x: Elem)
    requires AfterValid(s) && RenderOk(env, s, e, steps)
    requires Scheduler.Ticking(s.sched) && StepsQueue(steps, x)
    ensures x in Render(env, s, e, steps).sched.renderQueue
  {
    RenderParts(env, s, e, steps);
    var k :| 0 <= k < |steps| && QueuesElem(steps[k], x);
    RunStepsQueues(env, BeginRender(s, e), steps, k, x);
  }

  lemma {:induction false} RenderAllKeeps(env: Env, s: State, es: seq<Elem>, programs: Elem -> seq<Step>, x: Elem)
    requires AfterValid(s) && RenderAllOk(env, s, es, programs)
    requires Scheduler.Ticking(s.sched) && x in s.sched.renderQueue
    ensures x in RenderAll(env, s, es, programs).sched.renderQueue
    decreases |es|
  {
    if es != [] {
      RenderAllFirst(env, s, es, programs);
      RenderKeeps(env, s, es[0], programs(es[0]), x);
      RenderAllKeeps(env, Render(env, s, es[0], programs(es[0])), es[1..], programs, x);
    }
  }

  lemma {:induction false} RenderAllQueues(env: Env, s: State, es: seq<Elem>, programs: Elem -> seq<Step>, x: Elem)
    requires AfterValid(s) && RenderAllOk(env, s, es, programs)
    requires Scheduler.Ticking(s.sched) && x in es && StepsQueue(programs(x), x)
    ensures x in RenderAll(env, s, es, programs).sched.renderQueue
    decreases |es|
  {
    RenderAllFirst(env, s, es, programs);
    var s1 := Render(env, s, es[0], programs(es[0]));
    if es[0] == x {
      RenderQueues(env, s, x, programs(x), x);
      RenderAllKeeps(env, s1, es[1..], programs, x);
    } else {
      assert x in es[1..];
      RenderAllQueues(env, s1, es[1..], programs, x);
    }
  }

  /** An element queued before the frame callback runs, after its snapshot was taken,
      is in the snapshot of the next frame the callback requests. */
  lemma RequeuedRendersNext(env: Env, s: State, programs: Elem -> seq<Step>, x: Elem)
    requires Valid(s) && s.sched.frame.Some? && TickOk(env, s, programs)
    requires x in s.sched.renderQueue
    ensures Tick(env, s, programs).sched.frame.Some? && x in Tick(env, s, programs).sched.frame.value
  {
    var s1 := s.(sched := Scheduler.BeginTick(s.sched));
    RenderAllKeeps(env, s1, s.sched.frame.value, programs, x);
    Scheduler.EndTickRearms(RenderAll(env, s1, s.sched.frame.value, programs).sched);
  }

  /** An element of the snapshot whose render function queues it again (through
      `queueRender`, a dispatch or a setter) is in the snapshot of the next frame. */
  lemma QueuedDuringRenderRendersNext(env: Env, s: State, programs: Elem -> seq<Step>, x: Elem)
    requires Valid(s) && s.sched.frame.Some? && TickOk(env, s, programs)
    requires x in s.sched.frame.value && StepsQueue(programs(x), x)
    ensures Tick(env, s, programs).sched.frame.Some? && x in Tick(env, s, programs).sched.frame.value
  {
    var s1 := s.(sched := Scheduler.BeginTick(s.sched));
    RenderAllQueues(env, s1, s.sched.frame.value, programs, x);
    Scheduler.EndTickRearms(RenderAll(env, s1, s.sched.frame.value, programs).sched);
  }

  /** An element queued twice before its frame fires is rendered by that frame's callback,
      and is in the snapshot of the next frame, which renders it again. */
  lemma QueuedTwiceRendersInTwoFrames(env: Env, s: State, e: Elem, programs: Elem -> seq<Step>)
    requires Valid(s) && s.sched.frame.None?
    requires var s1 := s.(sched := Scheduler.QueueAll(s.sched, [e, e]));
      s1.sched.frame.Some? && TickOk(env, s1, programs)
    ensures var s1 := s.(sched := Scheduler.QueueAll(s.sched, [e, e]));
      var r := Tick(env, s1, programs);
      e in s1.sched.frame.value
      && RenderedIn(r.log) == RenderedIn(s.log) + s1.sched.frame.value
      && r.sched.frame.Some? && e in r.sched.frame.value
  {
    var q1 := Scheduler.QueueRender(s.sched, e);
    assert [e, e][1..] == [e];
    assert Scheduler.QueueAll(s.sched, [e, e]) == Scheduler.QueueAll(q1, [e]);
    assert Scheduler.QueueAll(q1, [e]) == Scheduler.QueueRender(q1, e);
    var s1 := s.(sched := Scheduler.QueueAll(s.sched, [e, e]));
    Scheduler.QueueAllSchedules(s.sched, [e, e]);
    assert Valid(s1);
    TickRendersSnapshot(env, s1, programs);
    RequeuedRendersNext(env, s1, programs, e);
  }

  // ---------------------------------------------------------------- between renders

  /** The operations user code can call between frames keep the engine valid:
      `queueRender`, a dispatch, `addPassableProps` and `getPassableProps`. */
  lemma OperationsKeepValid(env: Env, s: State, e: Elem, d: Dispatcher, action: Val, props: Val, id: string)
    requires Valid(s)
    ensures Valid(s.(sched := Scheduler.QueueRender(s.sched, e)))
    ensures IsReducerSlot(s, d) ==> Valid(Dispatch(env, s, d, action))
    ensures Valid(AddPassableProps(s, props).0)
    ensures Valid(GetPassableProps(s, id).0)
  {
    Scheduler.QueueRenderSchedules(s.sched, e);
    Scheduler.QueueRenderSchedules(s.sched, d.elem);
    PassProps.AddIsFresh(s.props, props);
    PassProps.GetKeepsInv(s.props, id);
  }
}
