/** The parts of `addComponent` and `defineComponent` (dist/core.mjs:103-156) that
    decide when an element is queued for rendering: the `skipQueue` gate of
    `attributeChangedCallback`, the props claim at the start of `render()`, the
    first `connectedCallback`, the observed-attribute list, and the registry in
    which the first definition of a name wins. The DOM calls around them are not
    part of this model. */
module Components {
  import opened Values
  import opened CoreModel
  import Core
  import Scheduler
  import PassProps
  import HexKeys

  /** An attribute's value as `getAttribute` and `attributeChangedCallback` see it:
      `null` or a string. */
  datatype Attr = Absent | Value(s: string)

  /** `if (propsId)`: `null` and the empty string are falsy. */
  predicate AttrTruthy(a: Attr) {
    a.Value? && a.s != ""
  }

  /** The fields of a component element that the engine reads and writes. `init` is
      `undefined` (falsy) until the first render sets it to `false`; nothing sets it
      to `true`. `attached` says whether `_shadowRoot` has been created. */
  datatype Host = Host(init: bool, skipQueue: bool, propsAttr: Attr, props: Val, attached: bool)

  /** A fresh element: `this.props = {}` is `emptyProps`, the `data-props` attribute
      is whatever the element was created with. */
  function NewHost(propsAttr: Attr, emptyProps: Val): Host {
    Host(false, false, propsAttr, emptyProps, false)
  }

  // ---------------------------------------------------------------- element callbacks

  /** `attributeChangedCallback(attrName, oldVal, newVal)` (dist/core.mjs:128-136). */
  function AttributeChanged(h: Host, s: State, e: Elem, oldVal: Attr, newVal: Attr): (r: (Host, State))
    ensures r.1 == s || r.1 == s.(sched := Scheduler.QueueRender(s.sched, e))
    ensures r.1 != s ==> oldVal != newVal && !h.skipQueue
    ensures r.0 == h || r.0 == h.(skipQueue := false)
  {
    if h.init then (h, s)
    else
      var s1 := if !h.skipQueue && oldVal != newVal then s.(sched := Scheduler.QueueRender(s.sched, e)) else s;
      (h.(skipQueue := false), s1)
  }

  /** `connectedCallback()` (dist/core.mjs:111-116): the first connection attaches the
      shadow root and queues the element; later ones do nothing. */
  function Connected(h: Host, s: State, e: Elem): (r: (Host, State))
    ensures r.0.attached
  {
    if !h.attached then (h.(attached := true), s.(sched := Scheduler.QueueRender(s.sched, e))) else (h, s)
  }

  /** The start of `render()` (dist/core.mjs:118-123): a truthy `data-props` attribute
      is claimed from the registry, `skipQueue` is set, and the attribute is removed,
      which calls `attributeChangedCallback("data-props", id, null)` at once. */
  function TakeProps(h: Host, s: State, e: Elem): (r: (Host, State))
    ensures !r.0.propsAttr.Value? || !AttrTruthy(h.propsAttr)
  {
    if AttrTruthy(h.propsAttr) then
      var (s1, props) := GetPassableProps(s, h.propsAttr.s);
      var h1 := h.(props := props, skipQueue := true, propsAttr := Absent);
      AttributeChanged(h1, s1, e, h.propsAttr, Absent)
    else (h, s)
  }

  /** The end of `render()` (dist/core.mjs:126): `this.init = false`. */
  function FinishRender(h: Host): (r: Host)
    ensures !r.init
  {
    h.(init := false)
  }

  /** What happens to an element, as far as these callbacks are concerned. */
  datatype HostEvent = Connect | RenderHost | AttributeChange(oldVal: Attr, newVal: Attr)

  function HostStep(h: Host, s: State, e: Elem, ev: HostEvent): (r: (Host, State))
    ensures !h.init ==> !r.0.init
  {
    match ev
    case Connect => Connected(h, s, e)
    case RenderHost => var (h1, s1) := TakeProps(h, s, e); (FinishRender(h1), s1)
    case AttributeChange(oldVal, newVal) => AttributeChanged(h, s, e, oldVal, newVal)
  }

  function HostRun(h: Host, s: State, e: Elem, evs: seq<HostEvent>): (Host, State)
    decreases |evs|
  {
    if evs == [] then (h, s)
    else var (h1, s1) := HostStep(h, s, e, evs[0]); HostRun(h1, s1, e, evs[1..])
  }

  /** `this.init` is never true, so the early return of `attributeChangedCallback` is
      never taken. */
  lemma {:induction false} InitNeverSet(propsAttr: Attr, emptyProps: Val, s: State, e: Elem, evs: seq<HostEvent>)
    ensures !HostRun(NewHost(propsAttr, emptyProps), s, e, evs).0.init
  {
    InitStaysFalse(NewHost(propsAttr, emptyProps), s, e, evs);
  }

  lemma {:induction false} InitStaysFalse(h: Host, s: State, e: Elem, evs: seq<HostEvent>)
    requires !h.init
    ensures !HostRun(h, s, e, evs).0.init
    decreases |evs|
  {
    if evs != [] {
      var (h1, s1) := HostStep(h, s, e, evs[0]);
      InitStaysFalse(h1, s1, e, evs[1..]);
    }
  }

  /** With `init` falsy, an attribute change queues the element exactly when the
      value differs and `skipQueue` is not set; either way `skipQueue` is cleared. */
  lemma AttributeChangeQueues(h: Host, s: State, e: Elem, oldVal: Attr, newVal: Attr)
    requires !h.init && Scheduler.Inv(s.sched)
    ensures var (h', s') := AttributeChanged(h, s, e, oldVal, newVal);
      h' == h.(skipQueue := false)
      && (!h.skipQueue && oldVal != newVal ==>
            s' == s.(sched := Scheduler.QueueRender(s.sched, e))
            && Scheduler.Inv(s'.sched) && (e in s'.sched.renderQueue || e in s'.sched.frame.value))
      && (h.skipQueue || oldVal == newVal ==> s' == s)
  {
    Scheduler.QueueRenderSchedules(s.sched, e);
  }

  /** Claiming the props does not queue the element again: the removal of
      `data-props` meets `skipQueue` set, which it then clears. The element ends with
      the bundle stored under its key, which is removed from the registry. */
  lemma TakePropsDoesNotQueue(h: Host, s: State, e: Elem)
    requires !h.init && AttrTruthy(h.propsAttr)
    ensures var (h', s') := TakeProps(h, s, e);
      var id := h.propsAttr.s;
      h'.props == (if id in s.props.entries then s.props.entries[id] else Undefined)
      && !h'.skipQueue && h'.propsAttr == Absent
      && s' == s.(props := PassProps.Registry(s.props.entries - {id}, s.props.nextId))
  {
  }

  /** A bundle passed with `prps` reaches the element whose `data-props` holds its key,
      without queueing that element a second time. */
  lemma PropsReachComponent(s: State, e: Elem, bundle: Val, emptyProps: Val)
    requires PassProps.Inv(s.props)
    ensures var (s1, id) := AddPassableProps(s, bundle);
      var (h', s') := TakeProps(NewHost(Value(id), emptyProps), s1, e);
      h'.props == bundle && s'.sched == s.sched && s'.props.entries == s.props.entries
  {
    var (s1, id) := AddPassableProps(s, bundle);
    PassProps.AddIsFresh(s.props, bundle);
    assert |id| % 2 == 0 && HexKeys.FromHex(id) == s.props.nextId;
    assert HexKeys.FromHex([]) == 0;
    assert id != "";
    assert s1.props.entries - {id} == s.props.entries;
  }

  /** Only the first connection queues the element. */
  lemma ConnectQueuesOnce(h: Host, s: State, e: Elem)
    ensures var (h1, s1) := Connected(h, s, e);
      (h.attached ==> (h1, s1) == (h, s))
      && (!h.attached ==> s1.sched == Scheduler.QueueRender(s.sched, e) && Connected(h1, s1, e) == (h1, s1))
  {
  }

  // ---------------------------------------------------------------- definitions

  /** `static get observedAttributes()` (dist/core.mjs:137-145): `data-props`, then the
      attributes the options name. */
  function ObservedAttributes(observed: Option<seq<string>>): (r: seq<string>)
    ensures |r| >= 1 && r[0] == PassProps.PROPS_ATTRIBUTE
    ensures observed.None? ==> r == [PassProps.PROPS_ATTRIBUTE]
    ensures observed.Some? ==> r[1..] == observed.value
  {
    [PassProps.PROPS_ATTRIBUTE] + (if observed.Some? then observed.value else [])
  }

  /** A call of `customElements.define`: the tag name and the attributes observed. */
  datatype Definition = Definition(name: string, observed: seq<string>)

  /** The component registry: `componentMap`, and the `customElements.define` calls
      made so far. */
  datatype Registry = Registry(components: map<string, nat>, defined: seq<Definition>)

  /** `defineComponent(name, component, options)` (dist/core.mjs:149-156). */
  function Define(r: Registry, name: string, component: nat, observed: Option<seq<string>>): (r': Registry)
    ensures name in r'.components && r'.components.Keys == r.components.Keys + {name}
  {
    if name !in r.components then
      Registry(r.components[name := component], r.defined + [Definition(name, ObservedAttributes(observed))])
    else r
  }

  /** The names passed to `customElements.define`, in order. */
  function DefinedNames(ds: seq<Definition>): (names: seq<string>)
    ensures |names| == |ds| && forall k :: 0 <= k < |ds| ==> names[k] == ds[k].name
  {
    if ds == [] then [] else DefinedNames(ds[..|ds| - 1]) + [ds[|ds| - 1].name]
  }

  /** The names in the map are exactly those defined with the custom-element
      registry, each defined once. */
  predicate RegistryInv(r: Registry) {
    r.components.Keys == (set n | n in DefinedNames(r.defined))
    && NoDup(DefinedNames(r.defined))
  }

  /** The first definition of a name wins: a second one changes nothing, so
      `customElements.define` is never called twice for the same name. */
  lemma DefineKeepsInv(r: Registry, name: string, component: nat, observed: Option<seq<string>>)
    requires RegistryInv(r)
    ensures RegistryInv(Define(r, name, component, observed))
    ensures name in r.components ==> Define(r, name, component, observed) == r
    ensures name !in r.components ==>
      Define(r, name, component, observed).components[name] == component
      && Define(r, name, component, observed).defined == r.defined + [Definition(name, ObservedAttributes(observed))]
  {
    var r' := Define(r, name, component, observed);
    if name !in r.components {
      assert r'.defined[..|r'.defined| - 1] == r.defined;
      var names := DefinedNames(r.defined);
      assert DefinedNames(r'.defined) == names + [name];
      assert (set n | n in names + [name]) == (set n | n in names) + {name};
      assert NoDup(names + [name]) by {
        forall i, j | 0 <= i < j < |names| + 1 ensures (names + [name])[i] != (names + [name])[j] {
          if j == |names| {
            assert (names + [name])[i] == names[i];
          } else {
            assert (names + [name])[i] == names[i] && (names + [name])[j] == names[j];
          }
        }
      }
    }
  }

  /** Definitions made in order; the component of a name is that of its first
      definition. */
  function DefineAll(r: Registry, defs: seq<(string, nat)>): Registry
    decreases |defs|
  {
    if defs == [] then r else DefineAll(Define(r, defs[0].0, defs[0].1, None), defs[1..])
  }

  function FirstFor(defs: seq<(string, nat)>, name: string): Option<nat>
    decreases |defs|
  {
    if defs == [] then None
    else if defs[0].0 == name then Some(defs[0].1)
    else FirstFor(defs[1..], name)
  }

  lemma {:induction false} FirstDefinitionWins(r: Registry, defs: seq<(string, nat)>, name: string)
    ensures var r' := DefineAll(r, defs);
      if name in r.components then name in r'.components && r'.components[name] == r.components[name]
      else if FirstFor(defs, name).Some? then name in r'.components && r'.components[name] == FirstFor(defs, name).value
      else name !in r'.components
    decreases |defs|
  {
    if defs != [] {
      FirstDefinitionWins(Define(r, defs[0].0, defs[0].1, None), defs[1..], name);
    }
  }

  // ---------------------------------------------------------------- imperative form

  /** A component element, with the fields the engine's callbacks update in place. */
  class ComponentElement {
    const elem: Elem
    var init: bool
    var skipQueue: bool
    /** The `data-props` attribute. */
    var propsAttr: Attr
    var props: Val
    /** `_shadowRoot` has been attached. */
    var attached: bool

    ghost function Fields(): Host
      reads this
    {
      Host(init, skipQueue, propsAttr, props, attached)
    }

    /** `constructor()` (dist/core.mjs:106-110), for an element created with
        `propsAttr` as its `data-props` attribute. */
    constructor(elem: Elem, propsAttr: Attr, emptyProps: Val)
      ensures this.elem == elem && Fields() == NewHost(propsAttr, emptyProps)
    {
      this.elem := elem;
      init := false;
      skipQueue := false;
      this.propsAttr := propsAttr;
      props := emptyProps;
      attached := false;
    }

    /** `attributeChangedCallback(attrName, oldVal, newVal)` (dist/core.mjs:128-136). */
    method AttributeChangedCallback(rt: Core.Runtime, oldVal: Attr, newVal: Attr)
      modifies this, rt
      ensures (Fields(), rt.State()) == AttributeChanged(old(Fields()), old(rt.State()), elem, oldVal, newVal)
    {
      if init {
        return;
      }
      if !skipQueue && oldVal != newVal {
        rt.QueueRender(elem);
      }
      skipQueue := false;
    }

    /** `connectedCallback()` (dist/core.mjs:111-116). */
    method ConnectedCallback(rt: Core.Runtime)
      modifies this, rt
      ensures (Fields(), rt.State()) == Connected(old(Fields()), old(rt.State()), elem)
    {
      if !attached {
        attached := true;
        rt.QueueRender(elem);
      }
    }

    /** The props claim at the start of `render()` (dist/core.mjs:118-123). */
    method TakePassedProps(rt: Core.Runtime)
      modifies this, rt
      ensures (Fields(), rt.State()) == TakeProps(old(Fields()), old(rt.State()), elem)
    {
      var propsId := propsAttr;
      if AttrTruthy(propsId) {
        props := rt.GetPassableProps(propsId.s);
        skipQueue := true;
        propsAttr := Absent;
        AttributeChangedCallback(rt, propsId, Absent);
      }
    }

    /** `this.init = false` (dist/core.mjs:126). */
    method FinishRendering()
      modifies this
      ensures Fields() == FinishRender(old(Fields()))
    {
      init := false;
    }
  }

  /** The module-level `componentMap` and the custom-element registry. */
  class ComponentRegistry {
    var componentMap: map<string, nat>
    var defined: seq<Definition>

    ghost function Contents(): Registry
      reads this
    {
      Registry(componentMap, defined)
    }

    constructor()
      ensures Contents() == Registry(map[], []) && RegistryInv(Contents())
    {
      componentMap := map[];
      defined := [];
    }

    /** `defineComponent(name, component, options)` (dist/core.mjs:149-156); the
        warning printed for a second definition is not modelled. */
    method DefineComponent(name: string, component: nat, observed: Option<seq<string>>)
      modifies this
      ensures Contents() == Define(old(Contents()), name, component, observed)
      ensures old(RegistryInv(Contents())) ==> RegistryInv(Contents())
    {
      ghost var r0 := Contents();
      if name !in componentMap {
        componentMap := componentMap[name := component];
        defined := defined + [Definition(name, ObservedAttributes(observed))];
      }
      if RegistryInv(r0) {
        DefineKeepsInv(r0, name, component, observed);
      }
    }
  }
}
