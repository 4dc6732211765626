/** JavaScript values as the hook engine sees them, and element handles. */
module Values {

  /** An element (component instance). Only its identity matters to the engine. */
  type Elem = nat

  datatype Option<+T> = None | Some(value: T)

  /** The JavaScript values that flow through hook state, props and dependency lists.
      `Ref` stands for any object or function, compared by identity; `SetStateAction`
      is the object literal `{ type: "set_state", value }` that a `useState` setter
      dispatches. */
  datatype Val =
    | Undefined
    | Null
    | Bool(b: bool)
    | Num(n: int)
    | Str(s: string)
    | Ref(id: nat)
    | SetStateAction(value: Val)

  /** JavaScript truthiness: `undefined`, `null`, `false`, `0` and `""` are falsy;
      every object is truthy. */
  predicate Truthy(v: Val) {
    match v
    case Undefined => false
    case Null => false
    case Bool(b) => b
    case Num(n) => n != 0
    case Str(s) => s != ""
    case Ref(_) => true
    case SetStateAction(_) => true
  }

  /** No element occurs twice. */
  predicate NoDup<T(==)>(s: seq<T>) {
    forall i, j :: 0 <= i < j < |s| ==> s[i] != s[j]
  }
}
