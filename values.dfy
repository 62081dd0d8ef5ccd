/** JavaScript values as the virtual-node builder sees them, and the virtual
    node itself as a value.

    Only the distinctions the builder makes are kept: `undefined` versus
    `null`, the primitive types (`isPrimitive`: string, number, symbol,
    boolean), functions, arrays, plain objects (a map from property name to
    value) and virtual nodes. */
module JsValues {

  datatype Option<+T> = None | Some(value: T)

  /** A JavaScript value. Numbers are integers here (see README). */
  datatype Value =
    | Undefined
    | Null
    | Str(s: string)
    | Num(n: int)
    | Bool(b: bool)
    | Sym(id: nat)
    | Fn(id: nat)
    | Arr(elems: seq<Value>)
    | Obj(fields: map<string, Value>)
    | Node(node: VNode)

  /** A virtual node: the fields of `new VNode(tag, data, children, text, elm,
      context)` that the builder and the namespace pass read or write. */
  datatype VNode = VNode(
    tag: Option<string>,
    ns: Option<string>,
    data: Value,
    children: Value,
    text: Option<string>,
    isComment: bool,
    context: Option<nat>)

  /** `isDef`: neither `undefined` nor `null`. */
  predicate IsDef(v: Value) {
    !v.Undefined? && !v.Null?
  }

  /** `isPrimitive`: a string, number, symbol or boolean. */
  predicate IsPrimitive(v: Value) {
    v.Str? || v.Num? || v.Bool? || v.Sym?
  }

  /** JavaScript truthiness (`!v` is false). */
  predicate Truthy(v: Value) {
    match v
    case Undefined => false
    case Null => false
    case Bool(b) => b
    case Num(n) => n != 0
    case Str(s) => s != ""
    case _ => true
  }

  /** Truthiness of an optional string (a namespace). */
  predicate NsTruthy(ns: Option<string>) {
    ns.Some? && ns.value != ""
  }

  /** Property read `v[k]`; a property that is not there reads as `undefined`. */
  function Get(v: Value, k: string): (r: Value)
    ensures !v.Obj? ==> r == Undefined
    ensures v.Obj? && k in v.fields ==> r == v.fields[k]
    ensures r != Undefined ==> v.Obj? && k in v.fields && r in v.fields.Values
  {
    if v.Obj? && k in v.fields then v.fields[k] else Undefined
  }

  /** Property write `v[k] = x` on a plain object; every other property stays. */
  function SetField(v: Value, k: string, x: Value): (r: Value)
    ensures v.Obj? ==> r.Obj? && Get(r, k) == x
    ensures v.Obj? ==> forall j :: j in v.fields && j != k ==> j in r.fields && r.fields[j] == v.fields[j]
  {
    if v.Obj? then Obj(v.fields[k := x]) else v
  }

  /** `createEmptyVNode()`: a comment node with empty text and no tag. */
  function EmptyVNode(): (r: VNode)
    ensures r.tag.None? && r.isComment && r.text == Some("")
  {
    VNode(None, None, Undefined, Undefined, Some(""), true, None)
  }
}
