/**
 * The JavaScript values and React nodes the action bar reads and produces,
 * reduced to what its decisions depend on: which values are truthy, which are
 * nullish (the test behind `?.`), which are arrays, and what an element holds.
 */
module Nodes {

  datatype Option<+T> = None | Some(value: T)

  /** A caller-supplied function (an `onSubmit`, an `onClick`, a render override), known by identity only. */
  datatype Callback = Callback(id: nat)

  /** A click event; the action bar forwards it and never looks inside. */
  datatype Event = Event(id: nat)

  /** The two default buttons, and so the two click handlers the action bar builds. */
  datatype Side = ResetButton | SubmitButton

  /** A JavaScript value as it can appear in a property bag, a label or a render result. */
  datatype Node =
    | Undefined
    | Null
    | Bool(b: bool)
    | Num(n: int)
    | Str(s: string)
    | Fn(f: Callback)
    | Elem(element: Element)
    | Array(items: seq<Node>)

  /**
   * A React element. A default `Button` carries its React key, the props it
   * forwards to the button primitive, which default click handler it is bound
   * to, and its text (its children); `Space` is the horizontal layout
   * container; `Opaque` is any element the caller builds.
   */
  datatype Element =
    | Button(key: string, props: map<string, Node>, onClick: Side, text: Node)
    | Space(children: seq<Node>)
    | Opaque(id: nat)

  /** JavaScript truthiness; an array is an object, so even `[]` is truthy. */
  predicate Truthy(v: Node)
  {
    match v
    case Undefined => false
    case Null => false
    case Bool(b) => b
    case Num(n) => n != 0
    case Str(s) => s != ""
    case Fn(_) => true
    case Elem(_) => true
    case Array(_) => true
  }

  /** The values for which `x?.y` and `f?.()` stop short. */
  predicate Nullish(v: Node)
  {
    v.Undefined? || v.Null?
  }

  /** Property access on a plain object: a missing key reads as `undefined`. */
  function Get(bag: map<string, Node>, key: string): Node
  {
    if key in bag then bag[key] else Undefined
  }
}
