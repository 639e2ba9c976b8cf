/** JavaScript values and the few operators of the language the Modal relies on:
    truthiness (`||`, `? :`), nullish coalescing (`??`) and object spread
    (`{...a, ...b}`). Props objects are finite maps from key to value; a key
    that is absent reads as `undefined`. */
module JsProps {

  datatype Option<+T> = None | Some(value: T)

  /** A JavaScript value as it flows through the Modal's props. Numbers are
      integers (there is no NaN and no -0 here). Function values are the
      closures the Modal itself creates, or an opaque function of the caller. */
  datatype Value =
    | Undefined
    | Null
    | Bool(b: bool)
    | Num(n: int)
    | Str(s: string)
    | Obj(fields: map<string, Value>)
    | Fn(f: Closure)

  /** The function values that the Modal and its slots pass around. */
  datatype Closure =
    | Opaque(id: nat)          // a function supplied by the caller; its effect is not modelled
    | Noop                     // `() => {}` and `(_bool: boolean) => {}`
    | SetIsVisible             // the state setter of `isVisible`
    | OnCloseProp(cb: nat)     // the caller's `onClose` callback, identified by `cb`
    | Dismiss(toggleVisible: Closure, toggleOnClose: Closure)
                               // `() => { toggleVisible(false); toggleOnClose(false); }`

  type Props = map<string, Value>

  /** JavaScript truthiness: everything except undefined, null, false, 0 and ''. */
  predicate Truthy(v: Value) {
    match v
    case Undefined => false
    case Null => false
    case Bool(b) => b
    case Num(n) => n != 0
    case Str(s) => s != ""
    case Obj(_) => true
    case Fn(_) => true
  }

  /** The values `??` replaces: undefined and null. */
  predicate Nullish(v: Value) {
    v.Undefined? || v.Null?
  }

  /** Reading `p.k`: an absent key reads as undefined. */
  function Get(p: Props, k: string): Value {
    if k in p then p[k] else Undefined
  }

  /** `a || b`. */
  function Or(a: Value, b: Value): (r: Value)
    ensures Truthy(r) <==> Truthy(a) || Truthy(b)
    ensures Truthy(a) ==> r == a
    ensures !Truthy(a) ==> r == b
  {
    if Truthy(a) then a else b
  }

  /** `a ?? b`. */
  function Coalesce(a: Value, b: Value): (r: Value)
    ensures !Nullish(a) ==> r == a
    ensures Nullish(a) ==> r == b
  {
    if Nullish(a) then b else a
  }

  /** The own properties `{...v}` copies: those of an object, none for
      undefined, null, booleans, numbers and functions. */
  function Spread(v: Value): Props {
    match v
    case Obj(m) => m
    case _ => map[]
  }

  /** `{...base, ...over}`: a key-wise union in which the right operand wins. */
  function Override(base: Props, over: Props): (r: Props)
    ensures r.Keys == base.Keys + over.Keys
    ensures forall k :: k in over ==> r[k] == over[k]
    ensures forall k :: k in base && k !in over ==> r[k] == base[k]
  {
    base + over
  }
}
