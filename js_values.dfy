/** JavaScript values and plain objects, as far as the form engine observes them. */
module JsValues {

  datatype Option<+T> = None | Some(value: T) {
    /** The wrapped value, or `default` for `None`. */
    function GetOr(default: T): T {
      match this
      case Some(v) => v
      case None => default
    }
  }

  /** A JavaScript value. Numbers are integers here and an object is known
      only by its identity, so `===` on two values is datatype equality. */
  datatype JsVal = Undefined | Null | Bool(b: bool) | Num(n: int) | Str(s: string) | Obj(id: nat)

  /** A plain object (`IndexObject`): its own string keys and their values. */
  type Record = map<string, JsVal>

  /** `r[k]`: a key the object does not have reads as `undefined`. */
  function Get(r: Record, k: string): JsVal {
    if k in r then r[k] else Undefined
  }

  /** JavaScript truthiness, as used by `if (x)` and `x ? a : b`. */
  predicate Truthy(v: JsVal) {
    match v
    case Undefined => false
    case Null => false
    case Bool(b) => b
    case Num(n) => n != 0
    case Str(s) => s != ""
    case Obj(_) => true
  }

  /** `{...r, ...p}`: every key of either object, the keys of `p` winning. */
  function Spread(r: Record, p: Record): (m: Record)
    ensures m.Keys == r.Keys + p.Keys
    ensures forall k :: Get(m, k) == if k in p then p[k] else Get(r, k)
  {
    r + p
  }
}
