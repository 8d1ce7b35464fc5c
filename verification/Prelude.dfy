/** Small shared vocabulary: optional values, JSON values and byte strings. */
module Prelude {

  datatype Option<+T> = None | Some(value: T)

  /** A byte string, written with one character per byte. */
  type Bytes = string

  /** A decoded JSON value. Fractional numbers play no role in the modelled code. */
  datatype Json =
    | Null
    | Bool(b: bool)
    | Num(n: int)
    | Str(s: string)
    | List(items: seq<Json>)
    | Obj(members: map<string, Json>)
  {
    /** Truth value of the decoded object in a boolean context. */
    predicate Truthy() {
      match this
      case Null => false
      case Bool(b) => b
      case Num(n) => n != 0
      case Str(s) => s != ""
      case List(items) => items != []
      case Obj(members) => members != map[]
    }
  }

  /** No element occurs twice. */
  ghost predicate Distinct<T(!new)>(xs: seq<T>) {
    forall i, j :: 0 <= i < j < |xs| ==> xs[i] != xs[j]
  }
}
