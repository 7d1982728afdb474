/** JavaScript values as the front end sees them: plain objects are records
    (maps from property names to values), backend calls end in an outcome,
    and an awaited async function either returns or throws. */
module Values {

  datatype Option<+T> = None | Some(value: T)

  /** A JavaScript value, as far as the modelled code inspects it.
      `Instant` stands for a `Date` serialised with `toISOString()`. */
  datatype Value =
    | Undefined
    | Null
    | Bool(b: bool)
    | Num(n: int)
    | Str(s: string)
    | Instant(time: int)

  /** JavaScript truthiness: `undefined`, `null`, `false`, `0` and `""` are falsy. */
  predicate Truthy(v: Value)
  {
    match v
    case Undefined => false
    case Null => false
    case Bool(b) => b
    case Num(n) => n != 0
    case Str(s) => s != ""
    case Instant(_) => true
  }

  /** A plain object: `{ ...a, k: v }` is `a + map[k := v]` (later keys win). */
  type Record = map<string, Value>

  /** Property access `r.k`: a missing property reads as `undefined`. */
  function Get(r: Record, k: string): Value
  {
    if k in r then r[k] else Undefined
  }

  /** The expression `a || b`. */
  function Or(a: Value, b: Value): (r: Value)
    ensures Truthy(a) ==> r == a
    ensures !Truthy(a) ==> r == b
  {
    if Truthy(a) then a else b
  }

  /** The result the backend SDK reports for a write: `{ error }` is null or not. */
  datatype Outcome = Ok | Err(error: string)

  /** How an awaited async function ends. */
  datatype Completion = Returned | Threw(error: string)

  /** The values a form holds after `reset()` with no default values. */
  const EmptyForm: Record := map[]
}
