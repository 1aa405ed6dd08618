/** JavaScript values as they appear in request bodies and stored records.
    A record (a plain JS object) is a map from property names to values. */
module Values {

  datatype Option<+T> = None | Some(value: T)

  /** The scalar JSON/JS values the backend handles. `Undef` is `undefined`:
      the value of a property that is missing, or that was set from a missing
      request-body field. */
  datatype Value = Undef | Null | Bool(b: bool) | Num(n: int) | Str(s: string)

  type Record = map<string, Value>

  /** `obj[key]`: a missing property reads as `undefined`. */
  function Get(r: Record, key: string): (v: Value)
    ensures key !in r ==> v == Undef
  {
    if key in r then r[key] else Undef
  }

  /** JavaScript truthiness: `undefined`, `null`, `false`, `0` and `""` are falsy. */
  predicate Truthy(v: Value): (t: bool)
    ensures t <==> v !in {Undef, Null, Bool(false), Num(0), Str("")}
  {
    match v
    case Undef => false
    case Null => false
    case Bool(b) => b
    case Num(n) => n != 0
    case Str(s) => s != ""
  }

  /** `v || fallback`. */
  function Or(v: Value, fallback: Value): (r: Value)
    ensures Truthy(v) ==> r == v
    ensures !Truthy(v) ==> r == fallback
    ensures Truthy(fallback) ==> Truthy(r)
  {
    if Truthy(v) then v else fallback
  }

  /** `{ ...base, ...overrides }`: a shallow merge in which `overrides` wins. */
  function Merge(base: Record, overrides: Record): (r: Record)
    ensures r.Keys == base.Keys + overrides.Keys
    ensures forall k :: k in overrides ==> r[k] == overrides[k]
    ensures forall k :: k in base && k !in overrides ==> r[k] == base[k]
  {
    base + overrides
  }
}
