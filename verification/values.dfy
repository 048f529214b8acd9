/**
 * JavaScript values as the journal keeps them. A stored record (a markup or a
 * trade) is a plain object: a map from field names to values. A field that is
 * not present reads as `undefined`.
 */
module Values {

  datatype Option<+T> = None | Some(value: T)

  /** The values that can sit in a record field. Numbers are the integral
      millisecond values the store produces; file objects are opaque handles. */
  datatype Value =
    | Undefined
    | Null
    | Bool(b: bool)
    | Num(n: int)
    | Str(s: string)
    | Arr(items: seq<Value>)
    | Obj(fields: map<string, Value>)
    | Blob(handle: nat)

  type Record = map<string, Value>

  /** Property read `r.field`: `undefined` when the field is absent. */
  function Get(r: Record, field: string): Value
  {
    if field in r then r[field] else Undefined
  }

  /** Object spread `{ ...base, ...patch }`: every field of `patch` wins, the
      other fields of `base` are kept. */
  function Merge(base: Record, patch: Record): (r: Record)
    ensures r.Keys == base.Keys + patch.Keys
    ensures forall f :: f in patch ==> r[f] == patch[f]
    ensures forall f :: f in base && f !in patch ==> r[f] == base[f]
  {
    base + patch
  }

  /** Merging the same patch a second time changes nothing. */
  lemma MergeIdempotent(base: Record, patch: Record)
    ensures Merge(Merge(base, patch), patch) == Merge(base, patch)
  {
  }

  /** JavaScript truthiness. */
  predicate Truthy(v: Value)
  {
    match v
    case Undefined => false
    case Null => false
    case Bool(b) => b
    case Num(n) => n != 0
    case Str(s) => s != ""
    case _ => true
  }

  /** The expression `v || ''`. */
  function OrEmpty(v: Value): (r: Value)
    ensures Truthy(v) ==> r == v
    ensures !Truthy(v) ==> r == Str("")
  {
    if Truthy(v) then v else Str("")
  }
}
