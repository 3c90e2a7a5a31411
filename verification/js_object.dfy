/** JavaScript values as the app's user records use them, and the object spread
    `{ ...a, ...b }` those records are built and updated with. */
module JsObject {
  import opened Options

  /** 30 days in milliseconds, the subscription period stamped on new users. */
  const ThirtyDaysMs := 30 * 24 * 60 * 60 * 1000

  /** `Undefined` is what reading a missing key gives; `Date` stands for a point in time
      in milliseconds since the epoch, whether held as a `Date` or as its ISO string. */
  datatype Value =
    | Undefined
    | Null
    | Bool(b: bool)
    | Num(n: real)
    | Str(s: string)
    | Date(ms: int)
    | Arr(items: seq<Value>)
    | Obj(fields: Object)

  type Object = map<string, Value>

  /** `obj.key`: the stored value, or `undefined` when the key is absent. */
  function Get(obj: Object, key: string): (v: Value)
    ensures key !in obj ==> v == Undefined
    ensures key in obj ==> v == obj[key]
  {
    if key in obj then obj[key] else Undefined
  }

  /** The keys `{ ...v }` copies: an object's own keys, and none from `null` or `undefined`. */
  function SpreadOf(v: Option<Object>): Object
  {
    match v
    case Some(o) => o
    case None => map[]
  }

  /** `{ ...a, ...b }`: every key of `b` with `b`'s value, every other key of `a` with `a`'s. */
  function Merge(a: Object, b: Object): (r: Object)
    ensures r.Keys == a.Keys + b.Keys
    ensures forall k :: k in b ==> r[k] == b[k]
    ensures forall k :: k in a && k !in b ==> r[k] == a[k]
  {
    a + b
  }

  /** Merging nothing changes nothing. */
  lemma MergeEmpty(a: Object)
    ensures Merge(a, map[]) == a
    ensures Merge(map[], a) == a
  {
  }

  /** Applying the same update twice is applying it once. */
  lemma MergeIdempotent(a: Object, b: Object)
    ensures Merge(Merge(a, b), b) == Merge(a, b)
  {
  }

  /** Two updates in a row are one update with the later values winning. */
  lemma MergeAssociative(a: Object, b: Object, c: Object)
    ensures Merge(Merge(a, b), c) == Merge(a, Merge(b, c))
  {
  }
}
