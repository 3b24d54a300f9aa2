/** The `chrome.storage.sync` area as the extension sees it: a map from key to a
    dynamically typed JavaScript value. A key that is absent from the map is
    `undefined`; `set(patch)` overwrites exactly the keys of the patch. */
module Storage {

  /** A JavaScript number as the extension produces it: `parseInt` yields an
      integer or `NaN`, and the counters are integers. */
  datatype Num = Int(n: int) | NaN

  /** A stored JavaScript value. */
  datatype Value = Bool(b: bool) | Str(s: string) | Number(num: Num) | Null

  type Store = map<string, Value>

  /** JavaScript truthiness: `false`, `''`, `0`, `NaN` and `null` are falsy. */
  predicate Truthy(v: Value) {
    match v
    case Bool(b) => b
    case Str(s) => s != ""
    case Number(Int(n)) => n != 0
    case Number(NaN) => false
    case Null => false
  }

  /** `stored || d` for a key read from the store. */
  function OrDefault(store: Store, key: string, d: Value): (v: Value)
    ensures key in store && Truthy(store[key]) ==> v == store[key]
    ensures !(key in store && Truthy(store[key])) ==> v == d
  {
    if key in store && Truthy(store[key]) then store[key] else d
  }

  /** `stored !== false`: every value other than the boolean `false`, including an
      absent key, reads as on. */
  predicate NotFalse(store: Store, key: string) {
    !(key in store && store[key] == Bool(false))
  }

  /** `chrome.storage.sync.set(patch)`: the keys of the patch take the patch's
      values, every other key keeps its stored value. */
  function Write(store: Store, patch: Store): (r: Store)
    ensures r.Keys == store.Keys + patch.Keys
    ensures forall k | k in patch :: r[k] == patch[k]
    ensures forall k | k in store && k !in patch :: r[k] == store[k]
  {
    store + patch
  }

  /** How `set` stores a value JSON cannot carry, which here is only `NaN`: as
      `null`, which is what `JSON.stringify` writes, or not at all, so that the
      key keeps what it held. The host decides, and the model takes its choice
      as an input. */
  datatype NanRule = NanAsNull | NanDropped

  /** The part of a patch that `set` stores. Every other value is kept as it is. */
  function Persisted(patch: Store, rule: NanRule): (r: Store)
    ensures forall k | k in patch && patch[k] != Number(NaN) :: k in r && r[k] == patch[k]
    ensures forall k | k in patch && patch[k] == Number(NaN) :: (k in r <==> rule == NanAsNull)
    ensures forall k | k in r :: k in patch && r[k] != Number(NaN)
    ensures forall k | k in r && patch[k] == Number(NaN) :: r[k] == Null
  {
    map k | k in patch && (rule == NanAsNull || patch[k] != Number(NaN)) ::
      if patch[k] == Number(NaN) then Null else patch[k]
  }

  /** Storing is stable: a stored patch stores as itself. */
  lemma PersistedIdempotent(patch: Store, rule: NanRule)
    ensures Persisted(Persisted(patch, rule), rule) == Persisted(patch, rule)
  {
    var p := Persisted(patch, rule);
    assert forall k | k in p :: p[k] != Number(NaN);
  }
}
