/**
 * The in-memory cache: values stored under a key, read back as copies, with every falsy
 * value read as `null`.
 */
module Cache {
  import opened Wrappers
  import JsText

  /** A value `structuredClone` can copy. */
  datatype JsValue =
    | JNull
    | JBool(b: bool)
    | JNumber(n: JsText.JsNum)
    | JText(s: string)
    | JArray(items: seq<JsValue>)
    | JObject(fields: seq<(string, JsValue)>)

  /** JavaScript truthiness: `null`, `false`, `0`, `NaN` and `''` are falsy; arrays and objects are not. */
  predicate IsTruthy(v: JsValue) {
    match v
    case JNull => false
    case JBool(b) => b
    case JNumber(n) => JsText.Truthy(n)
    case JText(s) => s != ""
    case JArray(_) => true
    case JObject(_) => true
  }

  /** `get(key)` on the stored values: the value under the key when there is one and it is truthy, else `null` (`None`). */
  function Read(memory: map<string, JsValue>, key: string): (r: Option<JsValue>)
    ensures r.Some? <==> key in memory && IsTruthy(memory[key])
    ensures r.Some? ==> r.value == memory[key]
  {
    if key in memory && IsTruthy(memory[key]) then Some(memory[key]) else None
  }

  class CacheMemory {
    /** `this.memory`. */
    var memory: map<string, JsValue>

    constructor ()
      ensures memory == map[]
    {
      memory := map[];
    }

    /** `set(key, value)`: stores a copy; values are immutable here, so the copy is the value itself. */
    method Set(key: string, value: JsValue)
      modifies this
      ensures memory == old(memory)[key := value]
    {
      memory := memory[key := value];
    }

    /** `get(key)`. */
    function Get(key: string): (r: Option<JsValue>)
      reads this
      ensures r.Some? ==> key in memory && r.value == memory[key] && IsTruthy(r.value)
    {
      Read(memory, key)
    }

    /** `clear()`. */
    method Clear()
      modifies this
      ensures memory == map[]
    {
      memory := map[];
    }
  }

  /** A key reads back what was last set under it (or `null` for a falsy value), and setting it leaves every other key as it was. */
  lemma SetThenRead(memory: map<string, JsValue>, key: string, value: JsValue, q: string)
    ensures Read(memory[key := value], q) ==
      if q == key then (if IsTruthy(value) then Some(value) else None) else Read(memory, q)
  {
  }

  /** A second set of the same key overwrites the first. */
  lemma SetOverwrites(memory: map<string, JsValue>, key: string, v1: JsValue, v2: JsValue, q: string)
    ensures Read(memory[key := v1][key := v2], q) == Read(memory[key := v2], q)
  {
  }

  /** After a clear, every key reads `null`. */
  lemma ClearedReadsNull(q: string)
    ensures Read(map[], q) == None
  {
  }
}
