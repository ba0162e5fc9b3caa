/** The values `json.loads` produces, and the two Python operations the
    response validator applies to them: the membership test `key in value`
    and the subscript `value[key]` with a string key. Either can raise; a
    raised exception is a value of `Eval`, so that a caller can model a
    surrounding `try`/`except`. */
module JsonValue {
  import opened PyText

  /** A parsed JSON document: None, bool, int or float, str, list, and dict
      with string keys. */
  datatype Json =
    | JNull
    | JBool(b: bool)
    | JNumber(n: real)
    | JString(s: string)
    | JArray(items: seq<Json>)
    | JObject(fields: map<string, Json>)

  /** The Python exceptions that the validator's operations can raise. */
  datatype PyError = TypeError | KeyError

  /** The outcome of evaluating a Python expression: a value, or an exception
      that propagates until something catches it. */
  datatype Eval<+T> = Ok(value: T) | Raised(error: PyError) {
    predicate IsFailure() {
      Raised?
    }

    /** Carries the exception on. `:-` calls this only on `Raised`, so the
        `Ok` arm is never reached; it has no precondition because a
        precondition check at a `:-` that cannot fail would rest on
        contradictory facts. */
    function PropagateFailure<U>(): Eval<U> {
      match this
      case Raised(e) => Raised(e)
      case Ok(_) => Raised(TypeError)
    }

    function Extract(): T
      requires Ok?
    {
      value
    }
  }

  /** `key in v` for a string `key`: key membership for a dict, element
      equality for a list, substring for a str, and TypeError for None, bool
      and numbers, which are not containers. */
  function In(key: string, v: Json): (r: Eval<bool>)
    ensures r.Raised? <==> !(v.JObject? || v.JArray? || v.JString?)
    ensures v.JObject? ==> r == Ok(key in v.fields)
    ensures v.JArray? ==> r == Ok(exists i :: 0 <= i < |v.items| && v.items[i] == JString(key))
    ensures v.JString? ==> r == Ok(IsSubstring(key, v.s))
  {
    match v
    case JObject(fields) => Ok(key in fields)
    case JArray(items) => Ok(JString(key) in items)
    case JString(s) => Ok(IsSubstring(key, s))
    case _ => Raised(TypeError)
  }

  /** `v[key]` for a string `key`: the entry of a dict, KeyError for a dict
      without that key, and TypeError for every other value (a list or str
      takes only integer indices). */
  function Subscript(v: Json, key: string): (r: Eval<Json>)
    ensures r.Ok? <==> v.JObject? && key in v.fields
    ensures r.Ok? ==> r.value == v.fields[key]
    ensures r == Raised(KeyError) <==> v.JObject? && key !in v.fields
  {
    match v
    case JObject(fields) => if key in fields then Ok(fields[key]) else Raised(KeyError)
    case _ => Raised(TypeError)
  }

  /** Python's promise that ties the two operations together: on a dict,
      `key in d` holds exactly when `d[key]` succeeds and fails exactly when
      `d[key]` raises KeyError; where `in` raises, `v[key]` raises TypeError. */
  lemma InAgreesWithSubscript(key: string, v: Json)
    ensures v.JObject? ==> (In(key, v) == Ok(true) <==> Subscript(v, key).Ok?)
    ensures v.JObject? ==> (In(key, v) == Ok(false) <==> Subscript(v, key) == Raised(KeyError))
    ensures In(key, v).Raised? ==> Subscript(v, key) == Raised(TypeError)
  {
  }
}
