/**
 * A decoded JSON document as the Python client sees it after
 * `response.json()`, and the two Python operations the client applies to
 * it with a string operand: the membership test `key in value` and the
 * subscript `value[key]`. Exceptions are values of `Outcome`.
 */
module PyJson {

  /** JSON numbers are read as exact reals: only their sign is ever inspected. */
  datatype Json =
    | JNull
    | JBool(b: bool)
    | JNum(n: real)
    | JStr(s: string)
    | JArr(items: seq<Json>)
    | JObj(fields: map<string, Json>)

  /** The Python exceptions the modelled code can raise or catch. */
  datatype Exception =
    | KeyError      // a missing dictionary key
    | TypeError     // a membership test or subscript on a value that does not support it
    | ValueError    // a timestamp that does not match its format
    | NameError     // a reference to a name that is neither a local nor a defined global
    | DecodeError   // a response body that is not JSON

  /** The result of running Python code: a returned value or a raised exception. */
  datatype Outcome<+T> = Returned(value: T) | Raised(error: Exception) {

    predicate IsFailure() {
      Raised?
    }

    function PropagateFailure<U>(): Outcome<U>
      requires Raised?
    {
      Raised(error)
    }

    function Extract(): T
      requires Returned?
    {
      value
    }
  }

  /** Python's `needle in hay` on two strings. */
  predicate IsSubstring(needle: string, hay: string)
    decreases |hay|
  {
    |needle| <= |hay| && (hay[..|needle|] == needle || (|hay| > 0 && IsSubstring(needle, hay[1..])))
  }

  /**
   * `key in value`: a key test on an object, an element test on an array,
   * a substring test on a string, and a `TypeError` on anything else.
   */
  function Contains(value: Json, key: string): Outcome<bool> {
    match value
    case JObj(fields) => Returned(key in fields)
    case JArr(items) => Returned(JStr(key) in items)
    case JStr(s) => Returned(IsSubstring(key, s))
    case _ => Raised(TypeError)
  }

  /** `value[key]`: only an object can be subscripted by a string. */
  function Index(value: Json, key: string): Outcome<Json> {
    match value
    case JObj(fields) => if key in fields then Returned(fields[key]) else Raised(KeyError)
    case _ => Raised(TypeError)
  }

  /**
   * On an object the two operations agree: `key in d` is true exactly when
   * `d[key]` succeeds, and a missing key is a `KeyError`. On a value that is
   * not an object the subscript fails with `TypeError`, whatever `in` says.
   */
  lemma IndexAgreesWithContains(value: Json, key: string)
    ensures value.JObj? ==> (Index(value, key).Returned? <==> Contains(value, key) == Returned(true))
    ensures value.JObj? && Index(value, key).Raised? ==> Index(value, key).error == KeyError
    ensures !value.JObj? ==> Index(value, key) == Raised(TypeError)
    ensures Contains(value, key).Raised? <==> !(value.JObj? || value.JArr? || value.JStr?)
  {
  }
}
