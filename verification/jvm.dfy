/** The few `java.lang` behaviours the audit processor relies on. */
module Jvm {
  import opened Wrappers
  import opened Avro

  /** A Java `String` reference: `None` is null. */
  type JString = Option<string>

  /**
   `String.valueOf(Object)`: the text "null" for a null reference, otherwise
   the object's own `toString()`, given here as `toString`. A `toString` is
   taken to return a non-null string, so the result is never null.
   */
  function ValueOf(toString: Value -> string, v: Value): (s: JString)
    ensures s.Some?
    ensures s == Some("null") <==> v == Null || toString(v) == "null"
  {
    if v.Null? then Some("null") else Some(toString(v))
  }
}
