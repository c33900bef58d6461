/**
 * The value tree that JSON.parse builds, extended with the Date objects a
 * reviver may put into it.
 */
module Json {

  datatype Value =
    | JNull
    | JBool(b: bool)
    | JNumber(n: int)
    | JString(s: string)
    | JArray(items: seq<Value>)
    | JObject(members: seq<Member>)
      /** A JavaScript Date built from the text `timestamp`; the date itself is not parsed. */
    | JDate(timestamp: string)

  datatype Member = Member(name: string, value: Value)

  /** A tree as JSON text parses it: no Date anywhere. */
  predicate IsParsed(v: Value)
  {
    match v
    case JDate(_) => false
    case JArray(items) => forall i :: 0 <= i < |items| ==> IsParsed(items[i])
    case JObject(ms) => forall i :: 0 <= i < |ms| ==> IsParsed(ms[i].value)
    case _ => true
  }
}
