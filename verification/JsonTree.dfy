/** Parsed JSON. Numbers keep their text, as the decoder is told to do. */
module JsonTree {
  datatype Json =
    | Null
    | Bool(b: bool)
    | Number(digits: string)
    | Text(text: string)
    | Array(items: seq<Json>)
    | Object(fields: map<string, Json>)

  /** The database's text types hold every character but this one. */
  predicate FreeOfNul(s: string) {
    forall i :: 0 <= i < |s| ==> s[i] != '\0'
  }

  /** Whether a tree can be stored as jsonb: no text or key of it holds U+0000. */
  predicate TreeFreeOfNul(v: Json) {
    match v
    case Text(text) => FreeOfNul(text)
    case Array(items) => forall i :: 0 <= i < |items| ==> TreeFreeOfNul(items[i])
    case Object(fields) => forall k :: k in fields ==> FreeOfNul(k) && TreeFreeOfNul(fields[k])
    case _ => true
  }
}
