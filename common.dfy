/** Shared value types: optional values, error results and the JSON values that
    cross the adapter's boundaries (directives, template payloads, CLI replies). */
module Common {

  datatype Option<+T> = None | Some(value: T)

  /** A value or a thrown error message. */
  datatype Result<+T> = Ok(value: T) | Err(error: string)

  /** A parsed JSON value. Numbers are integers: the adapter never reads a fraction. */
  datatype Json =
    | JNull
    | JBool(b: bool)
    | JNumber(n: int)
    | JString(s: string)
    | JArray(items: seq<Json>)
    | JObject(fields: map<string, Json>)

  type JsonObject = map<string, Json>

  /** JavaScript truthiness of a JSON value. */
  predicate Truthy(v: Json) {
    match v
    case JNull => false
    case JBool(b) => b
    case JNumber(n) => n != 0
    case JString(s) => s != ""
    case JArray(_) => true
    case JObject(_) => true
  }

  /** JavaScript truthiness of an optional string (`undefined` and "" are falsy). */
  predicate TruthyText(o: Option<string>) {
    o.Some? && o.value != ""
  }

  /** The characters JavaScript's `.` refuses to match (line terminators). */
  predicate IsLineTerminator(c: char) {
    c == '\n' || c == '\r' || c == '\U{2028}' || c == '\U{2029}'
  }

  /** JavaScript's `\s`: white space and line terminators. */
  predicate IsJsSpace(c: char)
  {
    || c == '\t' || c == '\n' || c == '\U{000B}' || c == '\U{000C}' || c == '\r' || c == ' '
    || c == '\U{00A0}' || c == '\U{1680}' || ('\U{2000}' <= c <= '\U{200A}')
    || c == '\U{2028}' || c == '\U{2029}' || c == '\U{202F}' || c == '\U{205F}' || c == '\U{3000}' || c == '\U{FEFF}'
  }
}
