/**
  The JSON values the rivers read, as json-simple hands them back.

  A row is a `JSONObject`: a map from field name to value. `JSONObject.get` answers
  Java `null` both for a missing key and for a key bound to JSON `null`; `Get` below
  folds the two together in the same way. The Java casts the river code applies to
  what `get` returns (`(String)`, `(JSONObject)`, `(JSONArray)`) either succeed or
  raise; `Outcome.Raised` stands for the exception, which the surrounding
  `catch (Exception e)` turns into "stop processing this table".
*/
module Json {

  datatype Option<+T> = None | Some(value: T)

  /** The result of a Java step that may raise a runtime exception
      (a failed cast or a dereferenced `null`). */
  datatype Outcome<+T> = Done(value: T) | Raised

  /** A field value. Integers are `Long` in json-simple; doubles, arrays and nested
      objects are carried as the text their `toString()` produces. */
  datatype Value =
    | Null
    | Str(s: string)
    | Num(n: int)
    | Bool(b: bool)
    | Other(rendered: string)

  /** One row of a table, forwarded verbatim as the document body. */
  type Row = map<string, Value>

  /** An element that the code casts to `JSONObject`. `NotAnObject` covers `null`,
      a missing key and any value of another JSON type: casting or dereferencing it
      raises. */
  datatype JsonObj = Obj(fields: Row) | NotAnObject

  /** What one HTTP GET of a table yields once parsed.
      `Unreadable`: the connection or read failed, the line was not JSON, the
      document was not an object, or it had no `table` object.
      `Table`: the `properties` element and the `rows` element, `None` when `rows`
      is missing or not an array. */
  datatype Payload =
    | Unreadable
    | Table(properties: JsonObj, rows: Option<seq<JsonObj>>)

  /** `row.get(key)` in Java: `None` for a missing key and for JSON `null`. */
  function Get(row: Row, key: string): Option<Value>
  {
    if key in row && row[key] != Null then Some(row[key]) else None
  }

  /** `(String)v` in Java: `null` casts to `null`, a non-string raises. */
  function AsString(v: Option<Value>): Outcome<Option<string>>
  {
    match v
    case None => Done(None)
    case Some(Str(s)) => Done(Some(s))
    case Some(_) => Raised
  }

  /** `v.toString()` for a non-null value. */
  function ToString(v: Value): string
  {
    match v
    case Null => "null"
    case Str(s) => s
    case Num(n) => IntToString(n)
    case Bool(b) => if b then "true" else "false"
    case Other(rendered) => rendered
  }

  function DigitChar(d: nat): char
    requires d < 10
  {
    "0123456789"[d]
  }

  /** Decimal digits of a natural number, as `Long.toString` writes them. */
  function NatToString(n: nat): (s: string)
    ensures |s| > 0
    ensures forall k :: 0 <= k < |s| ==> '0' <= s[k] <= '9'
    decreases n
  {
    if n < 10 then [DigitChar(n)] else NatToString(n / 10) + [DigitChar(n % 10)]
  }

  function IntToString(i: int): string
  {
    if i < 0 then "-" + NatToString(-i) else NatToString(i)
  }
}
