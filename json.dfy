/**
 * Values produced by JSON.parse, and the few JavaScript operations the
 * scripts apply to them: property access, truthiness and String(x).
 * An object is its own-property list in Object.keys order. The list type
 * admits a repeated key, which a parsed object never has (JSON.parse keeps
 * the last value of a repeated key); property access (Get) takes the first
 * occurrence. Numbers are integers only.
 */
module Json {
  import opened Wrappers
  import opened Text

  datatype Json =
    | JNull
    | JBool(b: bool)
    | JNum(n: int)
    | JStr(s: string)
    | JArr(elems: seq<Json>)
    | JObj(fields: seq<(string, Json)>)

  /** The first property of `fields` named `key`, if any. */
  function Get(fields: seq<(string, Json)>, key: string): (r: Option<Json>)
    ensures r.None? <==> forall i :: 0 <= i < |fields| ==> fields[i].0 != key
    ensures r.Some? ==> exists i :: 0 <= i < |fields| && fields[i] == (key, r.value)
  {
    if fields == [] then None
    else if fields[0].0 == key then Some(fields[0].1)
    else
      var r := Get(fields[1..], key);
      assert r.Some? ==> exists i :: 0 <= i < |fields[1..]| && fields[1..][i] == (key, r.value);
      r
  }

  /** `x.key`: None stands for `undefined` (every non-object has no such property). */
  function Member(x: Json, key: string): Option<Json>
  {
    if x.JObj? then Get(x.fields, key) else None
  }

  /** `key in x` for the values where the scripts use it. */
  predicate HasKey(x: Json, key: string)
  {
    x.JObj? && Get(x.fields, key).Some?
  }

  /** `x.key != null`: the property exists and is not null. */
  predicate HasNonNull(x: Json, key: string)
  {
    Member(x, key).Some? && Member(x, key).value != JNull
  }

  /** JavaScript truthiness of a JSON value (NaN cannot come from JSON.parse). */
  predicate Truthy(x: Json)
  {
    match x
    case JNull => false
    case JBool(b) => b
    case JNum(n) => n != 0
    case JStr(s) => s != ""
    case JArr(_) => true
    case JObj(_) => true
  }

  /** A possibly-undefined property read is truthy. */
  predicate TruthyMember(x: Json, key: string)
  {
    Member(x, key).Some? && Truthy(Member(x, key).value)
  }

  /** `parts.join(sep)` */
  function Join(parts: seq<string>, sep: string): string
  {
    if parts == [] then ""
    else if |parts| == 1 then parts[0]
    else parts[0] + sep + Join(parts[1..], sep)
  }

  /** `String(x)`: arrays join their elements with commas, null elements becoming empty. */
  function JsString(x: Json): string
  {
    match x
    case JNull => "null"
    case JBool(b) => if b then "true" else "false"
    case JNum(n) => IntString(n)
    case JStr(s) => s
    case JArr(a) => Join(seq(|a|, i requires 0 <= i < |a| => if a[i] == JNull then "" else JsString(a[i])), ",")
    case JObj(_) => "[object Object]"
  }
}
