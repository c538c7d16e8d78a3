/** Request bodies as `express.json()` hands them to the auth routes, and the
    JavaScript coercions the validators and handlers apply to them. */
module Payload {
  import opened Wrappers
  import opened JsStrings
  import opened Messages

  /** A JSON value of a body field. `Object` lists its own keys with their
      values in the order `Object.keys` gives them (integer-like keys first,
      ascending, then the others as inserted). */
  datatype Value =
    | Text(s: string)
    | Number(n: int)
    | Object(entries: seq<(string, string)>)

  /** A field read from a body or a record; `None` is `undefined`. */
  type Field = Option<Value>

  type Body = map<string, Value>

  /** `req.body[name]`. */
  function Get(b: Body, name: string): (f: Field)
    ensures f.Some? <==> name in b
  {
    if name in b then Some(b[name]) else None
  }

  /** JavaScript truthiness of a field value. */
  predicate Truthy(f: Field)
  {
    match f
    case None => false
    case Some(Text(s)) => s != ""
    case Some(Number(n)) => n != 0
    case Some(Object(_)) => true
  }

  /** express-validator's `toString` coercion, applied before every
      standard validator and sanitizer. */
  function ToStr(f: Field): string
  {
    match f
    case None => ""
    case Some(Text(s)) => s
    case Some(Number(n)) => IntToString(n)
    case Some(Object(_)) => "[object Object]"
  }

  /** The strings "0" .. "n-1". */
  function IndexKeys(n: nat): (keys: seq<string>)
    ensures |keys| == n
  {
    if n == 0 then [] else IndexKeys(n - 1) + [NatToString(n - 1)]
  }

  /** `Object.keys(v)`: an object's own keys in the order its entries list
      them, a string's indices. */
  function OwnKeys(v: Value): seq<string>
  {
    match v
    case Object(entries) => seq(|entries|, i requires 0 <= i < |entries| => entries[i].0)
    case Text(s) => IndexKeys(|s|)
    case Number(_) => []
  }

  /** One `{field, message}` entry of a validation failure. */
  datatype FieldError = FieldError(field: string, message: Message)

  /** Every error in `errs` concerns `field`. */
  predicate AllFor(errs: seq<FieldError>, field: string)
  {
    forall k :: 0 <= k < |errs| ==> errs[k].field == field
  }
}
