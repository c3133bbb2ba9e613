/**
 * JSON values as JavaScript holds them after `JSON.parse`, and the few
 * JavaScript operators the export and the message store apply to them.
 *
 * A number is kept as the text JavaScript's `String(n)` gives it (number
 * formatting is outside the model). An object is the list of its members in
 * JavaScript's enumeration order; as `JSON.parse` merges repeated keys, the
 * members of an object are taken to carry distinct keys.
 */
module JsonValue {
  import opened Wrappers
  import opened JsString

  datatype Json =
    | Null
    | Bool(b: bool)
    | Num(text: string)
    | Str(s: string)
    | Arr(elems: seq<Json>)
    | Obj(members: seq<Member>)

  datatype Member = Member(key: string, value: Json)

  /** `typeof v === 'object'`: true of `null`, arrays and objects alike. */
  predicate IsObjectTyped(v: Json) {
    v.Null? || v.Arr? || v.Obj?
  }

  /** JavaScript truthiness: `null`, `false`, `0` and `""` are falsy. */
  predicate Truthy(v: Json) {
    match v
    case Null => false
    case Bool(b) => b
    case Num(t) => t != "0" && t != "NaN"
    case Str(s) => s != ""
    case _ => true
  }

  /** `String(v)`, which is also what a template `${v}` produces. */
  function ToText(v: Json): string {
    match v
    case Null => "null"
    case Bool(b) => if b then "true" else "false"
    case Num(t) => t
    case Str(s) => s
    case Arr(xs) => Join(ArrayItemsText(xs), ",")
    case Obj(_) => "[object Object]"
  }

  /** Items of an array as `String` of the array joins them: `null` becomes "". */
  function ArrayItemsText(xs: seq<Json>): (r: seq<string>)
    ensures |r| == |xs|
  {
    if xs == [] then []
    else [if xs[0].Null? then "" else ToText(xs[0])] + ArrayItemsText(xs[1..])
  }

  /** Property lookup `o[key]` on an object's members: the value, or `undefined`. */
  function Get(ms: seq<Member>, key: string): (r: Option<Json>)
    ensures r.None? <==> forall i :: 0 <= i < |ms| ==> ms[i].key != key
    ensures r.Some? ==> exists i :: 0 <= i < |ms| && ms[i].key == key && ms[i].value == r.value
  {
    if ms == [] then None
    else if ms[0].key == key then Some(ms[0].value)
    else Get(ms[1..], key)
  }

  /** The keys of a member list, in order (`Object.keys`). */
  function Keys(ms: seq<Member>): (r: seq<string>)
    ensures |r| == |ms|
    ensures forall i :: 0 <= i < |ms| ==> r[i] == ms[i].key
  {
    seq(|ms|, i requires 0 <= i < |ms| => ms[i].key)
  }

  predicate DistinctKeys(ms: seq<Member>) {
    forall i, j :: 0 <= i < j < |ms| ==> ms[i].key != ms[j].key
  }

  /** Decimal text of a natural number, as JavaScript writes an array index. */
  function NatToText(n: nat): (r: string)
    ensures |r| >= 1
    ensures forall i :: 0 <= i < |r| ==> '0' <= r[i] <= '9'
  {
    var d := ['0' + (n % 10) as char];
    if n < 10 then d else NatToText(n / 10) + d
  }
}
