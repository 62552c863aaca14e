/**
 * The loosely typed values stored in an item's `field_data` and passed around the
 * client: a tagged union of the JavaScript values the core meets, with the host's
 * truthiness, `String(v)`, `Number(v)`, `JSON.stringify` and `===` on them.
 */
module Values {
  import opened Wrappers
  import opened Strings
  import opened Records
  import Lists

  /**
   * `Num` holds integers only, `NaN` is the not-a-number value, `Arr` is an
   * array of strings (URLs, tags) and `Obj` any other object, carried by its
   * JSON text.
   */
  datatype Value =
    | Undefined
    | Null
    | Str(s: string)
    | Num(n: int)
    | NaN
    | Bool(b: bool)
    | Arr(items: seq<string>)
    | Obj(json: string)

  /** `o[key]` on an object of values: a missing key reads as `undefined`. */
  function Lookup(o: Record<Value>, key: string): (v: Value)
    ensures Get(o, key).None? ==> v == Undefined
    ensures Get(o, key).Some? ==> v == Get(o, key).value
  {
    Get(o, key).GetOr(Undefined)
  }

  /** JavaScript truthiness: `!!v`. Arrays and objects are truthy even when empty. */
  predicate Truthy(v: Value) {
    match v
    case Undefined => false
    case Null => false
    case NaN => false
    case Str(s) => s != ""
    case Num(n) => n != 0
    case Bool(b) => b
    case Arr(_) => true
    case Obj(_) => true
  }

  /** `v === undefined || v === null || v === ''`. */
  predicate IsEmpty(v: Value) {
    v == Undefined || v == Null || v == Str("")
  }

  /** Every empty value is falsy; the falsy values that are not empty are `0`, `NaN` and `false`. */
  lemma EmptyIsFalsy(v: Value)
    ensures IsEmpty(v) ==> !Truthy(v)
    ensures !Truthy(v) && !IsEmpty(v) <==> v == Num(0) || v == NaN || v == Bool(false)
  {
  }

  /** `a || b`. */
  function Or(a: Value, b: Value): Value {
    if Truthy(a) then a else b
  }

  /** `String(v)`. */
  function ToStr(v: Value): string {
    match v
    case Undefined => "undefined"
    case Null => "null"
    case Str(s) => s
    case Num(n) => IntToString(n)
    case NaN => "NaN"
    case Bool(b) => if b then "true" else "false"
    case Arr(xs) => Join(xs, ",")
    case Obj(_) => "[object Object]"
  }

  /** `Number(v)`, with `None` for `NaN`; an array converts through its string form. */
  function ToNumber(v: Value): (r: Option<int>)
    ensures v.Num? ==> r == Some(v.n)
    ensures v.Str? || v.Arr? ==> r == StringToNumber(ToStr(v))
  {
    match v
    case Undefined => None
    case Null => Some(0)
    case Str(s) => StringToNumber(s)
    case Num(n) => Some(n)
    case NaN => None
    case Bool(b) => Some(if b then 1 else 0)
    case Arr(xs) => StringToNumber(Join(xs, ","))
    case Obj(_) => None
  }

  /** `parseFloat(s)` on integer text, with `NaN` when no digits lead. */
  function ParseFloat(s: string): (v: Value)
    ensures v.NaN? || v.Num?
  {
    match ParseLeadingInt(s)
    case None => NaN
    case Some(n) => Num(n)
  }

  /** The text of a number converts back to that number: `Number(String(n)) === n`. */
  lemma ToNumberOfText(n: int)
    ensures ToNumber(Str(ToStr(Num(n)))) == Some(n)
  {
    StringToNumberOfIntToString(n);
  }

  /** `JSON.stringify(v)` for the object values that the search hook serialises (string escapes are not modelled). */
  function JsonText(v: Value): string
    requires v.Arr? || v.Obj?
  {
    match v
    case Arr(xs) => "[" + Join(Lists.Map(xs, Quote), ",") + "]"
    case Obj(json) => json
  }

  function Quote(s: string): string {
    "\"" + s + "\""
  }

  /**
   * `a === b`. Primitives compare by value (`NaN` equals nothing); arrays and
   * objects compare by reference, which the model does not track, so two of
   * them are never identified.
   */
  predicate StrictEquals(a: Value, b: Value) {
    match a
    case Undefined => b.Undefined?
    case Null => b.Null?
    case Str(s) => b.Str? && b.s == s
    case Num(n) => b.Num? && b.n == n
    case NaN => false
    case Bool(x) => b.Bool? && b.b == x
    case Arr(_) => false
    case Obj(_) => false
  }

  /** `xs.includes(v)` for an array of strings. */
  predicate IncludedIn(v: Value, xs: seq<string>) {
    v.Str? && v.s in xs
  }
}
