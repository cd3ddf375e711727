/**
 * The JavaScript values the modelled hooks and utilities pass around.
 * Numbers are integers: NaN, infinities, -0 and fractions do not occur in
 * the model.
 */
module JsValue {

  datatype Option<+T> = None | Some(value: T)

  datatype Value =
    | Undefined
    | Null
    | Bool(b: bool)
    | Num(n: int)
    | Str(s: string)
    | Arr(elems: seq<Value>)
    | Obj(fields: map<string, Value>)

  /** A plain object's own enumerable properties; the key order is not modelled. */
  type Object = map<string, Value>

  /** JavaScript's ToBoolean: the falsy values are undefined, null, false, 0 and "". */
  predicate Truthy(v: Value) {
    match v
    case Undefined => false
    case Null => false
    case Bool(b) => b
    case Num(n) => n != 0
    case Str(s) => s != ""
    case Arr(_) => true
    case Obj(_) => true
  }

  /** The outcome of reading a property `v.key`. */
  datatype Read = Got(v: Value) | TypeError

  /**
   * Reading a property: undefined and null throw a TypeError; an object yields
   * its own field or undefined. Primitives and arrays yield undefined, which is
   * exact for keys that no built-in prototype defines ("id", "message").
   */
  function GetProp(v: Value, key: string): (r: Read)
    ensures r.TypeError? <==> v.Undefined? || v.Null?
    ensures r.Got? && v.Obj? && key in v.fields ==> r.v == v.fields[key]
    ensures r.Got? && !(v.Obj? && key in v.fields) ==> r.v == Undefined
  {
    match v
    case Undefined => TypeError
    case Null => TypeError
    case Obj(fields) => Got(if key in fields then fields[key] else Undefined)
    case _ => Got(Undefined)
  }

  /** The field `key` of a plain object, undefined when it is missing. */
  function Field(o: Object, key: string): Value {
    if key in o then o[key] else Undefined
  }

  /** The given argument, or the default `d` when it is left out. */
  function OrDefault<T>(o: Option<T>, d: T): (r: T)
    ensures o.None? ==> r == d
    ensures o.Some? ==> r == o.value
  {
    if o.Some? then o.value else d
  }

  function DigitChar(d: nat): (c: char)
    requires d < 10
    ensures '0' <= c <= '9'
    ensures c as int - '0' as int == d
  {
    "0123456789"[d]
  }

  predicate IsDigits(s: string) {
    forall i :: 0 <= i < |s| ==> '0' <= s[i] <= '9'
  }

  /** The number a string of decimal digits denotes, the leftmost digit most significant. */
  function DigitsValue(s: string): nat
    requires IsDigits(s)
    decreases |s|
  {
    if |s| == 0 then 0 else DigitsValue(s[..|s| - 1]) * 10 + (s[|s| - 1] as int - '0' as int)
  }

  /** Decimal notation of a natural number, as JavaScript's String(n) writes it. */
  function NatToString(n: nat): (s: string)
    ensures |s| > 0 && IsDigits(s)
    ensures DigitsValue(s) == n
    ensures n < 10 <==> |s| == 1
    ensures |s| > 1 ==> s[0] != '0'
    decreases n
  {
    if n < 10 then [DigitChar(n)]
    else
      var s := NatToString(n / 10) + [DigitChar(n % 10)];
      assert s[..|s| - 1] == NatToString(n / 10);
      s
  }

  /** Decimal notation of an integer, with a leading '-' when it is negative. */
  function IntToString(i: int): (s: string)
    ensures |s| > 0
    ensures (s[0] == '-') <==> i < 0
    ensures i >= 0 ==> IsDigits(s) && DigitsValue(s) == i
    ensures i < 0 ==> IsDigits(s[1..]) && DigitsValue(s[1..]) == -i
    ensures i >= 0 && |s| > 1 ==> s[0] != '0'
    ensures i < 0 ==> |s| > 1 && s[1] != '0'
  {
    if i < 0 then
      var s := "-" + NatToString(-i);
      assert s[1..] == NatToString(-i);
      s
    else NatToString(i)
  }

  /** `parts.join(",")` */
  function Join(parts: seq<string>): (s: string)
    ensures |parts| == 0 ==> s == ""
    ensures |parts| == 1 ==> s == parts[0]
    decreases |parts|
  {
    if |parts| == 0 then "" else if |parts| == 1 then parts[0] else parts[0] + "," + Join(parts[1..])
  }

  /**
   * JavaScript's `String(v)` on the modelled values: a string is itself, a
   * number its decimal notation, an array the join of its elements with
   * undefined and null written as "", and a plain object "[object Object]".
   */
  function ToJsString(v: Value): (s: string)
    ensures v.Undefined? ==> s == "undefined"
    ensures v.Null? ==> s == "null"
    ensures v.Bool? ==> s == (if v.b then "true" else "false")
    ensures v.Str? ==> s == v.s
    ensures v.Num? ==> s == IntToString(v.n)
    ensures v.Obj? ==> s == "[object Object]"
    ensures v.Arr? && |v.elems| == 0 ==> s == ""
    decreases v, 0
  {
    match v
    case Undefined => "undefined"
    case Null => "null"
    case Bool(b) => if b then "true" else "false"
    case Num(n) => IntToString(n)
    case Str(t) => t
    case Arr(a) =>
      Join(seq(|a|, i requires 0 <= i < |a| => ElementText(a[i])))
    case Obj(_) => "[object Object]"
  }

  /** How `Array.prototype.join` writes one element: undefined and null as "", anything else by `String`. */
  function ElementText(e: Value): (s: string)
    ensures e.Undefined? || e.Null? ==> s == ""
    ensures !(e.Undefined? || e.Null?) ==> s == ToJsString(e)
    decreases e, 1
  {
    if e.Undefined? || e.Null? then "" else ToJsString(e)
  }

  /**
   * A non-empty array is written element by element: the text of its first
   * element, then, when more follow, a comma and the text of the rest.
   */
  lemma ArrayText(a: seq<Value>)
    requires |a| > 0
    ensures |a| == 1 ==> ToJsString(Arr(a)) == ElementText(a[0])
    ensures |a| > 1 ==> ToJsString(Arr(a)) == ElementText(a[0]) + "," + ToJsString(Arr(a[1..]))
  {
    var parts := seq(|a|, i requires 0 <= i < |a| => ElementText(a[i]));
    var tail := seq(|a| - 1, i requires 0 <= i < |a| - 1 => ElementText(a[1..][i]));
    assert parts[1..] == tail;
  }

  /** `String([1, null, "a", [true]])` is "1,,a,true". */
  lemma NestedArrayText()
    ensures ToJsString(Arr([Num(1), Null, Str("a"), Arr([Bool(true)])])) == "1,,a,true"
  {
    var a := [Num(1), Null, Str("a"), Arr([Bool(true)])];
    ArrayText(a);
    ArrayText(a[1..]);
    ArrayText(a[2..]);
    ArrayText(a[3..]);
    ArrayText([Bool(true)]);
    assert a[1..][1..] == a[2..];
    assert a[2..][1..] == a[3..];
  }
}
