/** The slice of JavaScript value semantics the library relies on: dynamic values,
    truthiness, number-to-string conversion, `Array.prototype.toString` and `for…in`
    over arbitrary values. Numbers are integers here; floating point is not modelled. */
module Js {

  datatype Value =
    | Undefined
    | Null
    | Bool(b: bool)
    | Num(n: int)
    | Str(s: string)
    | List(items: seq<Value>)
    | Obj(fields: seq<(string, Value)>)

  /** JavaScript truthiness: `undefined`, `null`, `false`, `0` and `""` are falsy. */
  predicate Truthy(v: Value) {
    match v
    case Undefined => false
    case Null => false
    case Bool(b) => b
    case Num(n) => n != 0
    case Str(s) => s != ""
    case List(_) => true
    case Obj(_) => true
  }

  predicate IsDigit(c: char) {
    '0' <= c <= '9'
  }

  /** Decimal notation of a natural number, without leading zeros. */
  function NatToString(n: nat): (s: string)
    ensures |s| > 0
    ensures forall i :: 0 <= i < |s| ==> IsDigit(s[i])
    ensures n >= 10 ==> |s| > 1
    decreases n
  {
    var digit := ["0123456789"[n % 10]];
    if n < 10 then digit else NatToString(n / 10) + digit
  }

  /** `String(n)` for an integer number. */
  function IntToString(i: int): string {
    if i < 0 then "-" + NatToString(-i) else NatToString(i)
  }

  /** `strs.join(",")`. */
  function JoinWithComma(strs: seq<string>): string {
    if |strs| == 0 then ""
    else if |strs| == 1 then strs[0]
    else strs[0] + "," + JoinWithComma(strs[1..])
  }

  /** The string an array element contributes to `Array.prototype.join`: `null` and
      `undefined` contribute the empty string, a nested array its own join. */
  function ElementString(v: Value): string {
    match v
    case Undefined => ""
    case Null => ""
    case Bool(b) => if b then "true" else "false"
    case Num(n) => IntToString(n)
    case Str(s) => s
    case List(items) => JoinWithComma(seq(|items|, i requires 0 <= i < |items| => ElementString(items[i])))
    case Obj(_) => "[object Object]"
  }

  /** `String(v)`. */
  function StringOf(v: Value): string {
    match v
    case Undefined => "undefined"
    case Null => "null"
    case _ => ElementString(v)
  }

  /** `args.toString()` for an argument array. */
  function ArrayToString(args: seq<Value>): string {
    ElementString(List(args))
  }

  /** The names every plain object inherits from `Object.prototype`. */
  const InheritedNames: set<string> := {
    "constructor", "hasOwnProperty", "isPrototypeOf", "propertyIsEnumerable", "toLocaleString",
    "toString", "valueOf", "__defineGetter__", "__defineSetter__", "__lookupGetter__",
    "__lookupSetter__", "__proto__"}

  /** `s.length`: the number of UTF-16 code units of the string, two for a character
      outside the Basic Multilingual Plane, which is stored as a surrogate pair. */
  function Utf16Length(s: string): (n: nat)
    ensures |s| <= n <= 2 * |s|
    decreases |s|
  {
    if |s| == 0 then 0 else Utf16Length(s[..|s| - 1]) + (if s[|s| - 1] as int >= 0x10000 then 2 else 1)
  }

  /** The length is additive over concatenation. */
  lemma {:induction false} Utf16LengthAppend(a: string, b: string)
    ensures Utf16Length(a + b) == Utf16Length(a) + Utf16Length(b)
    decreases |b|
  {
    if |b| > 0 {
      var b' := b[..|b| - 1];
      assert (a + b)[..|a + b| - 1] == a + b';
      Utf16LengthAppend(a, b');
    } else {
      assert a + b == a;
    }
  }

  /** The UTF-16 length is the number of characters exactly when every character lies in
      the Basic Multilingual Plane. */
  lemma {:induction false} Utf16LengthBmp(s: string)
    ensures Utf16Length(s) == |s| <==> forall i | 0 <= i < |s| :: (s[i] as int) < 0x10000
    decreases |s|
  {
    if |s| > 0 {
      var init := s[..|s| - 1];
      Utf16LengthBmp(init);
      assert forall i | 0 <= i < |init| :: init[i] == s[i];
    }
  }

  /** The entries a `for (const k in v)` loop visits, with `v[k]`: an object's own fields,
      the indices of a string or an array, and nothing for any other value. */
  function ForInEntries(v: Value): (es: seq<(string, Value)>)
    ensures v.Obj? ==> es == v.fields
    ensures v.Str? ==> |es| == |v.s|
    ensures v.List? ==> |es| == |v.items|
    ensures !v.Obj? && !v.Str? && !v.List? ==> es == []
  {
    match v
    case Obj(fields) => fields
    case Str(s) => seq(|s|, i requires 0 <= i < |s| => (NatToString(i), Str([s[i]])))
    case List(items) => seq(|items|, i requires 0 <= i < |items| => (NatToString(i), items[i]))
    case _ => []
  }

  /** A string or an array is visited by index, the keys being the indices in decimal. */
  lemma ForInIndexKeys(v: Value, i: nat)
    requires !v.Obj? && i < |ForInEntries(v)|
    ensures ForInEntries(v)[i].0 == NatToString(i)
  {
  }
}
