/** The slice of JavaScript value semantics the dashboard's pages rely on:
    values as a tagged union, truthiness, `||`, optional property access,
    string conversion, `trim`, `toLowerCase` and prefix/substring tests. */
module Js {

  datatype Option<+T> = None | Some(value: T)

  /** A JavaScript value as the pages see it. Numbers are integers (no
      floating point, no NaN); a `File` is an opaque handle standing for a
      browser File object chosen by the user. */
  datatype Value =
    | Undefined
    | Null
    | Bool(b: bool)
    | Num(n: int)
    | Str(s: string)
    | Arr(items: seq<Value>)
    | Obj(props: map<string, Value>)
    | File(handle: nat)

  /** A plain object used as a record: form values, errors, API items. */
  type Object = map<string, Value>

  /** ECMAScript truthiness: undefined, null, false, 0 and "" are falsy. */
  predicate Truthy(v: Value)
  {
    match v
    case Undefined => false
    case Null => false
    case Bool(b) => b
    case Num(n) => n != 0
    case Str(s) => s != ""
    case _ => true
  }

  /** `a || b` */
  function Or(a: Value, b: Value): Value
  {
    if Truthy(a) then a else b
  }

  /** `o[k]` on a plain object; a missing key reads as undefined. */
  function Get(o: Object, k: string): Value
  {
    if k in o then o[k] else Undefined
  }

  /** `v?.[k]`: a property of an object value, undefined for anything else. */
  function Prop(v: Value, k: string): Value
  {
    match v
    case Obj(m) => Get(m, k)
    case _ => Undefined
  }

  /** `typeof v === 'string'` */
  predicate IsString(v: Value)
  {
    v.Str?
  }

  // ---------------------------------------------------------------------
  // String conversion

  function DigitChar(d: nat): char
    requires d < 10
  {
    ('0' as int + d) as char
  }

  function Digits(n: nat): string
    decreases n
  {
    if n < 10 then [DigitChar(n)] else Digits(n / 10) + [DigitChar(n % 10)]
  }

  /** Decimal rendering of an integer, as `String(n)` gives it. */
  function NumToString(n: int): string
  {
    if n < 0 then "-" + Digits(-n) else Digits(n)
  }

  /** `String(v)`: arrays join their elements with "," and render null and
      undefined elements as "". */
  function ToJsString(v: Value): string
    decreases v, 1 + (if v.Arr? then |v.items| else 0)
  {
    match v
    case Undefined => "undefined"
    case Null => "null"
    case Bool(b) => if b then "true" else "false"
    case Num(n) => NumToString(n)
    case Str(s) => s
    case Arr(items) => JoinFrom(v, 0)
    case Obj(_) => "[object Object]"
    case File(_) => "[object File]"
  }

  function JoinFrom(v: Value, i: nat): string
    requires v.Arr? && i <= |v.items|
    decreases v, |v.items| - i
  {
    if i == |v.items| then ""
    else
      var e := v.items[i];
      var piece := if e.Undefined? || e.Null? then "" else ToJsString(e);
      (if i == 0 then "" else ",") + piece + JoinFrom(v, i + 1)
  }

  /** `v?.toString()`: undefined for null or undefined, the string otherwise. */
  function OptToString(v: Value): Value
  {
    if v.Undefined? || v.Null? then Undefined else Str(ToJsString(v))
  }

  // ---------------------------------------------------------------------
  // Strings

  /** The ECMAScript WhiteSpace and LineTerminator code points, which is
      what `String.prototype.trim` strips. */
  predicate IsSpace(c: char)
  {
    var n := c as int;
    n == 0x09 || n == 0x0A || n == 0x0B || n == 0x0C || n == 0x0D || n == 0x20
    || n == 0xA0 || n == 0x1680 || (0x2000 <= n <= 0x200A) || n == 0x2028
    || n == 0x2029 || n == 0x202F || n == 0x205F || n == 0x3000 || n == 0xFEFF
  }

  predicate AllSpace(s: string)
  {
    forall i :: 0 <= i < |s| ==> IsSpace(s[i])
  }

  /** `s.trimStart()` */
  function TrimStart(s: string): string
  {
    if |s| > 0 && IsSpace(s[0]) then TrimStart(s[1..]) else s
  }

  /** `s.trimEnd()` */
  function TrimEnd(s: string): string
  {
    if |s| > 0 && IsSpace(s[|s| - 1]) then TrimEnd(s[..|s| - 1]) else s
  }

  /** `trimStart` drops a prefix of white space and stops at the first
      other character. */
  lemma {:induction false} TrimStartShape(s: string)
    ensures var r := TrimStart(s);
      && |r| <= |s| && r == s[|s| - |r|..]
      && (r == "" || !IsSpace(r[0]))
      && AllSpace(s[..|s| - |r|])
  {
    if |s| > 0 && IsSpace(s[0]) {
      TrimStartShape(s[1..]);
      var r := TrimStart(s);
      assert s[..|s| - |r|] == [s[0]] + s[1..][..|s| - 1 - |r|];
    }
  }

  /** `trimEnd` drops a suffix of white space and stops at the last other
      character. */
  lemma {:induction false} TrimEndShape(s: string)
    ensures var r := TrimEnd(s);
      && |r| <= |s| && r == s[..|r|]
      && (r == "" || !IsSpace(r[|r| - 1]))
      && AllSpace(s[|r|..])
  {
    if |s| > 0 && IsSpace(s[|s| - 1]) {
      TrimEndShape(s[..|s| - 1]);
      var r := TrimEnd(s);
      assert s[|r|..] == s[..|s| - 1][|r|..] + [s[|s| - 1]];
    }
  }

  /** `s.trim()` */
  function Trim(s: string): string
  {
    TrimEnd(TrimStart(s))
  }

  /** `s.trim()` leaves nothing exactly when `s` is all white space. */
  lemma TrimEmptyIffAllSpace(s: string)
    ensures Trim(s) == "" <==> AllSpace(s)
  {
    var t := TrimStart(s);
    TrimStartShape(s);
    TrimEndShape(t);
    if Trim(s) == "" {
      assert AllSpace(t[0..]);
      assert s == s[..|s| - |t|] + t;
    } else {
      var r := Trim(s);
      assert !IsSpace(r[|r| - 1]);
      assert r[|r| - 1] == s[|s| - |t| + |r| - 1];
    }
  }

  /** Only a non-empty string can trim to something non-empty. */
  lemma TrimmedNonEmpty(s: string)
    ensures Trim(s) != "" ==> s != ""
  {
    if s == "" {
      assert TrimStart(s) == "";
    }
  }

  /** `v?.trim()` on a value held by a text input: strings are trimmed,
      null and undefined stay undefined. */
  function OptTrim(v: Value): Value
  {
    if v.Str? then Str(Trim(v.s)) else Undefined
  }

  /** `!v?.trim()`: the value is missing or only white space. */
  predicate Blank(v: Value)
  {
    !Truthy(OptTrim(v))
  }

  function LowerChar(c: char): char
  {
    if 'A' <= c <= 'Z' then (c as int + 32) as char else c
  }

  function UpperChar(c: char): char
  {
    if 'a' <= c <= 'z' then (c as int - 32) as char else c
  }

  /** `s.toLowerCase()`, restricted to ASCII letters. */
  function Lower(s: string): (r: string)
    ensures |r| == |s|
  {
    seq(|s|, i requires 0 <= i < |s| => LowerChar(s[i]))
  }

  /** `key.charAt(0).toUpperCase() + key.slice(1)` */
  function Capitalize(key: string): string
  {
    if |key| == 0 then "" else [UpperChar(key[0])] + key[1..]
  }

  /** `s.startsWith(p)` */
  predicate StartsWith(s: string, p: string)
  {
    |p| <= |s| && s[..|p|] == p
  }

  /** `t` occurs in `s` starting at position `i`. */
  predicate OccursAt(s: string, t: string, i: int)
  {
    0 <= i <= |s| - |t| && s[i..i + |t|] == t
  }

  /** `s.includes(t)` */
  predicate Includes(s: string, t: string)
  {
    exists i | 0 <= i <= |s| :: OccursAt(s, t, i)
  }
}
