/**
 * The JavaScript values the edge functions handle: parsed JSON bodies, the
 * truthiness and nullish tests they branch on, property reads, `String(v)`
 * and `Array.prototype.join`.
 */
module Js {
  import opened Wrappers
  import Text

  /** A JavaScript number. IEEE-754 rounding is not modelled, only which kind of value it is. */
  datatype Number = Finite(value: real) | NaN | Infinite(negative: bool)

  datatype Value =
    | Undefined
    | Null
    | Bool(b: bool)
    | Num(n: Number)
    | Str(s: string)
    | Arr(items: seq<Value>)
    | Obj(fields: map<string, Value>)

  /** `Boolean(v)`: false exactly for undefined, null, false, 0, NaN and "". */
  predicate Truthy(v: Value)
    ensures Truthy(v) ==> !Nullish(v)
    ensures IsObjectLike(v) ==> Truthy(v)
  {
    match v
    case Undefined => false
    case Null => false
    case Bool(b) => b
    case Num(n) => !(n.NaN? || n == Finite(0.0))
    case Str(s) => s != ""
    case Arr(_) => true
    case Obj(_) => true
  }

  /** The values `??` and `?.` skip. */
  predicate Nullish(v: Value) {
    v.Undefined? || v.Null?
  }

  /** `typeof v === "object" && v !== null` (arrays included). */
  predicate IsObjectLike(v: Value) {
    v.Arr? || v.Obj?
  }

  /** `v?.key`, and `v.key` on a value that is not nullish: missing keys and primitives give undefined. */
  function Get(v: Value, key: string): Value {
    if v.Obj? && key in v.fields then v.fields[key] else Undefined
  }

  /** `Number.isFinite(x) ? x : null`. */
  function FiniteOrNull(x: Number): Option<Number> {
    if x.Finite? then Some(x) else None
  }

  /** `a ?? b`. */
  function Coalesce(a: Value, b: Value): Value {
    if Nullish(a) then b else a
  }

  /** `a && b`. */
  function And(a: Value, b: Value): Value {
    if Truthy(a) then b else a
  }

  /** `a || b`. */
  function Or(a: Value, b: Value): Value {
    if Truthy(a) then a else b
  }

  /** The first candidate that is not nullish, or null: the reference meaning of an `a ?? b ?? ... ?? null` chain. */
  function FirstNonNullish(vs: seq<Value>): (r: Value)
    ensures Nullish(r) ==> r == Null && forall i :: 0 <= i < |vs| ==> Nullish(vs[i])
    ensures !Nullish(r) ==> exists i :: 0 <= i < |vs| && vs[i] == r && forall j :: 0 <= j < i ==> Nullish(vs[j])
    ensures (forall i :: 0 <= i < |vs| ==> Nullish(vs[i])) ==> r == Null
    decreases |vs|
  {
    if vs == [] then Null
    else if !Nullish(vs[0]) then vs[0]
    else
      var r := FirstNonNullish(vs[1..]);
      assert forall i :: 0 < i < |vs| ==> vs[i] == vs[1..][i - 1];
      r
  }

  lemma FirstNonNullishOfTwo(a: Value, b: Value)
    ensures FirstNonNullish([a, b]) == if !Nullish(a) then a else if !Nullish(b) then b else Null
  {
    assert [a, b][1..] == [b];
  }

  /** The first truthy candidate, or null: the reference meaning of an `a || b || ... || null` chain. */
  function FirstTruthy(vs: seq<Value>): (r: Value)
    ensures !Truthy(r) ==> r == Null && forall i :: 0 <= i < |vs| ==> !Truthy(vs[i])
    ensures Truthy(r) ==> exists i :: 0 <= i < |vs| && vs[i] == r && forall j :: 0 <= j < i ==> !Truthy(vs[j])
    ensures (forall i :: 0 <= i < |vs| ==> !Truthy(vs[i])) ==> r == Null
    decreases |vs|
  {
    if vs == [] then Null
    else if Truthy(vs[0]) then vs[0]
    else
      var r := FirstTruthy(vs[1..]);
      assert forall i :: 0 < i < |vs| ==> vs[i] == vs[1..][i - 1];
      r
  }

  /**
   * The first candidate of which `p` holds: the reference meaning of a
   * `typeof a === T ? a : typeof b === T ? b : ...` chain.
   */
  function FirstWhere(vs: seq<Value>, p: Value -> bool): (r: Option<Value>)
    ensures r.None? <==> forall i :: 0 <= i < |vs| ==> !p(vs[i])
    ensures r.Some? ==> exists i :: 0 <= i < |vs| && vs[i] == r.value && p(vs[i]) && forall j :: 0 <= j < i ==> !p(vs[j])
    decreases |vs|
  {
    if vs == [] then None
    else if p(vs[0]) then Some(vs[0])
    else
      var r := FirstWhere(vs[1..], p);
      assert forall i :: 0 < i < |vs| ==> vs[i] == vs[1..][i - 1];
      r
  }

  /** `arr.filter(Boolean)`. */
  function FilterTruthy(vs: seq<Value>): (r: seq<Value>)
    ensures forall x :: x in r ==> Truthy(x) && x in vs
    ensures forall x :: x in vs && Truthy(x) ==> x in r
    ensures |r| <= |vs|
  {
    if vs == [] then []
    else if Truthy(vs[0]) then [vs[0]] + FilterTruthy(vs[1..])
    else FilterTruthy(vs[1..])
  }

  /**
   * `String(v)`. The text of a number is the engine's own formatting and is
   * passed in; an array is its elements' texts joined by ",", with null and
   * undefined elements written as "".
   */
  function ToJsString(v: Value, formatNumber: Number -> string): (r: string)
    ensures v.Str? ==> r == v.s
    ensures v.Arr? && v.items == [] ==> r == ""
    ensures v.Arr? && |v.items| == 1 && Nullish(v.items[0]) ==> r == ""
    ensures v.Arr? && |v.items| == 1 && v.items[0].Str? ==> r == v.items[0].s
    decreases v
  {
    match v
    case Undefined => "undefined"
    case Null => "null"
    case Bool(b) => if b then "true" else "false"
    case Num(n) => formatNumber(n)
    case Str(s) => s
    case Arr(items) =>
      Text.JoinWith(seq(|items|, i requires 0 <= i < |items| =>
             if Nullish(items[i]) then "" else ToJsString(items[i], formatNumber)), ",")
    case Obj(_) => "[object Object]"
  }

  /** `vs.join(sep)`: every element converted with `String`, null and undefined as "". */
  function JoinValues(vs: seq<Value>, sep: string, formatNumber: Number -> string): string
  {
    Text.JoinWith(seq(|vs|, i requires 0 <= i < |vs| =>
           if Nullish(vs[i]) then "" else ToJsString(vs[i], formatNumber)), sep)
  }

  /** `vs.filter(Boolean).join(sep)`. */
  function JoinTruthy(vs: seq<Value>, sep: string, formatNumber: Number -> string): string {
    JoinValues(FilterTruthy(vs), sep, formatNumber)
  }

  lemma {:induction false} FilterTruthyConcat(a: seq<Value>, b: seq<Value>)
    ensures FilterTruthy(a + b) == FilterTruthy(a) + FilterTruthy(b)
    decreases |a|
  {
    if a == [] {
      assert a + b == b;
    } else {
      assert (a + b)[1..] == a[1..] + b;
      FilterTruthyConcat(a[1..], b);
    }
  }

  /** A falsy part is skipped: the join is the same without it. */
  lemma {:induction false} JoinTruthySkipsFalsy(vs: seq<Value>, i: nat, sep: string, formatNumber: Number -> string)
    requires i < |vs| && !Truthy(vs[i])
    ensures JoinTruthy(vs, sep, formatNumber) == JoinTruthy(vs[..i] + vs[i + 1..], sep, formatNumber)
  {
    assert vs == vs[..i] + ([vs[i]] + vs[i + 1..]);
    FilterTruthyConcat(vs[..i], [vs[i]] + vs[i + 1..]);
    FilterTruthyConcat([vs[i]], vs[i + 1..]);
    assert FilterTruthy([vs[i]]) == [] by {
      assert [vs[i]][1..] == [];
    }
    FilterTruthyConcat(vs[..i], vs[i + 1..]);
  }

  /** The string values of `ss`. */
  function StrValues(ss: seq<string>): (vs: seq<Value>)
    ensures |vs| == |ss| && forall i :: 0 <= i < |ss| ==> vs[i] == Str(ss[i])
  {
    seq(|ss|, i requires 0 <= i < |ss| => Str(ss[i]))
  }

  /** Non-empty strings are all kept: their join is the plain `join`. */
  lemma {:induction false} JoinTruthyOfStrings(ss: seq<string>, sep: string, formatNumber: Number -> string)
    requires forall i :: 0 <= i < |ss| ==> ss[i] != ""
    ensures JoinTruthy(StrValues(ss), sep, formatNumber) == Text.JoinWith(ss, sep)
  {
    FilterKeepsTruthy(StrValues(ss));
    var vs := StrValues(ss);
    assert seq(|vs|, i requires 0 <= i < |vs| => if Nullish(vs[i]) then "" else ToJsString(vs[i], formatNumber)) == ss;
  }

  lemma {:induction false} FilterKeepsTruthy(vs: seq<Value>)
    requires forall i :: 0 <= i < |vs| ==> Truthy(vs[i])
    ensures FilterTruthy(vs) == vs
    decreases |vs|
  {
    if vs != [] {
      FilterKeepsTruthy(vs[1..]);
    }
  }

  /** With no truthy part the join is empty. */
  lemma {:induction false} JoinTruthyOfFalsy(vs: seq<Value>, sep: string, formatNumber: Number -> string)
    requires forall i :: 0 <= i < |vs| ==> !Truthy(vs[i])
    ensures FilterTruthy(vs) == [] && JoinTruthy(vs, sep, formatNumber) == ""
    decreases |vs|
  {
    if vs != [] {
      JoinTruthyOfFalsy(vs[1..], sep, formatNumber);
    }
  }

  // ---------------- string length ----------------

  /** A character beyond U+FFFF, which JavaScript stores as a surrogate pair. */
  predicate IsAstral(c: char) {
    c as int >= 0x10000
  }

  /** The UTF-16 code units JavaScript stores for `c`. */
  function CodeUnitsOf(c: char): (n: nat)
    ensures n == 1 || n == 2
  {
    if IsAstral(c) then 2 else 1
  }

  /** `s.length` in JavaScript: the UTF-16 code units of `s`, not its characters. */
  function Utf16Length(s: string): (n: nat)
    ensures |s| <= n <= 2 * |s|
  {
    if s == [] then 0 else CodeUnitsOf(s[0]) + Utf16Length(s[1..])
  }

  /** A text without characters beyond U+FFFF has as many code units as characters. */
  lemma {:induction false} Utf16LengthBasicPlane(s: string)
    requires forall k :: 0 <= k < |s| ==> !IsAstral(s[k])
    ensures Utf16Length(s) == |s|
    decreases |s|
  {
    if s != [] {
      assert forall k :: 0 <= k < |s| - 1 ==> s[1..][k] == s[k + 1];
      Utf16LengthBasicPlane(s[1..]);
    }
  }

  /** `parseFloat(String(v))` given the engine's `parseFloat`. */
  function ParseFloatOf(v: Value, parseFloat: string -> Number, formatNumber: Number -> string): Number
  {
    parseFloat(ToJsString(v, formatNumber))
  }
}
