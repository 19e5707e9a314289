/** The JavaScript values the services inspect with `typeof`, `Number(...)`,
    `!!` and property access: what `JSON.parse` can produce, plus `undefined`
    and the non-finite numbers a caller can pass. Numbers are exact reals. */
module Js {
  import opened Util

  datatype Numeric = Finite(x: real) | NotANumber | Infinite(positive: bool)

  datatype JsValue =
    | Undefined
    | Null
    | Bool(b: bool)
    | Number(n: Numeric)
    | Str(s: string)
    | Arr(items: seq<JsValue>)
    | Obj(members: seq<(string, JsValue)>)

  /** `typeof v`. */
  function TypeOf(v: JsValue): string
  {
    match v
    case Undefined => "undefined"
    case Bool(_) => "boolean"
    case Number(_) => "number"
    case Str(_) => "string"
    case _ => "object"
  }

  /** Truthiness, as `!!v` and `if (v)` see it. */
  predicate Truthy(v: JsValue)
  {
    match v
    case Undefined => false
    case Null => false
    case Bool(b) => b
    case Number(n) => n.Infinite? || (n.Finite? && n.x != 0.0)
    case Str(s) => s != ""
    case _ => true
  }

  /** `v.key` on an object: the value of the last member with that name (as
      `JSON.parse` and object spread keep the last of duplicate keys), or
      `undefined`. Other values have none of the keys the services read. */
  function Get(v: JsValue, key: string): (r: JsValue)
    ensures !v.Obj? ==> r == Undefined
    ensures v.Obj? ==> r == (var k := LastIndexOfKey(v.members, key); if k < 0 then Undefined else v.members[k].1)
  {
    if v.Obj? then Lookup(v.members, key) else Undefined
  }

  function Lookup(members: seq<(string, JsValue)>, key: string): (r: JsValue)
    ensures r == (var k := LastIndexOfKey(members, key); if k < 0 then Undefined else members[k].1)
  {
    if members == [] then Undefined
    else if members[|members| - 1].0 == key then members[|members| - 1].1
    else Lookup(members[..|members| - 1], key)
  }

  /** Whether an object has a member with the given name. */
  predicate HasKey(members: seq<(string, JsValue)>, key: string)
  {
    exists i :: 0 <= i < |members| && members[i].0 == key
  }

  /** The position of the last member with the given name, or -1. */
  function LastIndexOfKey(members: seq<(string, JsValue)>, key: string): (k: int)
    ensures -1 <= k < |members|
    ensures k >= 0 ==> members[k].0 == key && forall i :: k < i < |members| ==> members[i].0 != key
    ensures k == -1 <==> !HasKey(members, key)
  {
    if members == [] then -1
    else if members[|members| - 1].0 == key then |members| - 1
    else LastIndexOfKey(members[..|members| - 1], key)
  }

  /** Spreading `b` after `a`: a key of `b` wins, any other key keeps `a`'s value. */
  lemma {:induction false} LookupAppend(a: seq<(string, JsValue)>, b: seq<(string, JsValue)>, key: string)
    ensures Lookup(a + b, key) == if HasKey(b, key) then Lookup(b, key) else Lookup(a, key)
    decreases |b|
  {
    if b != [] {
      var last := b[|b| - 1];
      assert (a + b)[..|a + b| - 1] == a + b[..|b| - 1];
      if last.0 != key {
        LookupAppend(a, b[..|b| - 1], key);
        assert HasKey(b, key) <==> HasKey(b[..|b| - 1], key) by {
          if HasKey(b, key) {
            var i :| 0 <= i < |b| && b[i].0 == key;
            assert b[..|b| - 1][i].0 == key;
          }
          if HasKey(b[..|b| - 1], key) {
            var i :| 0 <= i < |b| - 1 && b[..|b| - 1][i].0 == key;
            assert b[i].0 == key;
          }
        }
      } else {
        assert HasKey(b, key) by { assert b[|b| - 1].0 == key; }
      }
    } else {
      assert a + b == a;
    }
  }

  /** `Math.ceil`: the least integer not below x. */
  function Ceil(x: real): (r: int)
    ensures (r as real) - 1.0 < x <= r as real
  {
    -((-x).Floor)
  }

  lemma CeilMonotone(x: real, y: real)
    requires x <= y
    ensures Ceil(x) <= Ceil(y)
  {
  }

  /** `Math.round`: the nearest integer, halves going up. */
  function Round(x: real): (r: int)
    ensures (r as real) - 0.5 <= x < (r as real) + 0.5
  {
    (x + 0.5).Floor
  }

  /** Rounding an integer leaves it alone. */
  lemma RoundInteger(n: int)
    ensures Round(n as real) == n
  {
  }

  predicate IsDigit(c: char)
  {
    '0' <= c <= '9'
  }

  /** The value of a run of decimal digits. */
  function DigitsValue(s: string): nat
    requires forall i :: 0 <= i < |s| ==> IsDigit(s[i])
  {
    if s == [] then 0
    else
      assert IsDigit(s[|s| - 1]);
      10 * DigitsValue(s[..|s| - 1]) + (s[|s| - 1] as int - '0' as int)
  }

  predicate AllDigits(s: string)
  {
    |s| > 0 && forall i :: 0 <= i < |s| ==> IsDigit(s[i])
  }

  /** `Number(s)` for a string: white space around it is ignored, the empty
      string is 0, an optionally signed run of decimal digits is its value and
      `Infinity` (optionally signed) is infinite. Other numeric spellings
      (fractions, exponents, hexadecimal) are read as NaN. */
  function StringToNumber(s: string): (r: Numeric)
    ensures Trim(s) == "" ==> r == Finite(0.0)
    ensures AllDigits(Trim(s)) ==> r == Finite(DigitsValue(Trim(s)) as real)
  {
    var t := Trim(s);
    if t == "" then Finite(0.0)
    else if t == "Infinity" || t == "+Infinity" then Infinite(true)
    else if t == "-Infinity" then Infinite(false)
    else if AllDigits(t) then Finite(DigitsValue(t) as real)
    else if t[0] == '+' && AllDigits(t[1..]) then Finite(DigitsValue(t[1..]) as real)
    else if t[0] == '-' && AllDigits(t[1..]) then Finite(-(DigitsValue(t[1..]) as real))
    else NotANumber
  }

  /** `Number(v)`. An array other than `[]` is read as NaN (the source joins
      its elements first, which is not modelled). */
  function ToNumber(v: JsValue): (r: Numeric)
    ensures v.Number? ==> r == v.n
    ensures v == Undefined ==> r == NotANumber
    ensures v == Null ==> r == Finite(0.0)
  {
    match v
    case Undefined => NotANumber
    case Null => Finite(0.0)
    case Bool(b) => Finite(if b then 1.0 else 0.0)
    case Number(n) => n
    case Str(s) => StringToNumber(s)
    case Arr(items) => if items == [] then Finite(0.0) else NotANumber
    case Obj(_) => NotANumber
  }

  /** `Number(v) || d`: the number when it is finite and non-zero or infinite,
      else the fallback (NaN and 0 are falsy). */
  function NumberOr(v: JsValue, d: Numeric): (r: Numeric)
    ensures r == ToNumber(v) || r == d
    ensures r == d || Truthy(Number(r))
  {
    var n := ToNumber(v);
    if Truthy(Number(n)) then n else d
  }
}
