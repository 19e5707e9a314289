/** What the two calorie-estimation functions share: the check that the
    parsed model output has the shape of an estimate, and the brace-delimited
    text they look for in the model's reply. */
module Estimation {
  import opened Util
  import opened Js

  // ---------------------------------------------------------------------
  // The shape of an estimate

  /** `CalorieEstimationResult`. Numbers are `typeof "number"` values, so
      `NaN` and the infinities pass. */
  datatype CalorieEstimate = CalorieEstimate(foodName: string, estimatedCalories: Numeric, min: Numeric, max: Numeric,
                                             confidence: Numeric, portionSize: string)

  /** `validateResult`: the checks in the order the code makes them. */
  predicate ValidateResult(result: JsValue)
  {
    if !Truthy(result) || TypeOf(result) != "object" then false
    else if TypeOf(Get(result, "foodName")) != "string" || |Trim(Get(result, "foodName").s)| == 0 then false
    else if TypeOf(Get(result, "estimatedCalories")) != "number" then false
    else if TypeOf(Get(result, "confidence")) != "number" then false
    else if TypeOf(Get(result, "portionSize")) != "string" then false
    else
      var range := Get(result, "calorieRange");
      if !Truthy(range) || TypeOf(range) != "object" then false
      else TypeOf(Get(range, "min")) == "number" && TypeOf(Get(range, "max")) == "number"
  }

  /** The shape itself: an object whose `foodName` is a string that is not
      blank, whose `estimatedCalories` and `confidence` are numbers, whose
      `portionSize` is a string, and whose `calorieRange` is an object with
      numbers `min` and `max`. */
  predicate IsEstimate(v: JsValue)
  {
    v.Obj? &&
    Get(v, "foodName").Str? && Trim(Get(v, "foodName").s) != [] &&
    Get(v, "estimatedCalories").Number? && Get(v, "confidence").Number? &&
    Get(v, "portionSize").Str? &&
    Get(v, "calorieRange").Obj? &&
    Get(Get(v, "calorieRange"), "min").Number? && Get(Get(v, "calorieRange"), "max").Number?
  }

  /** The check accepts exactly the values of that shape: arrays, `null` and
      the other falsy values are refused, and so is every value with a member
      of the wrong type. */
  lemma ValidateAccepts(v: JsValue)
    ensures ValidateResult(v) <==> IsEstimate(v)
  {
    TypeOfFacts(v);
    TypeOfFacts(Get(v, "foodName"));
    TypeOfFacts(Get(v, "estimatedCalories"));
    TypeOfFacts(Get(v, "confidence"));
    TypeOfFacts(Get(v, "portionSize"));
    TypeOfFacts(Get(v, "calorieRange"));
    TypeOfFacts(Get(Get(v, "calorieRange"), "min"));
    TypeOfFacts(Get(Get(v, "calorieRange"), "max"));
  }

  /** `typeof` on the values the check meets. */
  lemma TypeOfFacts(v: JsValue)
    ensures TypeOf(v) == "string" <==> v.Str?
    ensures TypeOf(v) == "number" <==> v.Number?
    ensures TypeOf(v) == "object" <==> v.Null? || v.Arr? || v.Obj?
  {
  }

  /** The estimate a valid value describes. */
  function AsEstimate(v: JsValue): (e: CalorieEstimate)
    requires IsEstimate(v)
    ensures e.foodName == Get(v, "foodName").s && Trim(e.foodName) != []
    ensures e.min == Get(Get(v, "calorieRange"), "min").n && e.max == Get(Get(v, "calorieRange"), "max").n
  {
    var range := Get(v, "calorieRange");
    CalorieEstimate(Get(v, "foodName").s, Get(v, "estimatedCalories").n, Get(range, "min").n, Get(range, "max").n,
                    Get(v, "confidence").n, Get(v, "portionSize").s)
  }

  /** An estimate as a JSON object with the keys the instruction asks for. */
  function EstimateValue(e: CalorieEstimate): (v: JsValue)
    ensures v.Obj?
  {
    Obj([("foodName", Str(e.foodName)),
         ("estimatedCalories", Number(e.estimatedCalories)),
         ("calorieRange", Obj([("min", Number(e.min)), ("max", Number(e.max))])),
         ("confidence", Number(e.confidence)),
         ("portionSize", Str(e.portionSize))])
  }

  /** Every estimate whose food name is not blank passes the check when
      written out, and reads back as itself. */
  lemma EstimateRoundTrip(e: CalorieEstimate)
    requires Trim(e.foodName) != []
    ensures ValidateResult(EstimateValue(e))
    ensures IsEstimate(EstimateValue(e)) && AsEstimate(EstimateValue(e)) == e
  {
    EstimateFields(e);
    ValidateAccepts(EstimateValue(e));
  }

  /** Each key of the written object holds the field of that name. */
  lemma EstimateFields(e: CalorieEstimate)
    ensures var v := EstimateValue(e); var range := Obj([("min", Number(e.min)), ("max", Number(e.max))]);
      Get(v, "foodName") == Str(e.foodName) && Get(v, "estimatedCalories") == Number(e.estimatedCalories) &&
      Get(v, "calorieRange") == range && Get(v, "confidence") == Number(e.confidence) &&
      Get(v, "portionSize") == Str(e.portionSize) &&
      Get(range, "min") == Number(e.min) && Get(range, "max") == Number(e.max)
  {
    var m := EstimateValue(e).members;
    LookupFive(m[0], m[1], m[2], m[3], m[4]);
    assert m == [m[0], m[1], m[2], m[3], m[4]];
    var r := m[2].1;
    LookupTwo(r.members[0], r.members[1]);
    assert r.members == [r.members[0], r.members[1]];
  }

  lemma LookupTwo(a: (string, JsValue), b: (string, JsValue))
    requires a.0 != b.0
    ensures Lookup([a, b], a.0) == a.1 && Lookup([a, b], b.0) == b.1
  {
    assert [a, b][..1] == [a];
  }

  /** Looking up each of five distinct keys finds its own value. */
  lemma LookupFive(a: (string, JsValue), b: (string, JsValue), c: (string, JsValue), d: (string, JsValue), e: (string, JsValue))
    requires a.0 != b.0 && a.0 != c.0 && a.0 != d.0 && a.0 != e.0
    requires b.0 != c.0 && b.0 != d.0 && b.0 != e.0
    requires c.0 != d.0 && c.0 != e.0 && d.0 != e.0
    ensures var ms := [a, b, c, d, e];
      Lookup(ms, a.0) == a.1 && Lookup(ms, b.0) == b.1 && Lookup(ms, c.0) == c.1 &&
      Lookup(ms, d.0) == d.1 && Lookup(ms, e.0) == e.1
  {
    assert [a, b, c, d, e] == [a, b, c, d] + [e];
    assert [a, b, c, d] == [a, b, c] + [d];
    assert [a, b, c] == [a, b] + [c];
    assert [a, b] == [a] + [b];
    forall key | key in {a.0, b.0, c.0, d.0, e.0}
      ensures Lookup([a, b, c, d, e], key) == Lookup([a, b, c, d], key) || key == e.0
      ensures Lookup([a, b, c, d], key) == Lookup([a, b, c], key) || key == d.0
      ensures Lookup([a, b, c], key) == Lookup([a, b], key) || key == c.0
      ensures Lookup([a, b], key) == Lookup([a], key) || key == b.0
    {
      LookupSnoc([a, b, c, d], e, key);
      LookupSnoc([a, b, c], d, key);
      LookupSnoc([a, b], c, key);
      LookupSnoc([a], b, key);
    }
  }

  lemma LookupSnoc(ms: seq<(string, JsValue)>, kv: (string, JsValue), key: string)
    ensures Lookup(ms + [kv], key) == if kv.0 == key then kv.1 else Lookup(ms, key)
  {
    assert (ms + [kv])[..|ms|] == ms;
  }

  // ---------------------------------------------------------------------
  // Brace-delimited text

  /** `s.startsWith("{") && s.endsWith("}")`. */
  predicate BraceDelimited(s: string)
  {
    StartsWith(s, "{") && EndsWith(s, "}")
  }

  /** `r` occurs in `t`. */
  ghost predicate Substring(r: string, t: string)
  {
    exists i: nat :: OccursAt(t, r, i)
  }

  /** Some `{` comes before some `}` in `t`. */
  ghost predicate HasBracePair(t: string)
  {
    exists i, j :: 0 <= i < j < |t| && t[i] == '{' && t[j] == '}'
  }

  lemma SliceSubstring(t: string, i: nat, j: nat)
    requires i <= j <= |t|
    ensures Substring(t[i..j], t)
  {
    assert OccursAt(t, t[i..j], i);
  }

  lemma SubstringTrans(r: string, s: string, t: string)
    requires Substring(r, s) && Substring(s, t)
    ensures Substring(r, t)
  {
    var i: nat :| OccursAt(s, r, i);
    var k: nat :| OccursAt(t, s, k);
    var u := t[k + i..k + i + |r|];
    forall x | 0 <= x < |r|
      ensures u[x] == r[x]
    {
      assert s[i + x] == t[k + i + x];
    }
    assert u == r;
    assert OccursAt(t, r, k + i);
  }

  /** What trim leaves occurs in the untrimmed text. */
  lemma TrimSubstring(s: string)
    ensures Substring(Trim(s), s)
  {
    assert OccursAt(s, Trim(s), TrimOffset(s));
  }

  /** A brace-delimited text has at least two characters, so a text it occurs
      in has a `{` before a `}`. */
  lemma DelimitedPair(r: string, t: string)
    requires BraceDelimited(r) && Substring(r, t)
    ensures HasBracePair(t)
  {
    var k: nat :| OccursAt(t, r, k);
    assert r[0] == '{' && r[|r| - 1] == '}';
    assert |r| >= 2;
    assert t[k] == r[0] && t[k + |r| - 1] == r[|r| - 1];
  }

  /** The last resort of both functions: from the first `{` through the last
      `}` when the last comes after the first. */
  function Fallback(t: string): (r: Option<string>)
  {
    var firstBrace := IndexOfChar(t, '{');
    var lastBrace := LastIndexOfChar(t, '}');
    if firstBrace >= 0 && lastBrace > firstBrace then Some(t[firstBrace..lastBrace + 1]) else None
  }

  /** The fallback finds a brace-delimited part of the text exactly when the
      text has a `{` before a `}`. */
  lemma FallbackFacts(t: string)
    ensures Fallback(t).Some? ==> BraceDelimited(Fallback(t).value) && Substring(Fallback(t).value, t)
    ensures Fallback(t).None? <==> !HasBracePair(t)
  {
    var firstBrace := IndexOfChar(t, '{');
    var lastBrace := LastIndexOfChar(t, '}');
    if firstBrace >= 0 && lastBrace > firstBrace {
      var r := t[firstBrace..lastBrace + 1];
      assert r[0] == '{' && r[|r| - 1] == '}';
      assert r[..1] == "{" && r[|r| - 1..] == "}";
      SliceSubstring(t, firstBrace, lastBrace + 1);
      assert t[firstBrace] == '{' && t[lastBrace] == '}';
    } else {
      forall i, j | 0 <= i < j < |t| && t[i] == '{'
        ensures t[j] != '}'
      {
      }
    }
  }
}
