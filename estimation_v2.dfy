/** The second calorie-estimation function: how it reads the request, the
    instruction it sends with the photo, and how it finds the JSON object in
    the model's reply. */
module EstimationV2 {
  import opened Util
  import opened Js
  import opened Estimation

  const Fence: string := "```"

  // ---------------------------------------------------------------------
  // Finding the JSON object

  /** The fenced part of `extractJson`: the trimmed text between the first
      fence and the next one that starts after it ends, with a leading
      `json` (in lower case only) and the white space after it dropped. */
  function FencedBody(t: string): (r: Option<string>)
  {
    var fencedStart := IndexOf(t, Fence, 0);
    if fencedStart < 0 then None
    else
      var nextFence := IndexOf(t, Fence, fencedStart + 3);
      if nextFence > fencedStart then
        var fencedBody := Trim(t[fencedStart + 3..nextFence]);
        Some(if StartsWith(fencedBody, "json") then Trim(fencedBody[4..]) else fencedBody)
      else None
  }

  /** `extractJson(raw)`. */
  function ExtractJson(raw: string): (r: Option<string>)
  {
    var trimmed := Trim(raw);
    if trimmed == [] then None
    else if BraceDelimited(trimmed) then Some(trimmed)
    else
      var cleaned := FencedBody(trimmed);
      if cleaned.Some? && BraceDelimited(cleaned.value) then cleaned else Fallback(trimmed)
  }

  /** The fenced body exists exactly when the text has two fences that do
      not overlap; it then comes from between the first fence and the first
      fence that starts after the first one ends. */
  lemma FencedBodyFacts(t: string)
    ensures var f := IndexOf(t, Fence, 0);
      FencedBody(t).Some? <==> f >= 0 && IndexOf(t, Fence, f + 3) >= 0
    ensures FencedBody(t).Some? ==>
      var f := IndexOf(t, Fence, 0);
      var g := IndexOf(t, Fence, f + 3);
      0 <= f && f + 3 <= g && Substring(FencedBody(t).value, t[f + 3..g])
  {
    var f := IndexOf(t, Fence, 0);
    if f >= 0 && IndexOf(t, Fence, f + 3) >= 0 {
      var g := IndexOf(t, Fence, f + 3);
      var between := t[f + 3..g];
      var fencedBody := Trim(between);
      TrimSubstring(between);
      if StartsWith(fencedBody, "json") {
        DropTagSubstring(fencedBody, between);
      }
    }
  }

  /** Dropping the tag and trimming again stays inside the text. */
  lemma DropTagSubstring(body: string, between: string)
    requires |body| >= 4 && Substring(body, between)
    ensures Substring(Trim(body[4..]), between)
  {
    TrimSubstring(body[4..]);
    SliceSubstring(body, 4, |body|);
    assert body[4..|body|] == body[4..];
    SubstringTrans(Trim(body[4..]), body[4..], body);
    SubstringTrans(Trim(body[4..]), body, between);
  }

  /** A reply that is blank gives none, and a reply that already is an
      object comes back trimmed. */
  lemma ExtractJsonEnds(raw: string)
    ensures Trim(raw) == [] ==> ExtractJson(raw) == None
    ensures Trim(raw) != [] && BraceDelimited(Trim(raw)) ==> ExtractJson(raw) == Some(Trim(raw))
  {
  }

  /** Every answer is a brace-delimited part of the trimmed reply. */
  lemma ExtractJsonFound(raw: string)
    ensures ExtractJson(raw).Some? ==> BraceDelimited(ExtractJson(raw).value) && Substring(ExtractJson(raw).value, Trim(raw))
  {
    var t := Trim(raw);
    if t == [] {
    } else if BraceDelimited(t) {
      SliceSubstring(t, 0, |t|);
      assert t[0..|t|] == t;
    } else if FencedBody(t).Some? && BraceDelimited(FencedBody(t).value) {
      FencedBodyFacts(t);
      var f := IndexOf(t, Fence, 0);
      var g := IndexOf(t, Fence, f + 3);
      SliceSubstring(t, f + 3, g);
      SubstringTrans(FencedBody(t).value, t[f + 3..g], t);
    } else {
      FallbackFacts(t);
    }
  }

  /** There is an answer exactly when the trimmed reply has a `{` before a `}`. */
  lemma ExtractJsonNone(raw: string)
    ensures ExtractJson(raw).None? <==> !HasBracePair(Trim(raw))
  {
    var t := Trim(raw);
    ExtractJsonFound(raw);
    if ExtractJson(raw).Some? {
      DelimitedPair(ExtractJson(raw).value, t);
    } else if t != [] {
      FallbackFacts(t);
    }
  }

  /** The order of the three cases: a fenced body that is an object wins over
      the braces of the whole reply; otherwise the braces decide. */
  lemma ExtractJsonFenced(raw: string)
    requires Trim(raw) != [] && !BraceDelimited(Trim(raw))
    ensures var c := FencedBody(Trim(raw));
      ExtractJson(raw) == if c.Some? && BraceDelimited(c.value) then c else Fallback(Trim(raw))
  {
  }

  // ---------------------------------------------------------------------
  // The request and the instruction

  datatype Mode = Basic | Detailed
  datatype Locale = English | Japanese

  /** `payload?.mode === "detailed" ? "detailed" : "basic"`. */
  function ModeOf(payload: JsValue): (m: Mode)
    ensures m == Detailed <==> Get(payload, "mode") == Str("detailed")
  {
    if Get(payload, "mode") == Str("detailed") then Detailed else Basic
  }

  /** `payload?.locale === "ja" ? "ja" : "en"`. */
  function LocaleOf(payload: JsValue): (l: Locale)
    ensures l == Japanese <==> Get(payload, "locale") == Str("ja")
  {
    if Get(payload, "locale") == Str("ja") then Japanese else English
  }

  /** What the handler makes of the parsed body: a 400 answer, a thrown
      error (`trim` on a value that is not a string), or the trimmed image with
      the mode and the locale. */
  datatype Request = Rejected(status: int, error: string) | Throws | Accepted(imageBase64: string, mode: Mode, locale: Locale)

  /** Reading the parsed body: a missing or blank image is refused, an image
      that is not a string makes `trim` throw, and any other goes on trimmed
      with the mode and locale the body asks for. */
  function ReadRequest(payload: JsValue): (r: Request)
  {
    var image := Get(payload, "imageBase64");
    if image.Undefined? || image.Null? then Rejected(400, "imageBase64 is required")
    else if !image.Str? then Throws
    else if Trim(image.s) == [] then Rejected(400, "imageBase64 is required")
    else Accepted(Trim(image.s), ModeOf(payload), LocaleOf(payload))
  }

  /** A request goes on exactly when its image is a string that is not blank;
      the image sent is that string without surrounding white space, and the
      detailed mode and the Japanese locale are chosen by exactly one value
      each. A missing or blank image is refused with 400. */
  lemma ReadRequestFacts(payload: JsValue)
    ensures ReadRequest(payload).Accepted? <==> Get(payload, "imageBase64").Str? && Trim(Get(payload, "imageBase64").s) != []
    ensures ReadRequest(payload).Accepted? ==> var r := ReadRequest(payload);
      r.imageBase64 == Trim(Get(payload, "imageBase64").s) &&
      !IsJsSpace(r.imageBase64[0]) && !IsJsSpace(r.imageBase64[|r.imageBase64| - 1]) &&
      (r.mode == Detailed <==> Get(payload, "mode") == Str("detailed")) &&
      (r.locale == Japanese <==> Get(payload, "locale") == Str("ja"))
    ensures ReadRequest(payload).Rejected? <==>
      var image := Get(payload, "imageBase64"); image.Undefined? || image.Null? || (image.Str? && Trim(image.s) == [])
    ensures ReadRequest(payload).Rejected? ==> ReadRequest(payload).status == 400
  {
    var image := Get(payload, "imageBase64");
    if image.Str? {
      TrimEnds(image.s);
    }
  }

  /** A body that is not an object has no fields: no image, so it is refused. */
  lemma ReadRequestNonObject(payload: JsValue)
    requires !payload.Obj?
    ensures ReadRequest(payload) == Rejected(400, "imageBase64 is required")
  {
  }

  /** The handler up to the call to the model: a request that is not a POST is refused
      with 405, one that arrives while the key for the model is missing with
      500, and a body that is not JSON (`body` is `None`) with 400; the rest
      is read as above. */
  function Admit(httpMethod: string, openaiApiKey: Option<string>, body: Option<JsValue>): (r: Request)
  {
    if httpMethod != "POST" then Rejected(405, "Method not allowed")
    else if openaiApiKey.None? || openaiApiKey.value == "" then Rejected(500, "OPENAI_API_KEY is not configured")
    else if body.None? then Rejected(400, "Invalid JSON body")
    else ReadRequest(body.value)
  }

  /** A request goes on exactly when it is a POST, the key is configured, and
      its body is JSON with an image that is a string that is not blank; every
      refusal of a POST whose key is configured is a 400. */
  lemma AdmitFacts(httpMethod: string, openaiApiKey: Option<string>, body: Option<JsValue>)
    ensures var r := Admit(httpMethod, openaiApiKey, body);
      (r.Accepted? <==> httpMethod == "POST" && openaiApiKey.Some? && openaiApiKey.value != "" && body.Some? &&
                        Get(body.value, "imageBase64").Str? && Trim(Get(body.value, "imageBase64").s) != []) &&
      (r.Accepted? ==> r == ReadRequest(body.value)) &&
      (httpMethod != "POST" ==> r == Rejected(405, "Method not allowed")) &&
      (httpMethod == "POST" && (openaiApiKey.None? || openaiApiKey.value == "") ==> r.Rejected? && r.status == 500) &&
      (httpMethod == "POST" && openaiApiKey.Some? && openaiApiKey.value != "" && r.Rejected? ==> r.status == 400)
  {
    if body.Some? {
      ReadRequestFacts(body.value);
    }
  }

  const Preamble: string := "You are a nutritionist AI."
  const FormatRequest: string := "Return ONLY valid JSON with keys:"
  const KeyList: string :=
    "foodName (string), estimatedCalories (number), calorieRange {min,max}, confidence (0-100), portionSize (string)."

  function DetailInstruction(mode: Mode): string
  {
    match mode
    case Detailed => "Try to identify a specific product/brand name by reading visible package text and logos. If uncertain, use the most likely product category."
    case Basic => "Identify the food category naturally without forcing exact product name."
  }

  function LanguageInstruction(locale: Locale): string
  {
    match locale
    case Japanese => "foodName and portionSize must be in Japanese."
    case English => "foodName and portionSize must be in English."
  }

  /** `buildInstruction(mode, locale)`: the five sentences joined with
      single spaces. */
  function BuildInstruction(mode: Mode, locale: Locale): (r: string)
  {
    Preamble + " " + DetailInstruction(mode) + " " + LanguageInstruction(locale) + " " + FormatRequest + " " + KeyList
  }

  /** Five parts joined with spaces: the first three at their places. */
  lemma Joined(a: string, b: string, c: string, d: string, e: string)
    ensures var r := a + " " + b + " " + c + " " + d + " " + e;
      OccursAt(r, a, 0) && OccursAt(r, b, |a| + 1) && OccursAt(r, c, |a| + 1 + |b| + 1)
  {
    var r := a + " " + b + " " + c + " " + d + " " + e;
    assert r[..|a|] == a;
    assert r[|a| + 1..|a| + 1 + |b|] == b;
    assert r[|a| + 1 + |b| + 1..|a| + 1 + |b| + 1 + |c|] == c;
  }

  /** The instruction opens with the preamble, and the sentence for the mode
      follows it. */
  lemma BuildInstructionMode(mode: Mode, locale: Locale)
    ensures OccursAt(BuildInstruction(mode, locale), Preamble, 0)
    ensures OccursAt(BuildInstruction(mode, locale), DetailInstruction(mode), |Preamble| + 1)
  {
    Joined(Preamble, DetailInstruction(mode), LanguageInstruction(locale), FormatRequest, KeyList);
  }

  /** The sentence for the locale follows the sentence for the mode. */
  lemma BuildInstructionLocale(mode: Mode, locale: Locale)
    ensures var at := |Preamble| + 1 + |DetailInstruction(mode)| + 1;
      OccursAt(BuildInstruction(mode, locale), LanguageInstruction(locale), at)
  {
    Joined(Preamble, DetailInstruction(mode), LanguageInstruction(locale), FormatRequest, KeyList);
  }
}
