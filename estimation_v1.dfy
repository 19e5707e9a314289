/** The first calorie-estimation function: the check of the caller's
    credentials before anything else is read, and how it finds the JSON
    object in the model's reply, where a regular expression finds the fenced
    block. */
module EstimationV1 {
  import opened Util
  import opened Js
  import opened Estimation

  const Fence: string := "```"

  // ---------------------------------------------------------------------
  // The fenced block: /```(?:json)?\s*([\s\S]*?)\s*```/i

  /** `c` matches the lower-case letter `lower` under the `i` flag: only
      ASCII letters fold. */
  predicate SameLetter(c: char, lower: char)
    requires 'a' <= lower <= 'z'
  {
    c == lower || c as int == lower as int - 32
  }

  /** `json`, in any case, at position i. */
  predicate JsonAt(t: string, i: nat)
  {
    i + 4 <= |t| && SameLetter(t[i], 'j') && SameLetter(t[i + 1], 's') && SameLetter(t[i + 2], 'o') && SameLetter(t[i + 3], 'n')
  }

  /** `t[i..j]` is white space as `\s` sees it. */
  ghost predicate AllSpace(t: string, i: nat, j: nat)
  {
    j <= |t| && forall k :: i <= k < j ==> IsJsSpace(t[k])
  }

  /** One way the expression can match: the opening fence at `p`, the tag
      taken or not, the first `\s*` up to `a`, the group `t[a..b]`, the second
      `\s*` up to `c`, and the closing fence at `c`. */
  datatype Attempt = Attempt(p: nat, json: bool, a: nat, b: nat, c: nat)

  ghost predicate Matches(t: string, m: Attempt)
  {
    var g := m.p + 3 + (if m.json then 4 else 0);
    OccursAt(t, Fence, m.p) && (m.json ==> JsonAt(t, m.p + 3)) &&
    g <= m.a <= m.b <= m.c && OccursAt(t, Fence, m.c) && AllSpace(t, g, m.a) && AllSpace(t, m.b, m.c)
  }

  /** The order in which the backtracking search tries the ways to match:
      the leftmost start first, then the tag taken before it is skipped, the
      greedy `\s*` longest first, the lazy group shortest first, and the
      second `\s*` longest first. The match found is the first that works. */
  predicate TriedBefore(m: Attempt, n: Attempt)
  {
    m.p < n.p ||
    (m.p == n.p && m.json && !n.json) ||
    (m.p == n.p && m.json == n.json &&
      (m.a > n.a || (m.a == n.a && (m.b < n.b || (m.b == n.b && m.c > n.c)))))
  }

  /** The first position at or after i that is not white space, or j. */
  function SkipSpace(t: string, i: nat, j: nat): (k: nat)
    requires i <= j <= |t|
    ensures i <= k <= j && AllSpace(t, i, k) && (k < j ==> !IsJsSpace(t[k]))
    decreases j - i
  {
    if i < j && IsJsSpace(t[i]) then SkipSpace(t, i + 1, j) else i
  }

  /** Where the white space that ends at j begins, not before i. */
  function SpaceRunStart(t: string, i: nat, j: nat): (k: nat)
    requires i <= j <= |t|
    ensures i <= k <= j && AllSpace(t, k, j) && (k > i ==> !IsJsSpace(t[k - 1]))
    decreases j - i
  {
    if i < j && IsJsSpace(t[j - 1]) then SpaceRunStart(t, i, j - 1) else j
  }

  /** The search as a scan: the first fence opens the match; the tag is taken
      when it is there and a fence follows it; the closing fence is the first
      one after that; the group is what lies between, without the white space
      at both ends. */
  function FenceMatch(t: string): (r: Option<Attempt>)
  {
    var p := IndexOf(t, Fence, 0);
    if p < 0 then None
    else
      var json := JsonAt(t, p + 3) && IndexOf(t, Fence, p + 7) >= 0;
      var g := p + 3 + (if json then 4 else 0);
      var c := IndexOf(t, Fence, g);
      if c < 0 then None
      else
        var a := SkipSpace(t, g, c);
        Some(Attempt(p, json, a, SpaceRunStart(t, a, c), c))
  }

  /** The scan finds exactly the match the expression finds: it is a match,
      no match is tried before it, and when the scan finds none the
      expression does not match at all. */
  lemma FenceMatchIsFirst(t: string)
    ensures FenceMatch(t).Some? ==> (Matches(t, FenceMatch(t).value) &&
      forall n :: Matches(t, n) ==> !TriedBefore(n, FenceMatch(t).value))
    ensures FenceMatch(t).None? ==> forall n :: !Matches(t, n)
  {
    var p := IndexOf(t, Fence, 0);
    if p >= 0 {
      var json := JsonAt(t, p + 3) && IndexOf(t, Fence, p + 7) >= 0;
      var g := p + 3 + (if json then 4 else 0);
      var c := IndexOf(t, Fence, g);
      if c >= 0 {
        var m := FenceMatch(t).value;
        forall n | Matches(t, n)
          ensures !TriedBefore(n, m)
        {
          MatchNotBefore(t, m, n);
        }
      } else {
        forall n | Matches(t, n)
          ensures false
        {
        }
      }
    }
  }

  /** No match is tried before the one the scan finds: case by case on what
      the two share. */
  lemma MatchNotBefore(t: string, m: Attempt, n: Attempt)
    requires FenceMatch(t) == Some(m) && Matches(t, n)
    ensures !TriedBefore(n, m)
  {
    MatchStartsFirst(t, m, n);
    if n.p == m.p && n.json == m.json {
      MatchSpaceGreedy(t, m, n);
      if n.a == m.a {
        MatchGroupLazy(t, m, n);
      }
    }
  }

  /** The scan's match starts at the first fence, and takes the tag whenever
      a match with the tag starts there. */
  lemma MatchStartsFirst(t: string, m: Attempt, n: Attempt)
    requires FenceMatch(t) == Some(m) && Matches(t, n)
    ensures m.p <= n.p
    ensures n.p == m.p && n.json ==> m.json
  {
    if n.p == m.p && n.json {
      assert n.c >= m.p + 7;
    }
  }

  /** A fence is not white space. */
  lemma FenceNotSpace(t: string, c: nat)
    requires OccursAt(t, Fence, c)
    ensures !IsJsSpace(t[c])
  {
    assert t[c..c + 3] == Fence;
    assert t[c] == Fence[0];
  }

  /** The first `\s*` of the scan's match takes all the white space there is. */
  lemma MatchSpaceGreedy(t: string, m: Attempt, n: Attempt)
    requires FenceMatch(t) == Some(m) && Matches(t, n)
    requires n.p == m.p && n.json == m.json
    ensures n.a <= m.a
  {
    var g := m.p + 3 + (if m.json then 4 else 0);
    assert m.c == IndexOf(t, Fence, g) && m.a == SkipSpace(t, g, m.c);
    FenceNotSpace(t, m.c);
  }

  /** With the same start and the same white space, the scan's group is the
      shortest and its closing fence the only one. */
  lemma MatchGroupLazy(t: string, m: Attempt, n: Attempt)
    requires FenceMatch(t) == Some(m) && Matches(t, n)
    requires n.p == m.p && n.json == m.json && n.a == m.a
    ensures m.b <= n.b
    ensures n.b == m.b ==> n.c == m.c
  {
    var g := m.p + 3 + (if m.json then 4 else 0);
    assert m.c == IndexOf(t, Fence, g) && m.b == SpaceRunStart(t, m.a, m.c);
    assert n.c >= m.c;
    FenceNotSpace(t, m.c);
  }

  /** `fenced?.[1]`: the group, when the expression matches. */
  function FencedGroup(t: string): (r: Option<string>)
  {
    match FenceMatch(t)
    case None => None
    case Some(m) => Some(t[m.a..m.b])
  }

  /** `extractJsonString(raw)`. An empty group is falsy, so it is passed over. */
  function ExtractJsonString(raw: string): (r: Option<string>)
  {
    var trimmed := Trim(raw);
    if trimmed == [] then None
    else if BraceDelimited(trimmed) then Some(trimmed)
    else
      var fenced := FencedGroup(trimmed);
      if fenced.Some? && fenced.value != [] && BraceDelimited(Trim(fenced.value)) then Some(Trim(fenced.value))
      else Fallback(trimmed)
  }

  /** A reply that is blank gives none, and a reply that already is an
      object comes back trimmed. */
  lemma ExtractJsonStringEnds(raw: string)
    ensures Trim(raw) == [] ==> ExtractJsonString(raw) == None
    ensures Trim(raw) != [] && BraceDelimited(Trim(raw)) ==> ExtractJsonString(raw) == Some(Trim(raw))
  {
  }

  /** Every answer is a brace-delimited part of the trimmed reply. */
  lemma ExtractJsonStringFound(raw: string)
    ensures var r := ExtractJsonString(raw); r.Some? ==> BraceDelimited(r.value) && Substring(r.value, Trim(raw))
  {
    var t := Trim(raw);
    if t == [] {
    } else if BraceDelimited(t) {
      SliceSubstring(t, 0, |t|);
      assert t[0..|t|] == t;
    } else {
      var fenced := FencedGroup(t);
      if fenced.Some? && fenced.value != [] && BraceDelimited(Trim(fenced.value)) {
        var m := FenceMatch(t).value;
        assert m.a <= m.b <= m.c && m.c + 3 <= |t|;
        SliceSubstring(t, m.a, m.b);
        TrimSubstring(fenced.value);
        SubstringTrans(Trim(fenced.value), fenced.value, t);
      } else {
        FallbackFacts(t);
      }
    }
  }

  /** There is an answer exactly when the trimmed reply has a `{` before a `}`. */
  lemma ExtractJsonStringNone(raw: string)
    ensures ExtractJsonString(raw).None? <==> !HasBracePair(Trim(raw))
  {
    var t := Trim(raw);
    ExtractJsonStringFound(raw);
    if ExtractJsonString(raw).Some? {
      DelimitedPair(ExtractJsonString(raw).value, t);
    } else if t != [] {
      FallbackFacts(t);
    }
  }

  /** The order of the three cases: a fenced group that trims to an object
      wins over the braces of the whole reply; otherwise the braces decide. */
  lemma ExtractJsonStringFenced(raw: string)
    requires Trim(raw) != [] && !BraceDelimited(Trim(raw))
    ensures var g := FencedGroup(Trim(raw));
      ExtractJsonString(raw) ==
        if g.Some? && g.value != [] && BraceDelimited(Trim(g.value)) then Some(Trim(g.value)) else Fallback(Trim(raw))
  {
  }

  // ---------------------------------------------------------------------
  // The credentials check

  datatype Response = Response(status: int, error: string)

  /** `!value` for what `Deno.env.get` or `headers.get` return: missing or empty. */
  predicate Present(value: Option<string>)
  {
    value.Some? && value.value != ""
  }

  /** The handler's first checks, made before the token is looked at: the
      method, the project settings and the bearer header. The answer they give,
      or `None` when the request goes on to the check of the token. */
  function Precheck(httpMethod: string, supabaseUrl: Option<string>, supabaseAnonKey: Option<string>,
                    authHeader: Option<string>): (r: Option<Response>)
  {
    if httpMethod != "POST" then Some(Response(405, "Method not allowed"))
    else if !Present(supabaseUrl) || !Present(supabaseAnonKey) ||
            !(authHeader.Some? && StartsWith(authHeader.value, "Bearer ")) then Some(Response(401, "Unauthorized"))
    else None
  }

  /** A request goes on exactly when it is a POST, both settings are there
      and the header carries a bearer token; a POST that fails any of the
      three is answered 401. */
  lemma PrecheckFacts(httpMethod: string, supabaseUrl: Option<string>, supabaseAnonKey: Option<string>,
                      authHeader: Option<string>)
    ensures var r := Precheck(httpMethod, supabaseUrl, supabaseAnonKey, authHeader);
      (r.None? <==> httpMethod == "POST" && Present(supabaseUrl) && Present(supabaseAnonKey) &&
                    authHeader.Some? && |authHeader.value| >= 7 && authHeader.value[..7] == "Bearer ") &&
      (r.Some? && httpMethod == "POST" ==> r.value.status == 401) &&
      (httpMethod != "POST" ==> r == Some(Response(405, "Method not allowed")))
  {
  }

  /** How a request fares before the model is called: answered at once, a
      thrown error (`trim` on an image that is not a string), or let through
      with the trimmed image. */
  datatype Admission = Answer(response: Response) | Throws | Proceed(imageBase64: string)

  /** The handler up to the call to the model: the first checks, the token,
      the key for the model, the body and its image. `tokenAccepted` is whether
      `/auth/v1/user` accepted the bearer token, and `body` the parsed request
      body, `None` when it is not JSON. */
  function Admit(httpMethod: string, supabaseUrl: Option<string>, supabaseAnonKey: Option<string>,
                 authHeader: Option<string>, tokenAccepted: bool, openaiApiKey: Option<string>,
                 body: Option<JsValue>): (r: Admission)
  {
    var pre := Precheck(httpMethod, supabaseUrl, supabaseAnonKey, authHeader);
    if pre.Some? then Answer(pre.value)
    else if !tokenAccepted then Answer(Response(401, "Invalid JWT"))
    else if !Present(openaiApiKey) then Answer(Response(500, "OPENAI_API_KEY is not configured"))
    else if body.None? then Answer(Response(400, "Invalid JSON body"))
    else
      var image := Get(body.value, "imageBase64");
      if image.Undefined? || image.Null? then Answer(Response(400, "imageBase64 is required"))
      else if !image.Str? then Throws
      else if Trim(image.s) == [] then Answer(Response(400, "imageBase64 is required"))
      else Proceed(Trim(image.s))
  }

  /** A request reaches the model exactly when it passes the credentials
      check, its token is accepted, the key is configured, and its body is
      JSON with an image that is a string that is not blank; the image sent
      is that string without surrounding white space. A POST refused along
      the way is answered 401 for the credentials, 500 for the key and 400
      for the body. */
  lemma AdmitFacts(httpMethod: string, supabaseUrl: Option<string>, supabaseAnonKey: Option<string>,
                   authHeader: Option<string>, tokenAccepted: bool, openaiApiKey: Option<string>,
                   body: Option<JsValue>)
    ensures var r := Admit(httpMethod, supabaseUrl, supabaseAnonKey, authHeader, tokenAccepted, openaiApiKey, body);
      var pre := Precheck(httpMethod, supabaseUrl, supabaseAnonKey, authHeader);
      (r.Proceed? <==> pre.None? && tokenAccepted && Present(openaiApiKey) && body.Some? &&
                       Get(body.value, "imageBase64").Str? && Trim(Get(body.value, "imageBase64").s) != []) &&
      (r.Proceed? ==> r.imageBase64 == Trim(Get(body.value, "imageBase64").s) &&
                      !IsJsSpace(r.imageBase64[0]) && !IsJsSpace(r.imageBase64[|r.imageBase64| - 1])) &&
      (pre.None? && !tokenAccepted ==> r == Answer(Response(401, "Invalid JWT"))) &&
      (pre.None? && tokenAccepted && !Present(openaiApiKey) ==> r.Answer? && r.response.status == 500) &&
      (pre.None? && tokenAccepted && Present(openaiApiKey) && r.Answer? ==> r.response.status == 400)
  {
    var pre := Precheck(httpMethod, supabaseUrl, supabaseAnonKey, authHeader);
    if pre.None? && tokenAccepted && Present(openaiApiKey) && body.Some? {
      var image := Get(body.value, "imageBase64");
      assert Admit(httpMethod, supabaseUrl, supabaseAnonKey, authHeader, tokenAccepted, openaiApiKey, body) ==
        if image.Undefined? || image.Null? then Answer(Response(400, "imageBase64 is required"))
        else if !image.Str? then Throws
        else if Trim(image.s) == [] then Answer(Response(400, "imageBase64 is required"))
        else Proceed(Trim(image.s));
      if image.Str? {
        TrimEnds(image.s);
      }
    }
  }
}
