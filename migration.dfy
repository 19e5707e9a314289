/** The one-off upload of everything stored on the device to the backend.
    Local identifiers that are not UUIDs are replaced by fresh ones, and every
    reference to a meal or an obligation is rewritten through the same
    replacement, so that rows keep pointing at each other. The marker that
    keeps the upload from running again is written only after every upload
    has succeeded. */
module Migration {
  import opened Util
  import opened Calendar
  import opened Js
  import opened Records
  import Recovery
  import Settings
  import Usage

  // ---------------------------------------------------------------------
  // UUIDs

  /** One draw of `Math.floor(Math.random() * 16)`. */
  type Nibble = x: int | 0 <= x < 16

  predicate IsHexDigit(c: char)
  {
    '0' <= c <= '9' || 'a' <= c <= 'f' || 'A' <= c <= 'F'
  }

  predicate AllHex(s: string)
  {
    forall i :: 0 <= i < |s| ==> IsHexDigit(s[i])
  }

  /** The variant digit `[89ab]`, in either case. */
  predicate IsVariant(c: char)
  {
    c == '8' || c == '9' || c == 'a' || c == 'b' || c == 'A' || c == 'B'
  }

  predicate IsDashAt(i: int)
  {
    i == 8 || i == 13 || i == 18 || i == 23
  }

  /** What position i of a UUID may hold. */
  predicate UuidCharAt(i: int, c: char)
  {
    if IsDashAt(i) then c == '-'
    else if i == 14 then c == '4'
    else if i == 19 then IsVariant(c)
    else IsHexDigit(c)
  }

  /** `isUuid`: a version-4 UUID, hexadecimal digits in either case. */
  predicate IsUuid(s: string)
  {
    |s| == 36 && forall i :: 0 <= i < 36 ==> UuidCharAt(i, s[i])
  }

  /** The pattern read group by group, as the regular expression spells it:
      8, 4, `4` and 3, a variant digit and 3, and 12 hexadecimal digits, with
      dashes between the groups. */
  lemma UuidGroups(s: string)
    ensures IsUuid(s) <==>
      |s| == 36 &&
      AllHex(s[..8]) && s[8] == '-' &&
      AllHex(s[9..13]) && s[13] == '-' &&
      s[14] == '4' && AllHex(s[15..18]) && s[18] == '-' &&
      IsVariant(s[19]) && AllHex(s[20..23]) && s[23] == '-' &&
      AllHex(s[24..])
  {
    if |s| == 36 {
      var groups := AllHex(s[..8]) && AllHex(s[9..13]) && AllHex(s[15..18]) && AllHex(s[20..23]) && AllHex(s[24..]);
      if groups {
        forall i | 0 <= i < 36 && !IsDashAt(i) && i != 14 && i != 19
          ensures IsHexDigit(s[i])
        {
          if i < 8 { assert s[..8][i] == s[i]; }
          else if i < 13 { assert s[9..13][i - 9] == s[i]; }
          else if i < 18 { assert s[15..18][i - 15] == s[i]; }
          else if i < 23 { assert s[20..23][i - 20] == s[i]; }
          else { assert s[24..][i - 24] == s[i]; }
        }
      }
      if IsUuid(s) {
        assert forall i :: 0 <= i < 8 ==> s[..8][i] == s[i];
        assert forall i :: 0 <= i < 4 ==> s[9..13][i] == s[9 + i];
        assert forall i :: 0 <= i < 3 ==> s[15..18][i] == s[15 + i];
        assert forall i :: 0 <= i < 3 ==> s[20..23][i] == s[20 + i];
        assert forall i :: 0 <= i < 12 ==> s[24..][i] == s[24 + i];
        assert UuidCharAt(8, s[8]) && UuidCharAt(13, s[13]) && UuidCharAt(14, s[14]);
        assert UuidCharAt(18, s[18]) && UuidCharAt(19, s[19]) && UuidCharAt(23, s[23]);
      }
    }
  }

  const UuidPattern: string := "xxxxxxxx-xxxx-4xxx-yxxx-xxxxxxxxxxxx"

  /** `n.toString(16)` for a single digit: lower case. */
  function HexChar(n: Nibble): char
  {
    "0123456789abcdef"[n]
  }

  lemma HexCharFacts(n: Nibble)
    ensures IsHexDigit(HexChar(n)) && !('A' <= HexChar(n) <= 'F')
    ensures 8 <= n < 12 ==> IsVariant(HexChar(n))
  {
  }

  /** The digit put at `y`: `(random & 0x3) | 0x8`. */
  function VariantNibble(r: Nibble): (v: Nibble)
    ensures 8 <= v < 12 && v % 4 == r % 4
  {
    ((r as bv8 & 3) | 8) as int
  }

  /** The number of digits a pattern draws. */
  function Placeholders(p: string): nat
  {
    if p == [] then 0 else (if p[0] == 'x' || p[0] == 'y' then 1 else 0) + Placeholders(p[1..])
  }

  /** `pattern.replace(/[xy]/g, ...)`: every `x` and `y` replaced, left to
      right, by a digit from the draws `rand(from)`, `rand(from + 1)`, ... */
  function Fill(p: string, rand: nat -> Nibble, from: nat): (r: string)
    ensures |r| == |p|
  {
    if p == [] then []
    else if p[0] == 'x' then [HexChar(rand(from))] + Fill(p[1..], rand, from + 1)
    else if p[0] == 'y' then [HexChar(VariantNibble(rand(from)))] + Fill(p[1..], rand, from + 1)
    else [p[0]] + Fill(p[1..], rand, from)
  }

  /** Each `x` becomes a hexadecimal digit, each `y` a variant digit, and
      every other character of the pattern stays. */
  lemma {:induction false} FillFacts(p: string, rand: nat -> Nibble, from: nat)
    ensures forall i :: 0 <= i < |p| ==>
      (p[i] == 'x' ==> IsHexDigit(Fill(p, rand, from)[i])) &&
      (p[i] == 'y' ==> IsVariant(Fill(p, rand, from)[i])) &&
      (p[i] != 'x' && p[i] != 'y' ==> Fill(p, rand, from)[i] == p[i])
  {
    if p != [] {
      var next := if p[0] == 'x' || p[0] == 'y' then from + 1 else from;
      FillFacts(p[1..], rand, next);
      assert Fill(p, rand, from)[1..] == Fill(p[1..], rand, next);
      HexCharFacts(rand(from));
      HexCharFacts(VariantNibble(rand(from)));
    }
  }

  /** `generateUuid`, drawing from `rand(from)` on. */
  function GenerateUuid(rand: nat -> Nibble, from: nat): string
  {
    Fill(UuidPattern, rand, from)
  }

  /** How many digits one `generateUuid` draws. */
  const UuidDraws: nat := 31

  function PatternChar(i: int): char
  {
    if IsDashAt(i) then '-' else if i == 14 then '4' else if i == 19 then 'y' else 'x'
  }

  lemma PatternShape()
    ensures |UuidPattern| == 36
    ensures forall i :: 0 <= i < 36 ==> UuidPattern[i] == PatternChar(i)
  {
  }

  /** Whatever the draws, `generateUuid` produces a UUID. */
  lemma GeneratedIsUuid(rand: nat -> Nibble, from: nat)
    ensures IsUuid(GenerateUuid(rand, from))
  {
    PatternShape();
    FillFacts(UuidPattern, rand, from);
  }

  // ---------------------------------------------------------------------
  // normalizeUuid

  /** The id a table (meals, or obligations) has been given for each raw id. */
  type IdMap = map<string, string>

  /** `(id || '').trim()`. */
  function RawId(id: Option<string>): string
  {
    Trim(if id.Some? then id.value else "")
  }

  /** The outcome of one `normalizeUuid`: the id, the map after it (when one
      was passed) and how many digits have been drawn in all. */
  datatype Normal = Normal(id: string, idMap: Option<IdMap>, drawn: nat)

  /** `normalizeUuid(id, idMap)` with `drawn` digits drawn before it. A blank
      id gets a fresh UUID that is not recorded; a known raw id gets what it
      was given before; any other keeps itself when it is a UUID and gets a
      fresh one otherwise, and is recorded in the map. */
  function Normalize(id: Option<string>, idMap: Option<IdMap>, rand: nat -> Nibble, drawn: nat): (r: Normal)
    ensures r.idMap.Some? <==> idMap.Some?
    ensures r.drawn == drawn || r.drawn == drawn + UuidDraws
  {
    var raw := RawId(id);
    if raw == "" then Normal(GenerateUuid(rand, drawn), idMap, drawn + UuidDraws)
    else if idMap.Some? && raw in idMap.value then Normal(idMap.value[raw], idMap, drawn)
    else
      var next := if IsUuid(raw) then raw else GenerateUuid(rand, drawn);
      var used := if IsUuid(raw) then drawn else drawn + UuidDraws;
      Normal(next, if idMap.Some? then Some(idMap.value[raw := next]) else None, used)
  }

  /** The three cases of `normalizeUuid`. */
  lemma NormalizeCases(id: Option<string>, idMap: Option<IdMap>, rand: nat -> Nibble, drawn: nat)
    ensures var r := Normalize(id, idMap, rand, drawn);
      (RawId(id) == "" ==> r.id == GenerateUuid(rand, drawn) && r.idMap == idMap) &&
      (RawId(id) != "" && idMap.Some? && RawId(id) in idMap.value ==>
        r.id == idMap.value[RawId(id)] && r.idMap == idMap && r.drawn == drawn) &&
      (RawId(id) != "" && !(idMap.Some? && RawId(id) in idMap.value) ==>
        r.id == (if IsUuid(RawId(id)) then RawId(id) else GenerateUuid(rand, drawn)) &&
        (idMap.Some? ==> r.idMap == Some(idMap.value[RawId(id) := r.id])))
  {
  }

  /** Every raw id the first map gives an id to, the second gives the same id. */
  predicate Extends(m: IdMap, m': IdMap)
  {
    forall k :: k in m ==> k in m' && m'[k] == m[k]
  }

  /** Every id a map hands out is a UUID. */
  predicate AllUuids(m: IdMap)
  {
    forall k :: k in m ==> IsUuid(m[k])
  }

  /** The map only grows: no id once given changes. A non-blank id is in the
      map afterwards, with the id just returned. */
  lemma NormalizeExtends(id: Option<string>, m: IdMap, rand: nat -> Nibble, drawn: nat)
    ensures var r := Normalize(id, Some(m), rand, drawn);
      Extends(m, r.idMap.value) &&
      (RawId(id) != "" ==> RawId(id) in r.idMap.value && r.idMap.value[RawId(id)] == r.id)
  {
  }

  /** Normalizing a non-blank id again with the map the first call left gives
      the same id and leaves the map as it is. */
  lemma NormalizeAgain(id: Option<string>, m: IdMap, rand: nat -> Nibble, drawn: nat, later: nat)
    requires RawId(id) != ""
    ensures var r := Normalize(id, Some(m), rand, drawn);
      var again := Normalize(id, r.idMap, rand, later);
      again.id == r.id && again.idMap == r.idMap
  {
  }

  /** When every id in the map is a UUID, the result is one and the map keeps
      holding only UUIDs. */
  lemma NormalizeIsUuid(id: Option<string>, idMap: Option<IdMap>, rand: nat -> Nibble, drawn: nat)
    requires idMap.Some? ==> AllUuids(idMap.value)
    ensures var r := Normalize(id, idMap, rand, drawn);
      IsUuid(r.id) && (r.idMap.Some? ==> AllUuids(r.idMap.value))
  {
    GeneratedIsUuid(rand, drawn);
    var raw := RawId(id);
    var r := Normalize(id, idMap, rand, drawn);
    if raw != "" && !(idMap.Some? && raw in idMap.value) && idMap.Some? {
      var m' := idMap.value[raw := r.id];
      assert r.idMap == Some(m');
      forall k | k in m'
        ensures IsUuid(m'[k])
      {
        if k != raw {
          assert m'[k] == idMap.value[k];
        }
      }
    }
  }

  // ---------------------------------------------------------------------
  // Payloads

  /** The two maps the migration keeps and the digits drawn so far. */
  datatype Ids = Ids(meals: IdMap, obligations: IdMap, drawn: nat)

  /** A meal row: its id, `photoUri || null`, and the record's other fields. */
  datatype MealRow = MealRow(id: string, photoUri: Option<string>, meal: MealRecord)

  /** An exercise row: its id, the rewritten meal reference, and the record. */
  datatype ExerciseRow = ExerciseRow(id: string, mealRecordId: Option<string>, exercise: ExerciseRecord)

  datatype ObligationRow = ObligationRow(id: string, mealRecordId: string, obligation: Recovery.Obligation)

  datatype EventRow = EventRow(id: string, obligationId: string, event: Recovery.SessionEvent)

  datatype LedgerRow = LedgerRow(id: string, obligationId: string, entry: Recovery.LedgerEntry)

  /** Rows built so far and the maps after them. */
  datatype Built<R> = Built(rows: seq<R>, ids: Ids)

  /** One record's row and the maps after it. */
  datatype Step<R> = Step(row: R, ids: Ids)

  /** `meal.photoUri || null`. */
  function PhotoUri(uri: string): Option<string>
  {
    if uri == "" then None else Some(uri)
  }

  /** One meal: its id normalized through the meal map. */
  function MealStep(m: MealRecord, ids: Ids, rand: nat -> Nibble): (st: Step<MealRow>)
    ensures st.ids.obligations == ids.obligations
  {
    var n := Normalize(Some(m.id), Some(ids.meals), rand, ids.drawn);
    Step(MealRow(n.id, PhotoUri(m.photoUri), m), ids.(meals := n.idMap.value, drawn := n.drawn))
  }

  /** `localMeals.map(...)`. */
  function MealRows(meals: seq<MealRecord>, ids: Ids, rand: nat -> Nibble): (b: Built<MealRow>)
    ensures |b.rows| == |meals| && b.ids.obligations == ids.obligations
  {
    if meals == [] then Built([], ids)
    else
      var before := MealRows(meals[..|meals| - 1], ids, rand);
      var st := MealStep(meals[|meals| - 1], before.ids, rand);
      Built(before.rows + [st.row], st.ids)
  }

  /** `exercise.mealRecordId ? normalizeUuid(...) : null`. */
  predicate HasMealReference(e: ExerciseRecord)
  {
    e.mealRecordId.Some? && e.mealRecordId.value != ""
  }

  /** One exercise: its id normalized with no map; a meal reference through
      the meal map. */
  function ExerciseStep(e: ExerciseRecord, ids: Ids, rand: nat -> Nibble): (st: Step<ExerciseRow>)
    ensures st.ids.obligations == ids.obligations
  {
    var n := Normalize(Some(e.id), None, rand, ids.drawn);
    if HasMealReference(e) then
      var ref := Normalize(e.mealRecordId, Some(ids.meals), rand, n.drawn);
      Step(ExerciseRow(n.id, Some(ref.id), e), ids.(meals := ref.idMap.value, drawn := ref.drawn))
    else
      Step(ExerciseRow(n.id, None, e), ids.(drawn := n.drawn))
  }

  /** `localExercises.map(...)`. */
  function ExerciseRows(exercises: seq<ExerciseRecord>, ids: Ids, rand: nat -> Nibble): (b: Built<ExerciseRow>)
    ensures |b.rows| == |exercises| && b.ids.obligations == ids.obligations
  {
    if exercises == [] then Built([], ids)
    else
      var before := ExerciseRows(exercises[..|exercises| - 1], ids, rand);
      var st := ExerciseStep(exercises[|exercises| - 1], before.ids, rand);
      Built(before.rows + [st.row], st.ids)
  }

  /** One obligation: its id through the obligation map, its meal reference
      through the meal map. */
  function ObligationStep(o: Recovery.Obligation, ids: Ids, rand: nat -> Nibble): Step<ObligationRow>
  {
    var n := Normalize(Some(o.id), Some(ids.obligations), rand, ids.drawn);
    var ref := Normalize(Some(o.mealRecordId), Some(ids.meals), rand, n.drawn);
    Step(ObligationRow(n.id, ref.id, o), Ids(ref.idMap.value, n.idMap.value, ref.drawn))
  }

  /** `localObligations.map(...)`. */
  function ObligationRows(obligations: seq<Recovery.Obligation>, ids: Ids, rand: nat -> Nibble): (b: Built<ObligationRow>)
    ensures |b.rows| == |obligations|
  {
    if obligations == [] then Built([], ids)
    else
      var before := ObligationRows(obligations[..|obligations| - 1], ids, rand);
      var st := ObligationStep(obligations[|obligations| - 1], before.ids, rand);
      Built(before.rows + [st.row], st.ids)
  }

  /** One session event: its id with no map, its obligation reference through
      the obligation map. */
  function EventStep(e: Recovery.SessionEvent, ids: Ids, rand: nat -> Nibble): (st: Step<EventRow>)
    ensures st.ids.meals == ids.meals
  {
    var n := Normalize(Some(e.id), None, rand, ids.drawn);
    var ref := Normalize(Some(e.obligationId), Some(ids.obligations), rand, n.drawn);
    Step(EventRow(n.id, ref.id, e), ids.(obligations := ref.idMap.value, drawn := ref.drawn))
  }

  /** `localSessionEvents.map(...)`. */
  function EventRows(events: seq<Recovery.SessionEvent>, ids: Ids, rand: nat -> Nibble): (b: Built<EventRow>)
    ensures |b.rows| == |events| && b.ids.meals == ids.meals
  {
    if events == [] then Built([], ids)
    else
      var before := EventRows(events[..|events| - 1], ids, rand);
      var st := EventStep(events[|events| - 1], before.ids, rand);
      Built(before.rows + [st.row], st.ids)
  }

  /** One ledger entry: as for an event. */
  function LedgerStep(e: Recovery.LedgerEntry, ids: Ids, rand: nat -> Nibble): (st: Step<LedgerRow>)
    ensures st.ids.meals == ids.meals
  {
    var n := Normalize(Some(e.id), None, rand, ids.drawn);
    var ref := Normalize(Some(e.obligationId), Some(ids.obligations), rand, n.drawn);
    Step(LedgerRow(n.id, ref.id, e), ids.(obligations := ref.idMap.value, drawn := ref.drawn))
  }

  /** `localRecoveryEntries.map(...)`. */
  function LedgerRows(entries: seq<Recovery.LedgerEntry>, ids: Ids, rand: nat -> Nibble): (b: Built<LedgerRow>)
    ensures |b.rows| == |entries| && b.ids.meals == ids.meals
  {
    if entries == [] then Built([], ids)
    else
      var before := LedgerRows(entries[..|entries| - 1], ids, rand);
      var st := LedgerStep(entries[|entries| - 1], before.ids, rand);
      Built(before.rows + [st.row], st.ids)
  }

  /** The rows of a prefix one longer: one more step. */
  lemma MealRowsSnoc(meals: seq<MealRecord>, i: nat, ids: Ids, rand: nat -> Nibble)
    requires i < |meals|
    ensures var b := MealRows(meals[..i], ids, rand);
      var st := MealStep(meals[i], b.ids, rand);
      MealRows(meals[..i + 1], ids, rand) == Built(b.rows + [st.row], st.ids)
  {
    assert meals[..i + 1][..i] == meals[..i];
  }

  lemma ExerciseRowsSnoc(exercises: seq<ExerciseRecord>, i: nat, ids: Ids, rand: nat -> Nibble)
    requires i < |exercises|
    ensures var b := ExerciseRows(exercises[..i], ids, rand);
      var st := ExerciseStep(exercises[i], b.ids, rand);
      ExerciseRows(exercises[..i + 1], ids, rand) == Built(b.rows + [st.row], st.ids)
  {
    assert exercises[..i + 1][..i] == exercises[..i];
  }

  lemma ObligationRowsSnoc(obligations: seq<Recovery.Obligation>, i: nat, ids: Ids, rand: nat -> Nibble)
    requires i < |obligations|
    ensures var b := ObligationRows(obligations[..i], ids, rand);
      var st := ObligationStep(obligations[i], b.ids, rand);
      ObligationRows(obligations[..i + 1], ids, rand) == Built(b.rows + [st.row], st.ids)
  {
    assert obligations[..i + 1][..i] == obligations[..i];
  }

  lemma EventRowsSnoc(events: seq<Recovery.SessionEvent>, i: nat, ids: Ids, rand: nat -> Nibble)
    requires i < |events|
    ensures var b := EventRows(events[..i], ids, rand);
      var st := EventStep(events[i], b.ids, rand);
      EventRows(events[..i + 1], ids, rand) == Built(b.rows + [st.row], st.ids)
  {
    assert events[..i + 1][..i] == events[..i];
  }

  lemma LedgerRowsSnoc(entries: seq<Recovery.LedgerEntry>, i: nat, ids: Ids, rand: nat -> Nibble)
    requires i < |entries|
    ensures var b := LedgerRows(entries[..i], ids, rand);
      var st := LedgerStep(entries[i], b.ids, rand);
      LedgerRows(entries[..i + 1], ids, rand) == Built(b.rows + [st.row], st.ids)
  {
    assert entries[..i + 1][..i] == entries[..i];
  }

  // ---------------------------------------------------------------------
  // What each stage leaves in the maps

  /** One normalization keeps what the map gave any raw id before it. */
  lemma NormalizeKeeps(id: Option<string>, m: IdMap, rand: nat -> Nibble, drawn: nat, k: string)
    requires k in m
    ensures var r := Normalize(id, Some(m), rand, drawn);
      k in r.idMap.value && r.idMap.value[k] == m[k]
  {
  }

  /** One normalization of a non-blank id leaves it mapped to the id returned. */
  lemma NormalizeRecords(id: Option<string>, m: IdMap, rand: nat -> Nibble, drawn: nat)
    requires RawId(id) != ""
    ensures var r := Normalize(id, Some(m), rand, drawn);
      RawId(id) in r.idMap.value && r.idMap.value[RawId(id)] == r.id
  {
  }

  /** The meals keep every meal id mapped before them. */
  lemma {:induction false} MealsKeep(meals: seq<MealRecord>, ids: Ids, rand: nat -> Nibble, k: string)
    requires k in ids.meals
    ensures var b := MealRows(meals, ids, rand); k in b.ids.meals && b.ids.meals[k] == ids.meals[k]
  {
    if meals != [] {
      var before := MealRows(meals[..|meals| - 1], ids, rand);
      MealsKeep(meals[..|meals| - 1], ids, rand, k);
      NormalizeKeeps(Some(meals[|meals| - 1].id), before.ids.meals, rand, before.ids.drawn, k);
    }
  }

  /** After the meals, each non-blank raw meal id maps to the id of its row
      (duplicates share the id of the first). */
  lemma {:induction false} MealRecorded(meals: seq<MealRecord>, ids: Ids, rand: nat -> Nibble, j: nat)
    requires j < |meals| && RawId(Some(meals[j].id)) != ""
    ensures var b := MealRows(meals, ids, rand);
      RawId(Some(meals[j].id)) in b.ids.meals && b.ids.meals[RawId(Some(meals[j].id))] == b.rows[j].id
  {
    var init := meals[..|meals| - 1];
    var before := MealRows(init, ids, rand);
    var last := meals[|meals| - 1];
    if j == |meals| - 1 {
      NormalizeRecords(Some(last.id), before.ids.meals, rand, before.ids.drawn);
    } else {
      assert init[j] == meals[j];
      MealRecorded(init, ids, rand, j);
      NormalizeKeeps(Some(last.id), before.ids.meals, rand, before.ids.drawn, RawId(Some(meals[j].id)));
    }
  }

  /** The exercises keep every meal id mapped before them. */
  lemma {:induction false} ExercisesKeep(exercises: seq<ExerciseRecord>, ids: Ids, rand: nat -> Nibble, k: string)
    requires k in ids.meals
    ensures var b := ExerciseRows(exercises, ids, rand); k in b.ids.meals && b.ids.meals[k] == ids.meals[k]
  {
    if exercises != [] {
      var before := ExerciseRows(exercises[..|exercises| - 1], ids, rand);
      ExercisesKeep(exercises[..|exercises| - 1], ids, rand, k);
      var e := exercises[|exercises| - 1];
      var n := Normalize(Some(e.id), None, rand, before.ids.drawn);
      NormalizeKeeps(e.mealRecordId, before.ids.meals, rand, n.drawn, k);
    }
  }

  /** An exercise without a meal reference has none in its row; one with a
      non-blank reference has what the meal map gives its raw id once all
      exercises are done. */
  lemma {:induction false} ExerciseReference(exercises: seq<ExerciseRecord>, ids: Ids, rand: nat -> Nibble, j: nat)
    requires j < |exercises|
    ensures var b := ExerciseRows(exercises, ids, rand);
      (!HasMealReference(exercises[j]) ==> b.rows[j].mealRecordId == None) &&
      (HasMealReference(exercises[j]) && RawId(exercises[j].mealRecordId) != "" ==>
        RawId(exercises[j].mealRecordId) in b.ids.meals &&
        b.rows[j].mealRecordId == Some(b.ids.meals[RawId(exercises[j].mealRecordId)]))
  {
    var init := exercises[..|exercises| - 1];
    var before := ExerciseRows(init, ids, rand);
    var last := exercises[|exercises| - 1];
    var n := Normalize(Some(last.id), None, rand, before.ids.drawn);
    if j == |exercises| - 1 {
      if HasMealReference(last) && RawId(last.mealRecordId) != "" {
        NormalizeRecords(last.mealRecordId, before.ids.meals, rand, n.drawn);
      }
    } else {
      assert init[j] == exercises[j];
      ExerciseReference(init, ids, rand, j);
      if HasMealReference(exercises[j]) && RawId(exercises[j].mealRecordId) != "" {
        NormalizeKeeps(last.mealRecordId, before.ids.meals, rand, n.drawn, RawId(exercises[j].mealRecordId));
      }
    }
  }

  /** The obligations keep every meal id and every obligation id mapped before them. */
  lemma {:induction false} ObligationsKeep(obligations: seq<Recovery.Obligation>, ids: Ids, rand: nat -> Nibble, k: string)
    ensures var b := ObligationRows(obligations, ids, rand);
      (k in ids.meals ==> k in b.ids.meals && b.ids.meals[k] == ids.meals[k]) &&
      (k in ids.obligations ==> k in b.ids.obligations && b.ids.obligations[k] == ids.obligations[k])
  {
    if obligations != [] {
      var before := ObligationRows(obligations[..|obligations| - 1], ids, rand);
      ObligationsKeep(obligations[..|obligations| - 1], ids, rand, k);
      var o := obligations[|obligations| - 1];
      var n := Normalize(Some(o.id), Some(before.ids.obligations), rand, before.ids.drawn);
      if k in before.ids.obligations {
        NormalizeKeeps(Some(o.id), before.ids.obligations, rand, before.ids.drawn, k);
      }
      if k in before.ids.meals {
        NormalizeKeeps(Some(o.mealRecordId), before.ids.meals, rand, n.drawn, k);
      }
    }
  }

  /** After the obligations, each non-blank raw obligation id maps to the id
      of its row, and each obligation's meal reference is what the meal map
      gives its raw id. */
  lemma {:induction false} ObligationRecorded(obligations: seq<Recovery.Obligation>, ids: Ids, rand: nat -> Nibble, j: nat)
    requires j < |obligations|
    ensures var b := ObligationRows(obligations, ids, rand);
      (RawId(Some(obligations[j].id)) != "" ==>
        RawId(Some(obligations[j].id)) in b.ids.obligations &&
        b.ids.obligations[RawId(Some(obligations[j].id))] == b.rows[j].id) &&
      (RawId(Some(obligations[j].mealRecordId)) != "" ==>
        RawId(Some(obligations[j].mealRecordId)) in b.ids.meals &&
        b.ids.meals[RawId(Some(obligations[j].mealRecordId))] == b.rows[j].mealRecordId)
  {
    var init := obligations[..|obligations| - 1];
    var before := ObligationRows(init, ids, rand);
    var last := obligations[|obligations| - 1];
    var n := Normalize(Some(last.id), Some(before.ids.obligations), rand, before.ids.drawn);
    if j == |obligations| - 1 {
      if RawId(Some(last.id)) != "" {
        NormalizeRecords(Some(last.id), before.ids.obligations, rand, before.ids.drawn);
      }
      if RawId(Some(last.mealRecordId)) != "" {
        NormalizeRecords(Some(last.mealRecordId), before.ids.meals, rand, n.drawn);
      }
    } else {
      var o := obligations[j];
      assert init[j] == o;
      ObligationRecorded(init, ids, rand, j);
      if RawId(Some(o.id)) != "" {
        NormalizeKeeps(Some(last.id), before.ids.obligations, rand, before.ids.drawn, RawId(Some(o.id)));
      }
      if RawId(Some(o.mealRecordId)) != "" {
        NormalizeKeeps(Some(last.mealRecordId), before.ids.meals, rand, n.drawn, RawId(Some(o.mealRecordId)));
      }
    }
  }

  /** The events keep every obligation id mapped before them. */
  lemma {:induction false} EventsKeep(events: seq<Recovery.SessionEvent>, ids: Ids, rand: nat -> Nibble, k: string)
    requires k in ids.obligations
    ensures var b := EventRows(events, ids, rand);
      k in b.ids.obligations && b.ids.obligations[k] == ids.obligations[k]
  {
    if events != [] {
      var before := EventRows(events[..|events| - 1], ids, rand);
      EventsKeep(events[..|events| - 1], ids, rand, k);
      var e := events[|events| - 1];
      var n := Normalize(Some(e.id), None, rand, before.ids.drawn);
      NormalizeKeeps(Some(e.obligationId), before.ids.obligations, rand, n.drawn, k);
    }
  }

  /** Each event's non-blank obligation reference is what the obligation map
      gives its raw id once all events are done. */
  lemma {:induction false} EventReference(events: seq<Recovery.SessionEvent>, ids: Ids, rand: nat -> Nibble, j: nat)
    requires j < |events| && RawId(Some(events[j].obligationId)) != ""
    ensures var b := EventRows(events, ids, rand);
      RawId(Some(events[j].obligationId)) in b.ids.obligations &&
      b.ids.obligations[RawId(Some(events[j].obligationId))] == b.rows[j].obligationId
  {
    var init := events[..|events| - 1];
    var before := EventRows(init, ids, rand);
    var last := events[|events| - 1];
    var n := Normalize(Some(last.id), None, rand, before.ids.drawn);
    if j == |events| - 1 {
      NormalizeRecords(Some(last.obligationId), before.ids.obligations, rand, n.drawn);
    } else {
      assert init[j] == events[j];
      EventReference(init, ids, rand, j);
      NormalizeKeeps(Some(last.obligationId), before.ids.obligations, rand, n.drawn, RawId(Some(events[j].obligationId)));
    }
  }

  /** The ledger entries keep every obligation id mapped before them. */
  lemma {:induction false} LedgerKeeps(entries: seq<Recovery.LedgerEntry>, ids: Ids, rand: nat -> Nibble, k: string)
    requires k in ids.obligations
    ensures var b := LedgerRows(entries, ids, rand);
      k in b.ids.obligations && b.ids.obligations[k] == ids.obligations[k]
  {
    if entries != [] {
      var before := LedgerRows(entries[..|entries| - 1], ids, rand);
      LedgerKeeps(entries[..|entries| - 1], ids, rand, k);
      var e := entries[|entries| - 1];
      var n := Normalize(Some(e.id), None, rand, before.ids.drawn);
      NormalizeKeeps(Some(e.obligationId), before.ids.obligations, rand, n.drawn, k);
    }
  }

  /** Each ledger entry's non-blank obligation reference is what the obligation
      map gives its raw id once all entries are done. */
  lemma {:induction false} LedgerReference(entries: seq<Recovery.LedgerEntry>, ids: Ids, rand: nat -> Nibble, j: nat)
    requires j < |entries| && RawId(Some(entries[j].obligationId)) != ""
    ensures var b := LedgerRows(entries, ids, rand);
      RawId(Some(entries[j].obligationId)) in b.ids.obligations &&
      b.ids.obligations[RawId(Some(entries[j].obligationId))] == b.rows[j].obligationId
  {
    var init := entries[..|entries| - 1];
    var before := LedgerRows(init, ids, rand);
    var last := entries[|entries| - 1];
    var n := Normalize(Some(last.id), None, rand, before.ids.drawn);
    if j == |entries| - 1 {
      NormalizeRecords(Some(last.obligationId), before.ids.obligations, rand, n.drawn);
    } else {
      assert init[j] == entries[j];
      LedgerReference(init, ids, rand, j);
      NormalizeKeeps(Some(last.obligationId), before.ids.obligations, rand, n.drawn, RawId(Some(entries[j].obligationId)));
    }
  }

  // ---------------------------------------------------------------------
  // The whole payload

  /** What `multiGet` returns for the seven keys, parsed. */
  datatype Local = Local(
    meals: Slot<seq<MealRecord>>,
    exercises: Slot<seq<ExerciseRecord>>,
    obligations: Slot<seq<Recovery.Obligation>>,
    events: Slot<seq<Recovery.SessionEvent>>,
    ledger: Slot<seq<Recovery.LedgerEntry>>,
    settings: Slot<JsValue>,
    usage: Slot<JsValue>)

  /** `parseArray`: the stored list, or none at all. */
  function ParseArray<T>(slot: Slot<seq<T>>): (r: seq<T>)
    ensures slot.Holds? ==> r == slot.value
    ensures !slot.Holds? ==> r == []
  {
    if slot.Holds? then slot.value else []
  }

  /** `parseObject`: a stored object; `null`, an array or anything else is
      taken as nothing. */
  function ParseObject(slot: Slot<JsValue>): (r: Option<JsValue>)
    ensures r.Some? <==> slot.Holds? && slot.value.Obj?
    ensures r.Some? ==> r.value == slot.value
  {
    if slot.Holds? && slot.value.Obj? then Some(slot.value) else None
  }

  /** The settings row; `updatedAt` is the clock reading. */
  datatype SettingsRow = SettingsRow(dailyCalorieGoal: Numeric, voiceFeedbackEnabled: bool, language: Settings.Language, updatedAt: Instant)

  /** The goal is `Number(...) || 300`, with no clamp; the flag is `!!...`; the
      language is kept when it is one of the three names (the same test the
      settings service makes) and is `auto` otherwise. */
  function SettingsPayload(o: JsValue, now: Instant): SettingsRow
  {
    SettingsRow(NumberOr(Get(o, Settings.GoalKey), Finite(300.0)),
                Truthy(Get(o, Settings.VoiceKey)),
                Settings.SanitizeLanguage(Get(o, Settings.LanguageKey)),
                now)
  }

  /** Settings as the settings service writes them migrate unchanged. */
  lemma SettingsPayloadOfStored(s: Settings.AppSettings, now: Instant)
    requires Settings.Valid(s)
    ensures SettingsPayload(Settings.Encode(s), now) ==
      SettingsRow(Finite(s.dailyCalorieGoal as real), s.voiceFeedbackEnabled, s.language, now)
  {
    Settings.EncodeFields(s);
  }

  /** Unlike reading the settings, the migration does not clamp the goal: any
      finite, nonzero stored goal is uploaded as it is (a zero is falsy and
      becomes 300), where the app reads a goal of 1000.5 or more as 1000 and
      one below 99.5 as 100. */
  lemma SettingsGoalNotClamped(g: real, now: Instant)
    ensures var o := Obj([(Settings.GoalKey, Number(Finite(g)))]);
      SettingsPayload(o, now).dailyCalorieGoal == (if g == 0.0 then Finite(300.0) else Finite(g)) &&
      (g >= 1000.5 ==> Settings.Sanitize(o).dailyCalorieGoal == Settings.MaxGoal) &&
      (g < 99.5 ==> Settings.Sanitize(o).dailyCalorieGoal == Settings.MinGoal)
  {
    var o := Obj([(Settings.GoalKey, Number(Finite(g)))]);
    assert Get(o, Settings.GoalKey) == Number(Finite(g));
  }

  /** The contrast in one case: a stored goal of 5000 is uploaded as 5000, where
      the app reads 1000. */
  lemma SettingsGoalFiveThousand(now: Instant)
    ensures var o := Obj([(Settings.GoalKey, Number(Finite(5000.0)))]);
      SettingsPayload(o, now).dailyCalorieGoal == Finite(5000.0) &&
      Settings.Sanitize(o).dailyCalorieGoal == 1000
  {
    SettingsGoalNotClamped(5000.0, now);
  }

  /** The usage row: each count `Number(...) || 0`, the day `... || today`. */
  datatype UsageRow = UsageRow(aiPhotosUsed: Numeric, aiPhotosToday: Numeric, lastResetDate: JsValue, updatedAt: Instant)

  const UsedKey: string := "aiPhotosUsed"
  const TodayKey: string := "aiPhotosToday"
  const ResetKey: string := "lastResetDate"

  function UsagePayload(o: JsValue, now: Instant, today: string): UsageRow
  {
    var reset := Get(o, ResetKey);
    UsageRow(NumberOr(Get(o, UsedKey), Finite(0.0)),
             NumberOr(Get(o, TodayKey), Finite(0.0)),
             if Truthy(reset) then reset else Str(today),
             now)
  }

  /** A usage record as `JSON.stringify` writes it. */
  function UsageObject(d: Usage.UsageData): JsValue
  {
    Obj([(UsedKey, Number(Finite(d.aiPhotosUsed as real))),
         (TodayKey, Number(Finite(d.aiPhotosToday as real))),
         (ResetKey, Str(d.lastResetDate))])
  }

  /** A stored usage record migrates with its counts; its day is kept unless
      it is empty, when today's date stands in. */
  lemma UsagePayloadOfStored(d: Usage.UsageData, now: Instant, today: string)
    ensures UsagePayload(UsageObject(d), now, today) ==
      UsageRow(Finite(d.aiPhotosUsed as real), Finite(d.aiPhotosToday as real),
               Str(if d.lastResetDate != "" then d.lastResetDate else today), now)
  {
    var m := UsageObject(d).members;
    assert m[..2] == [m[0], m[1]] && m[..2][..1] == [m[0]];
    assert Lookup(m, ResetKey) == m[2].1;
    assert Lookup(m, TodayKey) == Lookup(m[..2], TodayKey) == m[1].1;
    assert Lookup(m, UsedKey) == Lookup(m[..2], UsedKey) == Lookup(m[..2][..1], UsedKey) == m[0].1;
  }

  /** The stages in the order the source runs them, each starting from the
      maps the one before left. Both maps start empty. */
  function MealStage(local: Local, rand: nat -> Nibble, drawn: nat): Built<MealRow>
  {
    MealRows(ParseArray(local.meals), Ids(map[], map[], drawn), rand)
  }

  function ExerciseStage(local: Local, rand: nat -> Nibble, drawn: nat): Built<ExerciseRow>
  {
    ExerciseRows(ParseArray(local.exercises), MealStage(local, rand, drawn).ids, rand)
  }

  function ObligationStage(local: Local, rand: nat -> Nibble, drawn: nat): Built<ObligationRow>
  {
    ObligationRows(ParseArray(local.obligations), ExerciseStage(local, rand, drawn).ids, rand)
  }

  function EventStage(local: Local, rand: nat -> Nibble, drawn: nat): Built<EventRow>
  {
    EventRows(ParseArray(local.events), ObligationStage(local, rand, drawn).ids, rand)
  }

  function LedgerStage(local: Local, rand: nat -> Nibble, drawn: nat): Built<LedgerRow>
  {
    LedgerRows(ParseArray(local.ledger), EventStage(local, rand, drawn).ids, rand)
  }

  datatype Payloads = Payloads(
    meals: seq<MealRow>,
    exercises: seq<ExerciseRow>,
    obligations: seq<ObligationRow>,
    events: seq<EventRow>,
    ledger: seq<LedgerRow>,
    settings: Option<SettingsRow>,
    usage: Option<UsageRow>)

  /** Everything the migration uploads. */
  function BuildPayloads(local: Local, rand: nat -> Nibble, drawn: nat, now: Instant, today: string): (p: Payloads)
    ensures |p.meals| == |ParseArray(local.meals)| && |p.exercises| == |ParseArray(local.exercises)|
    ensures |p.obligations| == |ParseArray(local.obligations)| && |p.events| == |ParseArray(local.events)|
    ensures |p.ledger| == |ParseArray(local.ledger)|
    ensures p.settings.Some? <==> ParseObject(local.settings).Some?
    ensures p.usage.Some? <==> ParseObject(local.usage).Some?
  {
    var settings := ParseObject(local.settings);
    var usage := ParseObject(local.usage);
    Payloads(MealStage(local, rand, drawn).rows,
             ExerciseStage(local, rand, drawn).rows,
             ObligationStage(local, rand, drawn).rows,
             EventStage(local, rand, drawn).rows,
             LedgerStage(local, rand, drawn).rows,
             if settings.Some? then Some(SettingsPayload(settings.value, now)) else None,
             if usage.Some? then Some(UsagePayload(usage.value, now, today)) else None)
  }

  /** An exercise that refers to a stored meal points at that meal's new id. */
  lemma ExerciseMealAgrees(local: Local, rand: nat -> Nibble, drawn: nat, now: Instant, today: string, j: nat, k: nat)
    requires j < |ParseArray(local.exercises)| && k < |ParseArray(local.meals)|
    requires var e := ParseArray(local.exercises)[j];
      HasMealReference(e) && RawId(e.mealRecordId) != "" &&
      RawId(e.mealRecordId) == RawId(Some(ParseArray(local.meals)[k].id))
    ensures var p := BuildPayloads(local, rand, drawn, now, today);
      p.exercises[j].mealRecordId == Some(p.meals[k].id)
  {
    var meals, exercises := ParseArray(local.meals), ParseArray(local.exercises);
    var raw := RawId(exercises[j].mealRecordId);
    var s1 := MealStage(local, rand, drawn);
    MealRecorded(meals, Ids(map[], map[], drawn), rand, k);
    ExerciseReference(exercises, s1.ids, rand, j);
    ExercisesKeep(exercises, s1.ids, rand, raw);
  }

  /** An obligation whose meal is stored points at that meal's new id. */
  lemma ObligationMealAgrees(local: Local, rand: nat -> Nibble, drawn: nat, now: Instant, today: string, j: nat, k: nat)
    requires j < |ParseArray(local.obligations)| && k < |ParseArray(local.meals)|
    requires var o := ParseArray(local.obligations)[j];
      RawId(Some(o.mealRecordId)) != "" &&
      RawId(Some(o.mealRecordId)) == RawId(Some(ParseArray(local.meals)[k].id))
    ensures var p := BuildPayloads(local, rand, drawn, now, today);
      p.obligations[j].mealRecordId == p.meals[k].id
  {
    var meals, obligations := ParseArray(local.meals), ParseArray(local.obligations);
    var raw := RawId(Some(obligations[j].mealRecordId));
    var s1 := MealStage(local, rand, drawn);
    var s2 := ExerciseStage(local, rand, drawn);
    MealRecorded(meals, Ids(map[], map[], drawn), rand, k);
    ExercisesKeep(ParseArray(local.exercises), s1.ids, rand, raw);
    ObligationsKeep(obligations, s2.ids, rand, raw);
    ObligationRecorded(obligations, s2.ids, rand, j);
  }

  /** An exercise and an obligation that name the same meal get the same
      reference, whether or not that meal is stored. */
  lemma SharedMealAgrees(local: Local, rand: nat -> Nibble, drawn: nat, now: Instant, today: string, j: nat, k: nat)
    requires j < |ParseArray(local.exercises)| && k < |ParseArray(local.obligations)|
    requires var e := ParseArray(local.exercises)[j];
      HasMealReference(e) && RawId(e.mealRecordId) != "" &&
      RawId(e.mealRecordId) == RawId(Some(ParseArray(local.obligations)[k].mealRecordId))
    ensures var p := BuildPayloads(local, rand, drawn, now, today);
      p.exercises[j].mealRecordId == Some(p.obligations[k].mealRecordId)
  {
    var exercises, obligations := ParseArray(local.exercises), ParseArray(local.obligations);
    var raw := RawId(exercises[j].mealRecordId);
    var s1 := MealStage(local, rand, drawn);
    var s2 := ExerciseStage(local, rand, drawn);
    ExerciseReference(exercises, s1.ids, rand, j);
    ObligationsKeep(obligations, s2.ids, rand, raw);
    ObligationRecorded(obligations, s2.ids, rand, k);
  }

  /** A session event of a stored obligation points at that obligation's new id. */
  lemma EventObligationAgrees(local: Local, rand: nat -> Nibble, drawn: nat, now: Instant, today: string, j: nat, k: nat)
    requires j < |ParseArray(local.events)| && k < |ParseArray(local.obligations)|
    requires var e := ParseArray(local.events)[j];
      RawId(Some(e.obligationId)) != "" &&
      RawId(Some(e.obligationId)) == RawId(Some(ParseArray(local.obligations)[k].id))
    ensures var p := BuildPayloads(local, rand, drawn, now, today);
      p.events[j].obligationId == p.obligations[k].id
  {
    var events, obligations := ParseArray(local.events), ParseArray(local.obligations);
    var raw := RawId(Some(events[j].obligationId));
    var s2 := ExerciseStage(local, rand, drawn);
    var s3 := ObligationStage(local, rand, drawn);
    ObligationRecorded(obligations, s2.ids, rand, k);
    EventsKeep(events, s3.ids, rand, raw);
    EventReference(events, s3.ids, rand, j);
  }

  /** A ledger entry of a stored obligation points at that obligation's new id. */
  lemma LedgerObligationAgrees(local: Local, rand: nat -> Nibble, drawn: nat, now: Instant, today: string, j: nat, k: nat)
    requires j < |ParseArray(local.ledger)| && k < |ParseArray(local.obligations)|
    requires var e := ParseArray(local.ledger)[j];
      RawId(Some(e.obligationId)) != "" &&
      RawId(Some(e.obligationId)) == RawId(Some(ParseArray(local.obligations)[k].id))
    ensures var p := BuildPayloads(local, rand, drawn, now, today);
      p.ledger[j].obligationId == p.obligations[k].id
  {
    var entries, obligations := ParseArray(local.ledger), ParseArray(local.obligations);
    var raw := RawId(Some(entries[j].obligationId));
    var s2 := ExerciseStage(local, rand, drawn);
    var s3 := ObligationStage(local, rand, drawn);
    var s4 := EventStage(local, rand, drawn);
    ObligationRecorded(obligations, s2.ids, rand, k);
    EventsKeep(ParseArray(local.events), s3.ids, rand, raw);
    LedgerKeeps(entries, s4.ids, rand, raw);
    LedgerReference(entries, s4.ids, rand, j);
  }

  // ---------------------------------------------------------------------
  // Uploading

  /** The seven tables, in the order they are written. */
  datatype Table = MealTable | ExerciseTable | ObligationTable | EventTable | LedgerTable | SettingsTable | UsageTable

  /** `[t]` when there is something to write to t, else nothing. */
  function If(present: bool, t: Table): seq<Table>
  {
    if present then [t] else []
  }

  /** The order of the writes. */
  const TableOrder: seq<Table> := [MealTable, ExerciseTable, ObligationTable, EventTable, LedgerTable, SettingsTable, UsageTable]

  /** Whether a run has anything to write to a table. */
  predicate HasPayload(p: Payloads, t: Table)
  {
    match t
    case MealTable => |p.meals| > 0
    case ExerciseTable => |p.exercises| > 0
    case ObligationTable => |p.obligations| > 0
    case EventTable => |p.events| > 0
    case LedgerTable => |p.ledger| > 0
    case SettingsTable => p.settings.Some?
    case UsageTable => p.usage.Some?
  }

  /** The tables from position k of the order on that have something to write. */
  function UploadsFrom(p: Payloads, k: nat): seq<Table>
    decreases |TableOrder| - k
  {
    if k >= |TableOrder| then [] else If(HasPayload(p, TableOrder[k]), TableOrder[k]) + UploadsFrom(p, k + 1)
  }

  /** The tables a run writes to when every write succeeds: those with a
      non-empty payload, in order. */
  function Uploads(p: Payloads): seq<Table>
  {
    UploadsFrom(p, 0)
  }

  /** The writes attempted: in order, up to and including the first that fails. */
  function Attempted(ts: seq<Table>, failing: set<Table>): seq<Table>
  {
    if ts == [] then []
    else if ts[0] in failing then [ts[0]]
    else [ts[0]] + Attempted(ts[1..], failing)
  }

  /** The first write that fails, if any. */
  function FirstFailure(ts: seq<Table>, failing: set<Table>): Option<Table>
  {
    if ts == [] then None
    else if ts[0] in failing then Some(ts[0])
    else FirstFailure(ts[1..], failing)
  }

  /** The attempts form a prefix of the planned writes; all but a failing last
      one succeeded; with no failure every planned write is made. */
  lemma {:induction false} AttemptedFacts(ts: seq<Table>, failing: set<Table>)
    ensures var a := Attempted(ts, failing);
      |a| <= |ts| && a == ts[..|a|] &&
      (forall i :: 0 <= i < |a| - 1 ==> a[i] !in failing) &&
      (FirstFailure(ts, failing) == None <==> (forall i :: 0 <= i < |ts| ==> ts[i] !in failing)) &&
      (FirstFailure(ts, failing) == None ==> a == ts) &&
      (FirstFailure(ts, failing).Some? ==>
        (|a| > 0 && a[|a| - 1] == FirstFailure(ts, failing).value && a[|a| - 1] in failing))
  {
    if ts != [] {
      AttemptedFacts(ts[1..], failing);
      var a := Attempted(ts, failing);
      if ts[0] !in failing {
        var rest := Attempted(ts[1..], failing);
        assert a == [ts[0]] + rest;
        assert forall i :: 1 <= i < |ts| ==> ts[i] == ts[1..][i - 1];
        if FirstFailure(ts, failing) == None {
          assert forall i :: 0 <= i < |ts| ==> ts[i] !in failing;
        }
      }
    }
  }

  /** Running one guarded write: attempted when present, and the rest follow
      only when it succeeds. */
  lemma AttemptedStep(present: bool, t: Table, rest: seq<Table>, failing: set<Table>)
    ensures Attempted(If(present, t) + rest, failing) ==
      If(present, t) + (if present && t in failing then [] else Attempted(rest, failing))
    ensures FirstFailure(If(present, t) + rest, failing) ==
      if present && t in failing then Some(t) else FirstFailure(rest, failing)
  {
    var ts := If(present, t) + rest;
    if present {
      assert ts[0] == t && ts[1..] == rest;
    } else {
      assert ts == rest;
    }
  }

  /** The writes attempted before position k of the order are `written`,
      and none of them failed. */
  ghost predicate UploadedBefore(p: Payloads, failing: set<Table>, k: nat, written: seq<Table>)
  {
    Attempted(Uploads(p), failing) == written + Attempted(UploadsFrom(p, k), failing) &&
    FirstFailure(Uploads(p), failing) == FirstFailure(UploadsFrom(p, k), failing)
  }

  lemma UploadedNext(p: Payloads, failing: set<Table>, k: nat, written: seq<Table>)
    requires k < |TableOrder| && UploadedBefore(p, failing, k, written)
    requires !(HasPayload(p, TableOrder[k]) && TableOrder[k] in failing)
    ensures UploadedBefore(p, failing, k + 1, written + If(HasPayload(p, TableOrder[k]), TableOrder[k]))
  {
    var t := TableOrder[k];
    AttemptedStep(HasPayload(p, t), t, UploadsFrom(p, k + 1), failing);
  }

  lemma UploadedFails(p: Payloads, failing: set<Table>, k: nat, written: seq<Table>)
    requires k < |TableOrder| && UploadedBefore(p, failing, k, written)
    requires HasPayload(p, TableOrder[k]) && TableOrder[k] in failing
    ensures Attempted(Uploads(p), failing) == written + [TableOrder[k]]
    ensures UploadOutcome(Uploads(p), failing) == Threw(TableOrder[k])
  {
    var t := TableOrder[k];
    AttemptedStep(true, t, UploadsFrom(p, k + 1), failing);
  }

  lemma UploadedAll(p: Payloads, failing: set<Table>, written: seq<Table>)
    requires UploadedBefore(p, failing, |TableOrder|, written)
    ensures Attempted(Uploads(p), failing) == written
    ensures UploadOutcome(Uploads(p), failing) == Done(true)
  {
  }

  datatype Outcome = Done(migrated: bool) | Threw(table: Table)

  /** What a run that reaches the uploads returns. */
  function UploadOutcome(ts: seq<Table>, failing: set<Table>): Outcome
  {
    if FirstFailure(ts, failing).Some? then Threw(FirstFailure(ts, failing).value) else Done(true)
  }

  datatype Mode = SupabaseMode | LocalMode

  /** What `bootstrapSupabase` returns, or the table whose upload threw. */
  datatype BootResult = Boot(mode: Mode, userId: Option<string>, migrated: bool) | BootThrew(table: Table)

  /** A user id is there and is not empty. */
  predicate SignedIn(userId: Option<string>)
  {
    userId.Some? && userId.value != ""
  }

  function BootOf(outcome: Outcome, userId: Option<string>): BootResult
  {
    match outcome
    case Done(migrated) => Boot(SupabaseMode, userId, migrated)
    case Threw(t) => BootThrew(t)
  }

  /** `Map<string, string>`. */
  class StringMap {
    var entries: IdMap

    constructor()
      ensures entries == map[]
    {
      entries := map[];
    }
  }

  /** The device storage and backend the migration sees: the local records,
      the random digits, the marker key, and the writes made. */
  class Migrator {
    const local: Local
    const rand: nat -> Nibble
    /** How many random digits have been drawn. */
    var drawn: nat
    /** What `@CheerChoice:supabaseMigrationCompleted` holds. */
    var marker: Option<string>
    /** The tables written to, in order. */
    var upserted: seq<Table>

    constructor(local: Local, rand: nat -> Nibble, marker: Option<string>)
      ensures this.local == local && this.rand == rand && this.marker == marker
      ensures drawn == 0 && upserted == []
    {
      this.local := local;
      this.rand := rand;
      this.marker := marker;
      drawn := 0;
      upserted := [];
    }

    /** `generateUuid`. */
    method GenerateUuidNow() returns (u: string)
      modifies this
      ensures u == GenerateUuid(rand, old(drawn)) && drawn == old(drawn) + UuidDraws
      ensures marker == old(marker) && upserted == old(upserted)
    {
      u := GenerateUuid(rand, drawn);
      drawn := drawn + UuidDraws;
    }

    /** `normalizeUuid(id, idMap)`; `null` stands for no map. */
    method NormalizeUuid(id: Option<string>, idMap: StringMap?) returns (r: string)
      modifies this, idMap
      ensures var n := Normalize(id, if idMap == null then None else Some(old(idMap.entries)), rand, old(drawn));
        r == n.id && drawn == n.drawn && (idMap != null ==> idMap.entries == n.idMap.value)
      ensures marker == old(marker) && upserted == old(upserted)
    {
      ghost var m := if idMap == null then None else Some(idMap.entries);
      ghost var n := Normalize(id, m, rand, drawn);
      NormalizeCases(id, m, rand, drawn);
      var raw := RawId(id);
      if raw == "" {
        r := GenerateUuidNow();
      } else if idMap != null && raw in idMap.entries {
        r := idMap.entries[raw];
      } else {
        r := RecordId(raw, idMap);
      }
      assert r == n.id && drawn == n.drawn && (idMap != null ==> idMap.entries == n.idMap.value);
    }

    /** The last case of `normalizeUuid`: a raw id not met before keeps itself
        when it is a UUID and gets a fresh one otherwise, and is recorded. */
    method RecordId(raw: string, idMap: StringMap?) returns (r: string)
      modifies this, idMap
      ensures r == (if IsUuid(raw) then raw else GenerateUuid(rand, old(drawn)))
      ensures drawn == (if IsUuid(raw) then old(drawn) else old(drawn) + UuidDraws)
      ensures idMap != null ==> idMap.entries == old(idMap.entries)[raw := r]
      ensures marker == old(marker) && upserted == old(upserted)
    {
      if IsUuid(raw) {
        r := raw;
      } else {
        r := GenerateUuidNow();
      }
      if idMap != null {
        idMap.entries := idMap.entries[raw := r];
      }
    }

    /** The callback `localMeals.map` runs on one meal. */
    method MealRowFor(meal: MealRecord, mealIdMap: StringMap, obligationIdMap: StringMap) returns (row: MealRow)
      requires mealIdMap != obligationIdMap
      modifies this, mealIdMap
      ensures var st := MealStep(meal, Ids(old(mealIdMap.entries), obligationIdMap.entries, old(drawn)), rand);
        row == st.row && Ids(mealIdMap.entries, obligationIdMap.entries, drawn) == st.ids
      ensures marker == old(marker) && upserted == old(upserted)
    {
      var mealId := NormalizeUuid(Some(meal.id), mealIdMap);
      row := MealRow(mealId, PhotoUri(meal.photoUri), meal);
    }

    /** The callback `localExercises.map` runs on one exercise. */
    method ExerciseRowFor(exercise: ExerciseRecord, mealIdMap: StringMap, obligationIdMap: StringMap) returns (row: ExerciseRow)
      requires mealIdMap != obligationIdMap
      modifies this, mealIdMap
      ensures var st := ExerciseStep(exercise, Ids(old(mealIdMap.entries), obligationIdMap.entries, old(drawn)), rand);
        row == st.row && Ids(mealIdMap.entries, obligationIdMap.entries, drawn) == st.ids
      ensures marker == old(marker) && upserted == old(upserted)
    {
      var exerciseId := NormalizeUuid(Some(exercise.id), null);
      var mappedMealId: Option<string> := None;
      if HasMealReference(exercise) {
        var ref := NormalizeUuid(exercise.mealRecordId, mealIdMap);
        mappedMealId := Some(ref);
      }
      row := ExerciseRow(exerciseId, mappedMealId, exercise);
    }

    /** The callback `localObligations.map` runs on one obligation. */
    method ObligationRowFor(obligation: Recovery.Obligation, mealIdMap: StringMap, obligationIdMap: StringMap) returns (row: ObligationRow)
      requires mealIdMap != obligationIdMap
      modifies this, mealIdMap, obligationIdMap
      ensures var st := ObligationStep(obligation, Ids(old(mealIdMap.entries), old(obligationIdMap.entries), old(drawn)), rand);
        row == st.row && Ids(mealIdMap.entries, obligationIdMap.entries, drawn) == st.ids
      ensures marker == old(marker) && upserted == old(upserted)
    {
      var obligationId := NormalizeUuid(Some(obligation.id), obligationIdMap);
      var mappedMealId := NormalizeUuid(Some(obligation.mealRecordId), mealIdMap);
      row := ObligationRow(obligationId, mappedMealId, obligation);
    }

    /** The callback `localSessionEvents.map` runs on one event. */
    method EventRowFor(event: Recovery.SessionEvent, mealIdMap: StringMap, obligationIdMap: StringMap) returns (row: EventRow)
      requires mealIdMap != obligationIdMap
      modifies this, obligationIdMap
      ensures var st := EventStep(event, Ids(mealIdMap.entries, old(obligationIdMap.entries), old(drawn)), rand);
        row == st.row && Ids(mealIdMap.entries, obligationIdMap.entries, drawn) == st.ids
      ensures marker == old(marker) && upserted == old(upserted)
    {
      var eventId := NormalizeUuid(Some(event.id), null);
      var mappedObligationId := NormalizeUuid(Some(event.obligationId), obligationIdMap);
      row := EventRow(eventId, mappedObligationId, event);
    }

    /** The callback `localRecoveryEntries.map` runs on one entry. */
    method LedgerRowFor(entry: Recovery.LedgerEntry, mealIdMap: StringMap, obligationIdMap: StringMap) returns (row: LedgerRow)
      requires mealIdMap != obligationIdMap
      modifies this, obligationIdMap
      ensures var st := LedgerStep(entry, Ids(mealIdMap.entries, old(obligationIdMap.entries), old(drawn)), rand);
        row == st.row && Ids(mealIdMap.entries, obligationIdMap.entries, drawn) == st.ids
      ensures marker == old(marker) && upserted == old(upserted)
    {
      var entryId := NormalizeUuid(Some(entry.id), null);
      var mappedObligationId := NormalizeUuid(Some(entry.obligationId), obligationIdMap);
      row := LedgerRow(entryId, mappedObligationId, entry);
    }

    /** `localMeals.map(...)`. */
    method MealPayload(meals: seq<MealRecord>, mealIdMap: StringMap, obligationIdMap: StringMap) returns (rows: seq<MealRow>)
      requires mealIdMap != obligationIdMap
      modifies this, mealIdMap
      ensures MealRows(meals, Ids(old(mealIdMap.entries), obligationIdMap.entries, old(drawn)), rand) ==
        Built(rows, Ids(mealIdMap.entries, obligationIdMap.entries, drawn))
      ensures marker == old(marker) && upserted == old(upserted)
    {
      ghost var start := Ids(mealIdMap.entries, obligationIdMap.entries, drawn);
      rows := [];
      var i := 0;
      while i < |meals|
        invariant i <= |meals|
        invariant MealRows(meals[..i], start, rand) == Built(rows, Ids(mealIdMap.entries, obligationIdMap.entries, drawn))
        invariant marker == old(marker) && upserted == old(upserted)
      {
        MealRowsSnoc(meals, i, start, rand);
        var row := MealRowFor(meals[i], mealIdMap, obligationIdMap);
        rows := rows + [row];
        i := i + 1;
      }
      assert meals[..i] == meals;
    }

    /** `localExercises.map(...)`. */
    method ExercisePayload(exercises: seq<ExerciseRecord>, mealIdMap: StringMap, obligationIdMap: StringMap) returns (rows: seq<ExerciseRow>)
      requires mealIdMap != obligationIdMap
      modifies this, mealIdMap
      ensures ExerciseRows(exercises, Ids(old(mealIdMap.entries), obligationIdMap.entries, old(drawn)), rand) ==
        Built(rows, Ids(mealIdMap.entries, obligationIdMap.entries, drawn))
      ensures marker == old(marker) && upserted == old(upserted)
    {
      ghost var start := Ids(mealIdMap.entries, obligationIdMap.entries, drawn);
      rows := [];
      var i := 0;
      while i < |exercises|
        invariant i <= |exercises|
        invariant ExerciseRows(exercises[..i], start, rand) == Built(rows, Ids(mealIdMap.entries, obligationIdMap.entries, drawn))
        invariant marker == old(marker) && upserted == old(upserted)
      {
        ExerciseRowsSnoc(exercises, i, start, rand);
        var row := ExerciseRowFor(exercises[i], mealIdMap, obligationIdMap);
        rows := rows + [row];
        i := i + 1;
      }
      assert exercises[..i] == exercises;
    }

    /** `localObligations.map(...)`. */
    method ObligationPayload(obligations: seq<Recovery.Obligation>, mealIdMap: StringMap, obligationIdMap: StringMap) returns (rows: seq<ObligationRow>)
      requires mealIdMap != obligationIdMap
      modifies this, mealIdMap, obligationIdMap
      ensures ObligationRows(obligations, Ids(old(mealIdMap.entries), old(obligationIdMap.entries), old(drawn)), rand) ==
        Built(rows, Ids(mealIdMap.entries, obligationIdMap.entries, drawn))
      ensures marker == old(marker) && upserted == old(upserted)
    {
      ghost var start := Ids(mealIdMap.entries, obligationIdMap.entries, drawn);
      rows := [];
      var i := 0;
      while i < |obligations|
        invariant i <= |obligations|
        invariant ObligationRows(obligations[..i], start, rand) == Built(rows, Ids(mealIdMap.entries, obligationIdMap.entries, drawn))
        invariant marker == old(marker) && upserted == old(upserted)
      {
        ObligationRowsSnoc(obligations, i, start, rand);
        var row := ObligationRowFor(obligations[i], mealIdMap, obligationIdMap);
        rows := rows + [row];
        i := i + 1;
      }
      assert obligations[..i] == obligations;
    }

    /** `localSessionEvents.map(...)`. */
    method EventPayload(events: seq<Recovery.SessionEvent>, mealIdMap: StringMap, obligationIdMap: StringMap) returns (rows: seq<EventRow>)
      requires mealIdMap != obligationIdMap
      modifies this, obligationIdMap
      ensures EventRows(events, Ids(mealIdMap.entries, old(obligationIdMap.entries), old(drawn)), rand) ==
        Built(rows, Ids(mealIdMap.entries, obligationIdMap.entries, drawn))
      ensures marker == old(marker) && upserted == old(upserted)
    {
      ghost var start := Ids(mealIdMap.entries, obligationIdMap.entries, drawn);
      rows := [];
      var i := 0;
      while i < |events|
        invariant i <= |events|
        invariant EventRows(events[..i], start, rand) == Built(rows, Ids(mealIdMap.entries, obligationIdMap.entries, drawn))
        invariant marker == old(marker) && upserted == old(upserted)
      {
        EventRowsSnoc(events, i, start, rand);
        var row := EventRowFor(events[i], mealIdMap, obligationIdMap);
        rows := rows + [row];
        i := i + 1;
      }
      assert events[..i] == events;
    }

    /** `localRecoveryEntries.map(...)`. */
    method LedgerPayload(entries: seq<Recovery.LedgerEntry>, mealIdMap: StringMap, obligationIdMap: StringMap) returns (rows: seq<LedgerRow>)
      requires mealIdMap != obligationIdMap
      modifies this, obligationIdMap
      ensures LedgerRows(entries, Ids(mealIdMap.entries, old(obligationIdMap.entries), old(drawn)), rand) ==
        Built(rows, Ids(mealIdMap.entries, obligationIdMap.entries, drawn))
      ensures marker == old(marker) && upserted == old(upserted)
    {
      ghost var start := Ids(mealIdMap.entries, obligationIdMap.entries, drawn);
      rows := [];
      var i := 0;
      while i < |entries|
        invariant i <= |entries|
        invariant LedgerRows(entries[..i], start, rand) == Built(rows, Ids(mealIdMap.entries, obligationIdMap.entries, drawn))
        invariant marker == old(marker) && upserted == old(upserted)
      {
        LedgerRowsSnoc(entries, i, start, rand);
        var row := LedgerRowFor(entries[i], mealIdMap, obligationIdMap);
        rows := rows + [row];
        i := i + 1;
      }
      assert entries[..i] == entries;
    }

    /** `runInitialMigrationIfNeeded`. `clientAvailable` says whether a backend
        client exists; an upsert to a table in `failing` returns an error,
        which is thrown. */
    method RunInitialMigrationIfNeeded(clientAvailable: bool, failing: set<Table>, now: Instant, today: string) returns (r: Outcome)
      modifies this
      ensures old(marker) == Some("true") || !clientAvailable ==>
        r == Done(false) && marker == old(marker) && upserted == old(upserted)
      ensures old(marker) != Some("true") && clientAvailable ==>
        var ts := Uploads(BuildPayloads(local, rand, old(drawn), now, today));
        upserted == old(upserted) + Attempted(ts, failing) &&
        r == UploadOutcome(ts, failing) &&
        marker == (if r == Done(true) then Some("true") else old(marker))
    {
      if marker == Some("true") {
        return Done(false);
      }
      if !clientAvailable {
        return Done(false);
      }
      var p := ReadPayloads(now, today);
      r := UploadPayloads(p, failing);
    }

    /** The payloads of a run, built from what is stored locally. */
    method ReadPayloads(now: Instant, today: string) returns (p: Payloads)
      modifies this
      ensures p == BuildPayloads(local, rand, old(drawn), now, today)
      ensures marker == old(marker) && upserted == old(upserted)
    {
      var mealIdMap := new StringMap();
      var obligationIdMap := new StringMap();
      var mealPayload := MealPayload(ParseArray(local.meals), mealIdMap, obligationIdMap);
      var exercisePayload := ExercisePayload(ParseArray(local.exercises), mealIdMap, obligationIdMap);
      var obligationPayload := ObligationPayload(ParseArray(local.obligations), mealIdMap, obligationIdMap);
      var sessionEventPayload := EventPayload(ParseArray(local.events), mealIdMap, obligationIdMap);
      var recoveryPayload := LedgerPayload(ParseArray(local.ledger), mealIdMap, obligationIdMap);
      var localSettings := ParseObject(local.settings);
      var settingsPayload := if localSettings.Some? then Some(SettingsPayload(localSettings.value, now)) else None;
      var localUsage := ParseObject(local.usage);
      var usagePayload := if localUsage.Some? then Some(UsagePayload(localUsage.value, now, today)) else None;

      p := Payloads(mealPayload, exercisePayload, obligationPayload, sessionEventPayload,
                              recoveryPayload, settingsPayload, usagePayload);
    }

    /** The upserts of a run, one guarded upsert per table in the order of
        `TableOrder`; the first error is thrown, and the marker is set only
        when every upsert succeeded. */
    method UploadPayloads(p: Payloads, failing: set<Table>) returns (r: Outcome)
      modifies this
      ensures upserted == old(upserted) + Attempted(Uploads(p), failing)
      ensures r == UploadOutcome(Uploads(p), failing)
      ensures marker == (if r == Done(true) then Some("true") else old(marker))
    {
      ghost var done: seq<Table> := [];
      var k := 0;
      while k < |TableOrder|
        invariant 0 <= k <= |TableOrder|
        invariant upserted == old(upserted) + done && marker == old(marker)
        invariant UploadedBefore(p, failing, k, done)
      {
        var t := TableOrder[k];
        var ok := UploadTable(p, t, failing);
        if !ok {
          UploadedFails(p, failing, k, done);
          return Threw(t);
        }
        UploadedNext(p, failing, k, done);
        done := done + If(HasPayload(p, t), t);
        k := k + 1;
      }
      UploadedAll(p, failing, done);
      marker := Some("true");
      return Done(true);
    }

    /** One guarded upsert of a run: the table is written when its payload is
        not empty. */
    method UploadTable(p: Payloads, t: Table, failing: set<Table>) returns (ok: bool)
      modifies this
      ensures ok == !(HasPayload(p, t) && t in failing)
      ensures upserted == old(upserted) + If(HasPayload(p, t), t) && marker == old(marker)
    {
      ok := true;
      if HasPayload(p, t) {
        ok := Upsert(t, failing);
      }
    }

    /** `bootstrapSupabase`: `configured` and `userId` are what the backend
        configuration check and the anonymous sign-in give. */
    method BootstrapSupabase(configured: bool, userId: Option<string>, clientAvailable: bool, failing: set<Table>,
                             now: Instant, today: string) returns (r: BootResult)
      modifies this
      ensures !configured || !SignedIn(userId) ==>
        r == Boot(LocalMode, None, false) && marker == old(marker) && upserted == old(upserted)
      ensures configured && SignedIn(userId) ==>
        var ts := Uploads(BuildPayloads(local, rand, old(drawn), now, today));
        var ran := old(marker) != Some("true") && clientAvailable;
        r == (if !ran then Boot(SupabaseMode, userId, false) else BootOf(UploadOutcome(ts, failing), userId)) &&
        upserted == old(upserted) + (if ran then Attempted(ts, failing) else [])
    {
      if !configured {
        return Boot(LocalMode, None, false);
      }
      if !SignedIn(userId) {
        return Boot(LocalMode, None, false);
      }
      var outcome := RunInitialMigrationIfNeeded(clientAvailable, failing, now, today);
      r := BootOf(outcome, userId);
    }

    /** One `upsert`; it fails exactly for the tables in `failing`. */
    method Upsert(t: Table, failing: set<Table>) returns (ok: bool)
      modifies this
      ensures ok == (t !in failing) && upserted == old(upserted) + [t]
      ensures marker == old(marker) && drawn == old(drawn)
    {
      upserted := upserted + [t];
      ok := t !in failing;
    }
  }
}
