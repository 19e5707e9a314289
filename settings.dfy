/** The user's settings: a daily calorie goal, whether spoken feedback is on,
    and the interface language. Whatever is stored or passed in is sanitized
    field by field into a complete, valid record. */
module Settings {
  import opened Util
  import opened Js
  import opened Records

  datatype Language = Auto | En | Ja

  datatype AppSettings = AppSettings(dailyCalorieGoal: int, voiceFeedbackEnabled: bool, language: Language)

  const GoalKey: string := "dailyCalorieGoal"
  const VoiceKey: string := "voiceFeedbackEnabled"
  const LanguageKey: string := "language"

  const DefaultGoal: int := 300
  const MinGoal: int := 100
  const MaxGoal: int := 1000

  const DefaultSettings: AppSettings := AppSettings(DefaultGoal, true, Auto)

  function LanguageName(l: Language): string
  {
    match l
    case Auto => "auto"
    case En => "en"
    case Ja => "ja"
  }

  /** A record sanitizing can produce: a whole goal within 100..1000. */
  predicate Valid(s: AppSettings)
  {
    MinGoal <= s.dailyCalorieGoal <= MaxGoal
  }

  /** The goal: `Number(v)`, rounded and clamped to 100..1000 when finite, the
      default 300 otherwise. */
  function SanitizeGoal(v: JsValue): (g: int)
    ensures MinGoal <= g <= MaxGoal
    ensures !ToNumber(v).Finite? ==> g == DefaultGoal
    ensures ToNumber(v).Finite? ==> var x := ToNumber(v).x;
      (x < 99.5 ==> g == MinGoal) &&
      (x >= 1000.5 ==> g == MaxGoal) &&
      (99.5 <= x < 1000.5 ==> (g as real) - 0.5 <= x < (g as real) + 0.5)
  {
    match ToNumber(v)
    case Finite(x) => Min(MaxGoal, Max(MinGoal, Round(x)))
    case _ => DefaultGoal
  }

  /** The voice flag: kept when it is a boolean, on otherwise. */
  function SanitizeVoice(v: JsValue): (b: bool)
    ensures TypeOf(v) == "boolean" ==> b == v.b
    ensures TypeOf(v) != "boolean" ==> b
  {
    if v.Bool? then v.b else true
  }

  /** The language: one of the three names, `auto` otherwise. */
  function SanitizeLanguage(v: JsValue): (l: Language)
    ensures v in {Str("en"), Str("ja"), Str("auto")} ==> Str(LanguageName(l)) == v
    ensures v !in {Str("en"), Str("ja"), Str("auto")} ==> l == Auto
  {
    if v == Str("en") then En else if v == Str("ja") then Ja else Auto
  }

  /** `sanitizeSettings`: each field from the same-named key of the value. */
  function Sanitize(data: JsValue): (s: AppSettings)
    ensures Valid(s)
    ensures s.dailyCalorieGoal == SanitizeGoal(Get(data, GoalKey))
    ensures s.voiceFeedbackEnabled == SanitizeVoice(Get(data, VoiceKey))
    ensures s.language == SanitizeLanguage(Get(data, LanguageKey))
  {
    AppSettings(SanitizeGoal(Get(data, GoalKey)), SanitizeVoice(Get(data, VoiceKey)), SanitizeLanguage(Get(data, LanguageKey)))
  }

  /** Every key of anything but an object reads as missing, so it sanitizes to
      the defaults. */
  lemma SanitizeNonObject(data: JsValue)
    requires !data.Obj?
    ensures Sanitize(data) == DefaultSettings
  {
  }

  /** The settings as `JSON.stringify` writes them. */
  function Encode(s: AppSettings): (v: JsValue)
    ensures v.Obj?
  {
    Obj([(GoalKey, Number(Finite(s.dailyCalorieGoal as real))),
         (VoiceKey, Bool(s.voiceFeedbackEnabled)),
         (LanguageKey, Str(LanguageName(s.language)))])
  }

  /** Each key of the written object holds the field of that name. */
  lemma EncodeFields(s: AppSettings)
    ensures Get(Encode(s), GoalKey) == Number(Finite(s.dailyCalorieGoal as real))
    ensures Get(Encode(s), VoiceKey) == Bool(s.voiceFeedbackEnabled)
    ensures Get(Encode(s), LanguageKey) == Str(LanguageName(s.language))
  {
    var m := Encode(s).members;
    assert m[..2] == [m[0], m[1]] && m[..2][..1] == [m[0]];
    assert Lookup(m, LanguageKey) == m[2].1;
    assert Lookup(m, VoiceKey) == Lookup(m[..2], VoiceKey) == m[1].1;
    assert Lookup(m, GoalKey) == Lookup(m[..2], GoalKey) == Lookup(m[..2][..1], GoalKey) == m[0].1;
  }

  /** Writing valid settings and sanitizing them back gives the same settings. */
  lemma EncodeRoundTrip(s: AppSettings)
    requires Valid(s)
    ensures Sanitize(Encode(s)) == s
  {
    EncodeFields(s);
    RoundInteger(s.dailyCalorieGoal);
  }

  /** Sanitizing what sanitizing produced changes nothing. */
  lemma SanitizeIdempotent(data: JsValue)
    ensures Sanitize(Encode(Sanitize(data))) == Sanitize(data)
  {
    EncodeRoundTrip(Sanitize(data));
  }

  /** What `getSettings` returns for what the key holds: the defaults when
      nothing is stored, when it does not parse, or when it parses to `null`
      (reading a field of `null` throws). */
  function Read(slot: Slot<JsValue>): (s: AppSettings)
    ensures Valid(s)
    ensures slot.Holds? && slot.value != Null ==> s == Sanitize(slot.value)
    ensures !slot.Holds? || slot.value == Null ==> s == DefaultSettings
  {
    if slot.Holds? && slot.value != Null then Sanitize(slot.value) else DefaultSettings
  }

  /** `{...current, ...partial}`: the members of a partial object follow those
      of the current settings. Spreading anything but an object adds none of
      the three keys. */
  function Merge(current: AppSettings, partial: JsValue): (v: JsValue)
    ensures v.Obj?
  {
    Obj(Encode(current).members + (if partial.Obj? then partial.members else []))
  }

  /** `updateSettings` on the settings read. */
  function Update(current: AppSettings, partial: JsValue): (next: AppSettings)
    ensures Valid(next)
  {
    Sanitize(Merge(current, partial))
  }

  /** Whether a partial update has a member with the given name. */
  predicate Names(partial: JsValue, key: string)
  {
    partial.Obj? && HasKey(partial.members, key)
  }

  /** A key the partial object names is sanitized from the partial value
      (even `undefined`, which resets that field to its default); a key it
      does not name keeps the current, valid, value. */
  lemma UpdateFields(current: AppSettings, partial: JsValue)
    requires Valid(current)
    ensures var next := Update(current, partial);
      (Names(partial, GoalKey) ==> next.dailyCalorieGoal == SanitizeGoal(Get(partial, GoalKey))) &&
      (!Names(partial, GoalKey) ==> next.dailyCalorieGoal == current.dailyCalorieGoal) &&
      (Names(partial, VoiceKey) ==> next.voiceFeedbackEnabled == SanitizeVoice(Get(partial, VoiceKey))) &&
      (!Names(partial, VoiceKey) ==> next.voiceFeedbackEnabled == current.voiceFeedbackEnabled) &&
      (Names(partial, LanguageKey) ==> next.language == SanitizeLanguage(Get(partial, LanguageKey))) &&
      (!Names(partial, LanguageKey) ==> next.language == current.language)
  {
    EncodeFields(current);
    RoundInteger(current.dailyCalorieGoal);
    MergedKey(current, partial, GoalKey);
    MergedKey(current, partial, VoiceKey);
    MergedKey(current, partial, LanguageKey);
  }

  /** A key of the merged object comes from the partial object when it names
      it, and from the current settings otherwise. */
  lemma MergedKey(current: AppSettings, partial: JsValue, key: string)
    ensures Get(Merge(current, partial), key) ==
      if Names(partial, key) then Get(partial, key) else Get(Encode(current), key)
  {
    var tail := if partial.Obj? then partial.members else [];
    LookupAppend(Encode(current).members, tail, key);
  }

  /** An empty update keeps the settings. */
  lemma UpdateNothing(current: AppSettings)
    requires Valid(current)
    ensures Update(current, Obj([])) == current
  {
    UpdateFields(current, Obj([]));
  }

  /** The stored settings and the writes made to them. */
  class SettingsStore {
    /** What `@CheerChoice:settings` holds, parsed. */
    var slot: Slot<JsValue>
    /** Every record written, oldest first. */
    var written: seq<AppSettings>

    constructor(stored: Slot<JsValue>)
      ensures slot == stored && written == []
    {
      slot := stored;
      written := [];
    }

    /** `getSettings`. */
    method GetSettings() returns (s: AppSettings)
      ensures s == Read(slot) && Valid(s)
    {
      if !slot.Holds? {
        return DefaultSettings;
      }
      var parsed := slot.value;
      if parsed == Null {
        return DefaultSettings;
      }
      s := Sanitize(parsed);
    }

    /** `updateSettings(partial)`: the merged, sanitized settings are stored and
        returned. */
    method UpdateSettings(partial: JsValue) returns (next: AppSettings)
      modifies this
      ensures next == Update(Read(old(slot)), partial)
      ensures slot == Holds(Encode(next)) && written == old(written) + [next]
    {
      var current := GetSettings();
      next := Sanitize(Merge(current, partial));
      slot := Holds(Encode(next));
      written := written + [next];
    }
  }

  /** After an update, reading gives exactly the settings the update returned. */
  lemma ReadAfterUpdate(stored: Slot<JsValue>, partial: JsValue)
    ensures Read(Holds(Encode(Update(Read(stored), partial)))) == Update(Read(stored), partial)
  {
    EncodeRoundTrip(Update(Read(stored), partial));
  }
}
