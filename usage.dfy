/** The AI photo quota: a lifetime count for the free tier and a per-day count
    for premium, kept in one stored record. The day is the UTC calendar date
    `YYYY-MM-DD` of the clock reading, passed in as `today`. */
module Usage {
  import opened Util
  import opened Records

  const FreeTierLifetimeLimit: int := 15
  const PremiumDailyLimit: int := 20

  datatype UsageData = UsageData(aiPhotosUsed: int, aiPhotosToday: int, lastResetDate: string)

  /** `normalizeUsageData`: on a new day the daily count starts over; the
      lifetime count is kept. */
  function Normalize(data: UsageData, today: string): (r: UsageData)
    ensures r.lastResetDate == today && r.aiPhotosUsed == data.aiPhotosUsed
    ensures r.aiPhotosToday == if data.lastResetDate == today then data.aiPhotosToday else 0
    ensures data.lastResetDate == today <==> r == data
  {
    if data.lastResetDate != today then data.(aiPhotosToday := 0, lastResetDate := today) else data
  }

  lemma NormalizeIdempotent(data: UsageData, today: string)
    ensures Normalize(Normalize(data, today), today) == Normalize(data, today)
  {
  }

  /** The record `getUsageData` hands out for what the key holds: the defaults
      (stamped with the day the module was loaded) when nothing readable is stored. */
  function Read(slot: Slot<UsageData>, today: string, loadDay: string): (r: UsageData)
    ensures slot.Holds? ==> r == Normalize(slot.value, today)
    ensures !slot.Holds? ==> r == UsageData(0, 0, loadDay)
  {
    match slot
    case Holds(d) => Normalize(d, today)
    case _ => UsageData(0, 0, loadDay)
  }

  /** Whether `getUsageData` writes its result back: only a stored record whose
      day is not today. */
  predicate ReadWrites(slot: Slot<UsageData>, today: string)
  {
    slot.Holds? && slot.value.lastResetDate != today
  }

  /** `canUseAI` on the record read. */
  predicate CanUse(data: UsageData, isPremium: bool)
  {
    if isPremium then data.aiPhotosToday < PremiumDailyLimit else data.aiPhotosUsed < FreeTierLifetimeLimit
  }

  /** `getRemainingAIUses` on the record read: never negative, positive exactly
      when another photo is allowed, and never more than the tier's limit while
      the counters are not negative. */
  function Remaining(data: UsageData, isPremium: bool): (r: int)
    ensures r >= 0
    ensures r > 0 <==> CanUse(data, isPremium)
    ensures isPremium && data.aiPhotosToday >= 0 ==> r <= PremiumDailyLimit
    ensures !isPremium && data.aiPhotosUsed >= 0 ==> r <= FreeTierLifetimeLimit
  {
    if isPremium then Max(0, PremiumDailyLimit - data.aiPhotosToday)
    else Max(0, FreeTierLifetimeLimit - data.aiPhotosUsed)
  }

  /** `incrementAIUsage` on the record read. */
  function Increment(current: UsageData, today: string): (r: UsageData)
    ensures r.aiPhotosUsed == current.aiPhotosUsed + 1 && r.aiPhotosToday == current.aiPhotosToday + 1
    ensures r.lastResetDate == today
  {
    current.(aiPhotosUsed := current.aiPhotosUsed + 1,
             aiPhotosToday := current.aiPhotosToday + 1,
             lastResetDate := today)
  }

  /** What the key holds after `incrementAIUsage` on day `today`. */
  function AfterIncrement(slot: Slot<UsageData>, today: string, loadDay: string): Slot<UsageData>
  {
    Holds(Increment(Read(slot, today, loadDay), today))
  }

  /** What the key holds after an operation that only reads. */
  function AfterRead(slot: Slot<UsageData>, today: string): (r: Slot<UsageData>)
    ensures ReadWrites(slot, today) ==> r == Holds(Normalize(slot.value, today))
    ensures !ReadWrites(slot, today) ==> r == slot
  {
    if ReadWrites(slot, today) then Holds(Normalize(slot.value, today)) else slot
  }

  /** Increments on the given days, one after the other. */
  function IncrementOn(slot: Slot<UsageData>, days: seq<string>, loadDay: string): Slot<UsageData>
    decreases |days|
  {
    if days == [] then slot else IncrementOn(AfterIncrement(slot, days[0], loadDay), days[1..], loadDay)
  }

  /** The lifetime count an absent record stands for. */
  function UsedOf(slot: Slot<UsageData>): int
  {
    if slot.Holds? then slot.value.aiPhotosUsed else 0
  }

  /** Each increment adds one to the lifetime count, whatever the days. */
  lemma {:induction false} IncrementOnCounts(slot: Slot<UsageData>, days: seq<string>, loadDay: string)
    ensures IncrementOn(slot, days, loadDay).Holds? || days == []
    ensures UsedOf(IncrementOn(slot, days, loadDay)) == UsedOf(slot) + |days|
    decreases |days|
  {
    if days != [] {
      IncrementOnCounts(AfterIncrement(slot, days[0], loadDay), days[1..], loadDay);
    }
  }

  /** Reads never change the lifetime count. */
  lemma AfterReadKeepsUsed(slot: Slot<UsageData>, today: string)
    ensures UsedOf(AfterRead(slot, today)) == UsedOf(slot)
  {
  }

  /** After 15 increments on any days, starting from nothing stored or from a
      record with a non-negative lifetime count, the free tier is refused on
      every later day: the lifetime count is never reset. */
  lemma FreeTierExhausted(slot: Slot<UsageData>, days: seq<string>, loadDay: string, later: string)
    requires |days| >= FreeTierLifetimeLimit && UsedOf(slot) >= 0
    ensures !CanUse(Read(IncrementOn(slot, days, loadDay), later, loadDay), false)
    ensures !CanUse(Read(AfterRead(IncrementOn(slot, days, loadDay), later), later, loadDay), false)
  {
    IncrementOnCounts(slot, days, loadDay);
  }

  /** The stored usage record and the writes made to it. */
  class UsageStore {
    var slot: Slot<UsageData>
    /** Every record written, oldest first. */
    var written: seq<UsageData>
    /** The UTC day on which the module was loaded; the defaults carry it. */
    const loadDay: string

    constructor(stored: Slot<UsageData>, loadDay: string)
      ensures slot == stored && written == [] && this.loadDay == loadDay
    {
      slot := stored;
      written := [];
      this.loadDay := loadDay;
    }

    /** `getUsageData`. */
    method GetUsageData(today: string) returns (r: UsageData)
      modifies this
      ensures r == Read(old(slot), today, loadDay)
      ensures slot == AfterRead(old(slot), today)
      ensures written == old(written) + if ReadWrites(old(slot), today) then [r] else []
    {
      if !slot.Holds? {
        return UsageData(0, 0, loadDay);
      }
      var parsed := slot.value;
      var normalized := Normalize(parsed, today);
      if normalized.aiPhotosToday != parsed.aiPhotosToday || normalized.lastResetDate != parsed.lastResetDate {
        slot := Holds(normalized);
        written := written + [normalized];
      }
      r := normalized;
    }

    /** `canUseAI(isPremium)`. */
    method CanUseAI(isPremium: bool, today: string) returns (ok: bool)
      modifies this
      ensures ok == CanUse(Read(old(slot), today, loadDay), isPremium)
      ensures slot == AfterRead(old(slot), today)
      ensures written == old(written) + if ReadWrites(old(slot), today) then [Read(old(slot), today, loadDay)] else []
    {
      var data := GetUsageData(today);
      if isPremium {
        return data.aiPhotosToday < PremiumDailyLimit;
      }
      return data.aiPhotosUsed < FreeTierLifetimeLimit;
    }

    /** `getRemainingAIUses(isPremium)`. */
    method GetRemainingAIUses(isPremium: bool, today: string) returns (n: int)
      modifies this
      ensures n == Remaining(Read(old(slot), today, loadDay), isPremium)
      ensures slot == AfterRead(old(slot), today)
      ensures written == old(written) + if ReadWrites(old(slot), today) then [Read(old(slot), today, loadDay)] else []
    {
      var data := GetUsageData(today);
      if isPremium {
        return Max(0, PremiumDailyLimit - data.aiPhotosToday);
      }
      return Max(0, FreeTierLifetimeLimit - data.aiPhotosUsed);
    }

    /** `incrementAIUsage`: reads (with its write-back), then stores the record
        with both counts one higher and today's date. */
    method IncrementAIUsage(today: string) returns (updated: UsageData)
      modifies this
      ensures updated == Increment(Read(old(slot), today, loadDay), today)
      ensures slot == AfterIncrement(old(slot), today, loadDay)
      ensures written == old(written) + (if ReadWrites(old(slot), today) then [Read(old(slot), today, loadDay)] else []) + [updated]
    {
      var current := GetUsageData(today);
      updated := current.(aiPhotosUsed := current.aiPhotosUsed + 1,
                          aiPhotosToday := current.aiPhotosToday + 1,
                          lastResetDate := today);
      slot := Holds(updated);
      written := written + [updated];
    }
  }
}
