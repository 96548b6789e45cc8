/** What normalising on every read amounts to. */
module ScheduleProofs {
  import opened Wrappers
  import opened Sorting
  import opened SlotTimes
  import opened Schedule

  // ---------------------------------------------------------------------------
  // Normal schedules, and that reading back a stored one gives it again
  // ---------------------------------------------------------------------------

  predicate NormalDay(d: DayConfig) {
    IsNormal(d.slots) && (d.slots == [] ==> d.isDayOff)
  }

  predicate NormalWeek(week: seq<DayConfig>) {
    |week| == 7 && forall i :: 0 <= i < 7 ==> week[i].dayOfWeek == i && NormalDay(week[i])
  }

  predicate NormalOverride(o: Override) {
    IsDateKey(o.date) && IsNormal(o.slots) && (o.slots == [] ==> o.isDayOff)
  }

  ghost predicate NormalSettings(sch: Settings) {
    NormalWeek(sch.weekly) && Ordered(NotAfter, sch.overrides) && forall o :: o in sch.overrides ==> NormalOverride(o)
  }

  lemma NormalizeSlotsNormal(raw: Json)
    ensures IsNormal(NormalizeSlots(raw))
  {
    if raw.Arr? {
      NormalSlotsMeaning(Texts(raw.items));
    }
  }

  lemma {:induction false} ReadDaysNormal(items: seq<Json>)
    ensures NormalWeek(ReadDays(items))
  {
    if items != [] {
      var entry := items[|items| - 1];
      ReadDaysNormal(items[..|items| - 1]);
      NormalizeSlotsNormal(Field(AsRecord(entry), "slots"));
    }
  }

  lemma {:induction false} ReadOverridesNormal(items: seq<Json>)
    ensures forall o :: o in ReadOverrides(items) ==> NormalOverride(o)
  {
    if items != [] {
      ReadOverridesNormal(items[1..]);
      NormalizeSlotsNormal(Field(AsRecord(items[0]), "slots"));
    }
  }

  /** Whatever JSON the settings hold, what is read from them is a normal schedule. */
  lemma ExtractIsNormal(settings: Json)
    ensures NormalSettings(Extract(settings))
  {
    var raw := AsRecord(Field(AsRecord(settings), KEY));
    var weekly, overrides := Field(raw, "weekly"), Field(raw, "overrides");
    ReadDaysNormal(if weekly.Arr? then weekly.items else []);
    if overrides.Arr? {
      var os := ReadOverrides(overrides.items);
      ReadOverridesNormal(overrides.items);
      SortOrdered(NotAfter, os);
      forall o | o in Sort(NotAfter, os) ensures NormalOverride(o) {
        SortMembers(NotAfter, os, o);
      }
    }
  }

  lemma {:induction false} TextsOfJson(slots: seq<string>)
    ensures Texts(SlotsJson(slots).items) == slots
  {
    if slots != [] {
      TextsOfJson(slots[1..]);
      assert SlotsJson(slots).items[1..] == SlotsJson(slots[1..]).items;
    }
  }

  lemma SlotsRoundTrip(slots: seq<string>)
    requires IsNormal(slots)
    ensures NormalizeSlots(SlotsJson(slots)) == slots
  {
    TextsOfJson(slots);
    NormalSlotsFixed(slots);
  }

  lemma DayRoundTrip(d: DayConfig)
    requires NormalDay(d) && d.dayOfWeek < 7
    ensures DayOf(DayJson(d)) == Some(d.dayOfWeek) && DayEntry(DayJson(d), d.dayOfWeek) == d
  {
    SlotsRoundTrip(d.slots);
  }

  // The first `n` days of a stored week, read back.
  lemma {:induction false} ReadStoredDays(week: seq<DayConfig>, n: nat)
    requires NormalWeek(week) && n <= 7
    ensures ReadDays(WeekJson(week).items[..n]) == week[..n] + DEFAULT_WEEK[n..]
  {
    hide DayJson, DayEntry, DayOf, NormalDay, WeekJson;
    if n > 0 {
      ReadStoredDays(week, n - 1);
      StoredDay(week, n - 1);
      DayRoundTrip(week[n - 1]);
      PrefixStep(week, DEFAULT_WEEK, n - 1);
    }
  }

  lemma StoredDay(week: seq<DayConfig>, i: nat)
    requires i < |week|
    ensures |WeekJson(week).items| == |week|
    ensures var items := WeekJson(week).items[..i + 1]; items[..i] == WeekJson(week).items[..i] && items[i] == DayJson(week[i])
  {
    hide DayJson;
  }

  lemma PrefixStep<T>(a: seq<T>, rest: seq<T>, i: nat)
    requires |a| == |rest| && i < |a|
    ensures (a[..i] + rest[i..])[i := a[i]] == a[..i + 1] + rest[i + 1..]
  {}

  lemma WeekRoundTrip(week: seq<DayConfig>)
    requires NormalWeek(week)
    ensures NormalizeWeeklyDays(WeekJson(week)) == week
  {
    ReadStoredDays(week, 7);
    assert WeekJson(week).items[..7] == WeekJson(week).items;
  }

  // An override as it reads back: no slots means a day off.
  function Settled(o: Override): Override {
    o.(isDayOff := o.isDayOff || o.slots == [])
  }

  function SettledAll(os: seq<Override>): (r: seq<Override>)
    ensures |r| == |os|
  {
    if os == [] then [] else [Settled(os[0])] + SettledAll(os[1..])
  }

  lemma {:induction false} OverridesReadBack(os: seq<Override>)
    requires forall o :: o in os ==> IsDateKey(o.date) && IsNormal(o.slots)
    ensures ReadOverrides(OverridesJson(os).items) == SettledAll(os)
  {
    hide OverrideJson, ReadOverride, IsDateKey, IsNormal, Settled;
    if os != [] {
      OverridesReadBack(os[1..]);
      assert OverridesJson(os).items[0] == OverrideJson(os[0]);
      assert OverridesJson(os).items[1..] == OverridesJson(os[1..]).items;
      OverrideReadsBack(os[0]);
    }
  }

  lemma OverrideReadsBack(o: Override)
    requires IsDateKey(o.date) && IsNormal(o.slots)
    ensures ReadOverride(OverrideJson(o)) == Some(Settled(o))
  {
    hide IsDateKey, IsNormal, NormalizeSlots, SlotsJson;
    SlotsRoundTrip(o.slots);
  }

  /** Reading back any stored schedule: the week as it was, the overrides settled and in date order. */
  lemma StoreThenRead(settings: Json, sch: Settings)
    requires NormalWeek(sch.weekly) && forall o :: o in sch.overrides ==> IsDateKey(o.date) && IsNormal(o.slots)
    ensures Extract(WithSchedule(settings, sch)) == Settings(sch.weekly, Sort(NotAfter, SettledAll(sch.overrides)))
  {
    WeekRoundTrip(sch.weekly);
    OverridesReadBack(sch.overrides);
  }

  lemma {:induction false} SettledFixed(os: seq<Override>)
    requires forall o :: o in os ==> NormalOverride(o)
    ensures SettledAll(os) == os
  {
    if os != [] {
      SettledFixed(os[1..]);
      assert os[0] in os && Settled(os[0]) == os[0];
      assert os == [os[0]] + os[1..];
    }
  }

  lemma {:induction false} SortFixed(os: seq<Override>)
    requires Ordered(NotAfter, os)
    ensures Sort(NotAfter, os) == os
  {
    if os != [] {
      SortFixed(os[1..]);
      assert os == [os[0]] + os[1..];
      if |os| > 1 {
        assert NotAfter(os[0], os[1]);
      }
    }
  }

  lemma KeysKept(settings: Json, sch: Settings)
    ensures OtherKeysKept(settings, WithSchedule(settings, sch))
  {}

  /** A normal schedule is read back exactly as stored, and no other settings key is touched. */
  lemma NormalRoundTrip(settings: Json, sch: Settings)
    requires NormalSettings(sch)
    ensures Extract(WithSchedule(settings, sch)) == sch
    ensures OtherKeysKept(settings, WithSchedule(settings, sch))
  {
    hide Extract, WithSchedule, OtherKeysKept, Sort, SettledAll, IsDateKey, IsNormal;
    KeysKept(settings, sch);
    StoreThenRead(settings, sch);
    SettledFixed(sch.overrides);
    SortFixed(sch.overrides);
  }

  ghost predicate OtherKeysKept(settings: Json, settings': Json) {
    && settings'.Obj?
    && settings'.fields - {KEY} == AsRecord(settings) - {KEY}
  }

  /** Normalising is idempotent: storing what was read and reading again changes nothing. */
  lemma ExtractIdempotent(settings: Json)
    ensures Extract(WithSchedule(settings, Extract(settings))) == Extract(settings)
  {
    ExtractIsNormal(settings);
    NormalRoundTrip(settings, Extract(settings));
  }

  // ---------------------------------------------------------------------------
  // Effective slots straight from the raw JSON
  // ---------------------------------------------------------------------------

  // The first raw entry that is a valid override for the date.
  function FirstRaw(items: seq<Json>, date: string): Option<Json> {
    if items == [] then None
    else if ReadOverride(items[0]).Some? && ReadOverride(items[0]).value.date == date then Some(items[0])
    else FirstRaw(items[1..], date)
  }

  // The last raw entry for the weekday.
  function LastRaw(items: seq<Json>, d: nat): Option<Json> {
    if items == [] then None
    else if DayOf(items[|items| - 1]) == Some(d) then Some(items[|items| - 1])
    else LastRaw(items[..|items| - 1], d)
  }

  function RawItems(settings: Json, key: string): seq<Json> {
    var list := Field(AsRecord(Field(AsRecord(settings), KEY)), key);
    if list.Arr? then list.items else []
  }

  lemma {:induction false} FirstForIsFiltered(os: seq<Override>, date: string)
    ensures var found := Filter((o: Override) => o.date == date, os);
            FirstFor(os, date) == if found == [] then None else Some(found[0])
  {
    if os != [] {
      FirstForIsFiltered(os[1..], date);
    }
  }

  /** Sorting by date does not change which override comes first for a date. */
  lemma FirstForSorted(os: seq<Override>, date: string)
    ensures FirstFor(Sort(NotAfter, os), date) == FirstFor(os, date)
  {
    SortStable(NotAfter, (o: Override) => o.date == date, os);
    FirstForIsFiltered(os, date);
    FirstForIsFiltered(Sort(NotAfter, os), date);
  }

  lemma {:induction false} FirstForReads(items: seq<Json>, date: string)
    ensures FirstFor(ReadOverrides(items), date) ==
            if FirstRaw(items, date).Some? then ReadOverride(FirstRaw(items, date).value) else None
  {
    if items != [] {
      FirstForReads(items[1..], date);
      if ReadOverride(items[0]).Some? {
        assert ([ReadOverride(items[0]).value] + ReadOverrides(items[1..]))[1..] == ReadOverrides(items[1..]);
      }
    }
  }

  lemma {:induction false} ReadDaysAt(items: seq<Json>, d: nat)
    requires d < 7
    ensures ReadDays(items)[d] == if LastRaw(items, d).Some? then DayEntry(LastRaw(items, d).value, d) else Closed(d)
  {
    if items != [] {
      ReadDaysAt(items[..|items| - 1], d);
    }
  }

  /**
   For arbitrary settings the slots of a date are the normalised slots of the first valid raw override
   for it, and without one those of the last raw weekly entry for its weekday, else none.
   */
  lemma EffectiveSlotsFromRaw(settings: Json, cal: Calendar, date: string)
    ensures EffectiveSlots(settings, cal, date) ==
              var o := FirstRaw(RawItems(settings, "overrides"), date);
              var w := LastRaw(RawItems(settings, "weekly"), cal(date));
              if o.Some? then NormalizeSlots(Field(AsRecord(o.value), "slots"))
              else if cal(date) < 7 && w.Some? then NormalizeSlots(Field(AsRecord(w.value), "slots"))
              else []
  {
    var items := RawItems(settings, "overrides");
    FirstForSorted(ReadOverrides(items), date);
    FirstForReads(items, date);
    if FirstRaw(items, date).Some? {
      FirstRawReads(items, date);
    }
    if cal(date) < 7 {
      ReadDaysAt(RawItems(settings, "weekly"), cal(date));
    }
  }

  lemma {:induction false} FirstRawReads(items: seq<Json>, date: string)
    requires FirstRaw(items, date).Some?
    ensures ReadOverride(FirstRaw(items, date).value).Some?
  {
    if ReadOverride(items[0]).None? || ReadOverride(items[0]).value.date != date {
      FirstRawReads(items[1..], date);
    }
  }

  // ---------------------------------------------------------------------------
  // Edits of the weekly hours and of the override list
  // ---------------------------------------------------------------------------

  // The duplicate-weekday check of the weekly update.
  predicate DistinctDays(week: seq<DayConfig>) {
    forall i, j :: 0 <= i < j < |week| ==> week[i].dayOfWeek != week[j].dayOfWeek
  }

  /** A normalised week never has duplicates, so the check that would reject one never does. */
  lemma DuplicateDayCheckIsDead(days: Json)
    ensures DistinctDays(NormalizeWeeklyDays(days))
  {
    ReadDaysNormal(if days.Arr? then days.items else []);
  }

  function UpdatedHours(settings: Json, days: Json): Json {
    WithSchedule(settings, Settings(NormalizeWeeklyDays(days), Extract(settings).overrides))
  }

  /**
   New weekly hours reach exactly the dates without an override: those get the last entry the request
   holds for their weekday, all others and every other settings key stay as they were.
   */
  lemma UpdatedHoursEffect(settings: Json, days: Json, cal: Calendar, date: string)
    ensures Extract(UpdatedHours(settings, days)) == Settings(NormalizeWeeklyDays(days), Extract(settings).overrides)
    ensures OtherKeysKept(settings, UpdatedHours(settings, days))
    ensures var items := if days.Arr? then days.items else [];
            var w := LastRaw(items, cal(date));
            EffectiveSlots(UpdatedHours(settings, days), cal, date) ==
              if FirstFor(Extract(settings).overrides, date).Some? then EffectiveSlots(settings, cal, date)
              else if cal(date) < 7 && w.Some? then NormalizeSlots(Field(AsRecord(w.value), "slots"))
              else []
  {
    var items := if days.Arr? then days.items else [];
    ReadDaysNormal(items);
    ExtractIsNormal(settings);
    NormalRoundTrip(settings, Settings(NormalizeWeeklyDays(days), Extract(settings).overrides));
    if cal(date) < 7 {
      ReadDaysAt(items, cal(date));
    }
  }

  function WithoutId(os: seq<Override>, id: string): seq<Override> {
    Filter((o: Override) => o.id != id, os)
  }

  function DeletedOverride(settings: Json, id: string): Json {
    WithSchedule(settings, Settings(Extract(settings).weekly, WithoutId(Extract(settings).overrides, id)))
  }

  lemma {:induction false} FilterOrdered(p: Override -> bool, os: seq<Override>)
    requires Ordered(NotAfter, os)
    ensures Ordered(NotAfter, Filter(p, os))
  {
    if os != [] {
      FilterOrdered(p, os[1..]);
      var rest := Filter(p, os[1..]);
      forall j | 0 <= j < |rest| ensures NotAfter(os[0], rest[j]) {
        FilterMembers(p, os[1..], rest[j]);
      }
    }
  }

  /** Deleting an override reads back as the old schedule without every override of that id. */
  lemma DeletedOverrideReads(settings: Json, id: string)
    ensures Extract(DeletedOverride(settings, id)) ==
            Settings(Extract(settings).weekly, WithoutId(Extract(settings).overrides, id))
    ensures OtherKeysKept(settings, DeletedOverride(settings, id))
  {
    var sch := Extract(settings);
    ExtractIsNormal(settings);
    var keep := (o: Override) => o.id != id;
    FilterOrdered(keep, sch.overrides);
    forall o | o in WithoutId(sch.overrides, id) ensures NormalOverride(o) {
      FilterMembers(keep, sch.overrides, o);
    }
    NormalRoundTrip(settings, Settings(sch.weekly, WithoutId(sch.overrides, id)));
  }

  lemma {:induction false} FirstForMember(os: seq<Override>, date: string)
    ensures FirstFor(os, date).Some? <==> exists o :: o in os && o.date == date
    ensures FirstFor(os, date).Some? ==> FirstFor(os, date).value in os && FirstFor(os, date).value.date == date
  {
    if os != [] {
      FirstForMember(os[1..], date);
      assert os == [os[0]] + os[1..];
    }
  }
}
