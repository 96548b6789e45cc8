/** What is read from a tenant's settings, told in the raw JSON found there. */
module ScheduleReading {
  import opened Wrappers
  import opened SlotTimes
  import opened Schedule
  import opened ScheduleProofs

  // A list kept under the schedule's key; anything of another shape counts as an empty one.
  function RawList(settings: Json, name: string): seq<Json> {
    if settings.Obj? && "slot_schedule" in settings.fields
    then
      var kept := settings.fields["slot_schedule"];
      if kept.Obj? && name in kept.fields && kept.fields[name].Arr? then kept.fields[name].items else []
    else []
  }

  // The entry names this weekday by its number.
  predicate SpeaksOf(entry: Json, d: nat) {
    entry.Obj? && "dayOfWeek" in entry.fields && entry.fields["dayOfWeek"] == Num(d as real)
  }

  predicate DateShape(s: string) {
    && |s| == 10 && IsDigit(s[0]) && IsDigit(s[1]) && IsDigit(s[2]) && IsDigit(s[3]) && s[4] == '-'
    && IsDigit(s[5]) && IsDigit(s[6]) && s[7] == '-' && IsDigit(s[8]) && IsDigit(s[9])
  }

  predicate IsFor(entry: Json, date: string) {
    entry.Obj? && "date" in entry.fields && entry.fields["date"] == Str(date) && DateShape(date)
  }

  // The entry is marked as a day off, by anything JavaScript takes for true.
  predicate Off(entry: Json) {
    entry.Obj? && "isDayOff" in entry.fields && entry.fields["isDayOff"] !in {Null, Bool(false), Num(0.0), Str("")}
  }

  // A valid time among the entry's slots.
  predicate Lists(entry: Json, t: string) {
    && IsSlotTime(t) && entry.Obj? && "slots" in entry.fields && entry.fields["slots"].Arr?
    && Str(t) in entry.fields["slots"].items
  }

  // Day-off mark and slots are those of the raw entry; without a valid slot it is a day off anyway.
  ghost predicate ReadFrom(entry: Json, isDayOff: bool, slots: seq<string>) {
    && IsNormal(slots) && (forall t :: t in slots <==> Lists(entry, t))
    && (isDayOff <==> Off(entry) || forall t :: !Lists(entry, t))
  }

  lemma {:induction false} TextsMembers(items: seq<Json>, t: string)
    ensures t in Texts(items) <==> Str(t) in items
  {
    if items != [] {
      TextsMembers(items[1..], t);
      assert items == [items[0]] + items[1..];
    }
  }

  lemma EntryIsRead(entry: Json)
    ensures var slots := NormalizeSlots(Field(AsRecord(entry), "slots"));
            ReadFrom(entry, Truthy(Field(AsRecord(entry), "isDayOff")) || slots == [], slots)
  {
    hide NormalSlots, IsNormal, IsSlotTime;
    var raw := Field(AsRecord(entry), "slots");
    var slots := NormalizeSlots(raw);
    NormalizeSlotsNormal(raw);
    forall t ensures t in slots <==> Lists(entry, t) {
      if raw.Arr? {
        NormalSlotsMeaning(Texts(raw.items));
        TextsMembers(raw.items, t);
      }
    }
    assert slots == [] <==> forall t :: !Lists(entry, t) by {
      if slots != [] {
        assert slots[0] in slots;
      }
    }
  }

  lemma DayOfExact(entry: Json, d: nat)
    requires d < 7
    ensures DayOf(entry) == Some(d) <==> SpeaksOf(entry, d)
  {}

  lemma DateKeyExact(s: string)
    ensures IsDateKey(s) <==> DateShape(s)
  {}

  lemma RawItemsExact(settings: Json, name: string)
    ensures RawItems(settings, name) == RawList(settings, name)
  {}

  // ---------------------------------------------------------------------------
  // The week
  // ---------------------------------------------------------------------------

  lemma {:induction false} LastRawAt(items: seq<Json>, d: nat, i: nat)
    requires d < 7 && i < |items| && SpeaksOf(items[i], d)
    requires forall j :: i < j < |items| ==> !SpeaksOf(items[j], d)
    ensures LastRaw(items, d) == Some(items[i])
  {
    hide SpeaksOf;
    var n := |items| - 1;
    DayOfExact(items[n], d);
    if i < n {
      LastRawAt(items[..n], d, i);
    }
  }

  lemma {:induction false} LastRawNone(items: seq<Json>, d: nat)
    requires d < 7 && forall j :: 0 <= j < |items| ==> !SpeaksOf(items[j], d)
    ensures LastRaw(items, d) == None
  {
    hide SpeaksOf;
    if items != [] {
      var n := |items| - 1;
      DayOfExact(items[n], d);
      LastRawNone(items[..n], d);
    }
  }

  /** A weekday is what its last entry says, `items[i]`; without an entry it is a day off. */
  lemma WeekdayExact(settings: Json, d: nat, i: nat)
    requires d < 7
    ensures var items, day := RawList(settings, "weekly"), Extract(settings).weekly[d];
            && day.dayOfWeek == d
            && ((forall j :: 0 <= j < |items| ==> !SpeaksOf(items[j], d)) ==> day.isDayOff && day.slots == [])
            && (i < |items| && SpeaksOf(items[i], d) && (forall j :: i < j < |items| ==> !SpeaksOf(items[j], d)) ==>
                  ReadFrom(items[i], day.isDayOff, day.slots))
  {
    hide SpeaksOf, ReadFrom, LastRaw, RawList, Truthy, NormalizeSlots;
    var items := RawList(settings, "weekly");
    RawItemsExact(settings, "weekly");
    ReadDaysAt(items, d);
    if forall j :: 0 <= j < |items| ==> !SpeaksOf(items[j], d) {
      LastRawNone(items, d);
    } else if i < |items| && SpeaksOf(items[i], d) && forall j :: i < j < |items| ==> !SpeaksOf(items[j], d) {
      LastRawAt(items, d, i);
      EntryIsRead(items[i]);
    }
  }

  // ---------------------------------------------------------------------------
  // The overrides
  // ---------------------------------------------------------------------------

  // The override read from a raw entry: its own id, or the date when it has none.
  ghost predicate OverrideFrom(entry: Json, date: string, o: Override) {
    && o.date == date && ReadFrom(entry, o.isDayOff, o.slots)
    && o.id == if entry.Obj? && "id" in entry.fields && entry.fields["id"].Str? then entry.fields["id"].s else date
  }

  lemma ReadOverrideExact(entry: Json, date: string)
    ensures ReadOverride(entry).Some? && ReadOverride(entry).value.date == date <==> IsFor(entry, date)
    ensures IsFor(entry, date) ==> OverrideFrom(entry, date, ReadOverride(entry).value)
  {
    hide ReadFrom, NormalizeSlots, Truthy, IsDateKey, DateShape;
    DateKeyExact(date);
    EntryIsRead(entry);
  }

  lemma {:induction false} FirstRawAt(items: seq<Json>, date: string, i: nat)
    requires i < |items| && IsFor(items[i], date) && forall j :: 0 <= j < i ==> !IsFor(items[j], date)
    ensures FirstRaw(items, date) == Some(items[i])
  {
    hide IsFor, ReadOverride, OverrideFrom;
    ReadOverrideExact(items[0], date);
    if i > 0 {
      FirstRawAt(items[1..], date, i - 1);
    }
  }

  lemma {:induction false} FirstRawNone(items: seq<Json>, date: string)
    requires forall j :: 0 <= j < |items| ==> !IsFor(items[j], date)
    ensures FirstRaw(items, date) == None
  {
    hide IsFor, ReadOverride, OverrideFrom;
    if items != [] {
      ReadOverrideExact(items[0], date);
      FirstRawNone(items[1..], date);
    }
  }

  /** The override in force on a date is the first entry for it, `items[i]`; there is one only if some entry is for it. */
  lemma OverrideExact(settings: Json, date: string, i: nat)
    ensures var items, found := RawList(settings, "overrides"), FirstFor(Extract(settings).overrides, date);
            && ((forall j :: 0 <= j < |items| ==> !IsFor(items[j], date)) ==> found == None)
            && (i < |items| && IsFor(items[i], date) && (forall j :: 0 <= j < i ==> !IsFor(items[j], date)) ==>
                  found.Some? && OverrideFrom(items[i], date, found.value))
  {
    hide IsFor, OverrideFrom, ReadOverride, FirstFor, FirstRaw, RawList;
    var items := RawList(settings, "overrides");
    RawItemsExact(settings, "overrides");
    FoundInRaw(settings, date);
    FirstForReads(items, date);
    if forall j :: 0 <= j < |items| ==> !IsFor(items[j], date) {
      FirstRawNone(items, date);
    } else if i < |items| && IsFor(items[i], date) && forall j :: 0 <= j < i ==> !IsFor(items[j], date) {
      FirstRawAt(items, date, i);
      ReadOverrideExact(items[i], date);
    }
  }

  lemma FoundInRaw(settings: Json, date: string)
    ensures FirstFor(Extract(settings).overrides, date) == FirstFor(ReadOverrides(RawItems(settings, "overrides")), date)
  {
    FirstForSorted(ReadOverrides(RawItems(settings, "overrides")), date);
  }

  /** What a date is: its override if it has one, else its weekday's template, else a day off. */
  lemma EffectiveExact(settings: Json, cal: Calendar, date: string)
    ensures var sch := Extract(settings);
            var e, o := Resolve(sch, cal, date), FirstFor(sch.overrides, date);
            && (e.fromOverride <==> exists j :: 0 <= j < |RawList(settings, "overrides")| && IsFor(RawList(settings, "overrides")[j], date))
            && (e.fromOverride ==> o.Some? && e.isDayOff == o.value.isDayOff && e.slots == o.value.slots)
            && (!e.fromOverride && cal(date) < 7 ==>
                  e.isDayOff == sch.weekly[cal(date)].isDayOff && e.slots == sch.weekly[cal(date)].slots)
            && (!e.fromOverride && cal(date) >= 7 ==> e.isDayOff && e.slots == [])
  {
    hide IsFor, Extract, FirstFor, RawList;
    var items := RawList(settings, "overrides");
    if exists j :: 0 <= j < |items| && IsFor(items[j], date) {
      var i := FirstIndex(items, date);
      OverrideExact(settings, date, i);
    } else {
      OverrideExact(settings, date, 0);
    }
  }

  ghost function FirstIndex(items: seq<Json>, date: string): (i: nat)
    requires exists j :: 0 <= j < |items| && IsFor(items[j], date)
    ensures i < |items| && IsFor(items[i], date) && forall j :: 0 <= j < i ==> !IsFor(items[j], date)
  {
    if IsFor(items[0], date) then 0
    else
      var j :| 0 <= j < |items| && IsFor(items[j], date);
      assert IsFor(items[1..][j - 1], date);
      1 + FirstIndex(items[1..], date)
  }

  // ---------------------------------------------------------------------------
  // The order of dates
  // ---------------------------------------------------------------------------

  lemma {:induction false} TextLessByLast(s: string, t: string)
    requires |s| == |t| > 0
    ensures var n := |s| - 1;
            TextLess(s, t) <==> TextLess(s[..n], t[..n]) || (s[..n] == t[..n] && s[n] < t[n])
  {
    var n := |s| - 1;
    if n == 0 {
      assert s[1..] == "" && t[1..] == "";
    } else {
      TextLessByLast(s[1..], t[1..]);
      assert s[1..][..n - 1] == s[..n][1..] && t[1..][..n - 1] == t[..n][1..];
      assert s[..n] == [s[0]] + s[..n][1..] && t[..n] == [t[0]] + t[..n][1..];
    }
  }

  // At every place both are digits or both the same other character.
  predicate SameShape(s: string, t: string) {
    |s| == |t| && forall i :: 0 <= i < |s| ==> if IsDigit(s[i]) then IsDigit(t[i]) else s[i] == t[i]
  }

  lemma {:induction false} RankIsTextOrder(s: string, t: string)
    requires SameShape(s, t)
    ensures DateRank(s) < DateRank(t) <==> TextLess(s, t)
    ensures DateRank(s) == DateRank(t) <==> s == t
  {
    if s != "" {
      var n := |s| - 1;
      RankIsTextOrder(s[..n], t[..n]);
      TextLessByLast(s, t);
      assert s == s[..n] + [s[n]] && t == t[..n] + [t[n]];
    }
  }

  /** The overrides are kept in the order of their dates as text: for valid dates the same as in time. */
  lemma OverridesInDateOrder(settings: Json, i: nat, j: nat)
    requires i < j < |Extract(settings).overrides|
    ensures var os := Extract(settings).overrides;
            DateShape(os[i].date) && DateShape(os[j].date) && !TextLess(os[j].date, os[i].date)
  {
    hide Extract, IsDateKey, DateShape, DateRank, TextLess;
    var os := Extract(settings).overrides;
    ExtractIsNormal(settings);
    assert os[i] in os && os[j] in os && NotAfter(os[i], os[j]);
    DateKeyExact(os[i].date);
    DateKeyExact(os[j].date);
    ShapesAgree(os[j].date, os[i].date);
    RankIsTextOrder(os[j].date, os[i].date);
  }

  lemma ShapesAgree(s: string, t: string)
    requires DateShape(s) && DateShape(t)
    ensures SameShape(s, t)
  {}
}
