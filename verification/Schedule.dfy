/**
 The slot schedule kept inside a tenant's free-form settings. It is normalised on every read, from
 whatever JSON is found there, and stored back whole.
 */
module Schedule {
  import opened Wrappers
  import opened Sorting
  import opened SlotTimes

  datatype Json =
    | Null
    | Bool(b: bool)
    | Num(n: real)
    | Str(s: string)
    | Arr(items: seq<Json>)
    | Obj(fields: map<string, Json>)

  datatype DayConfig = DayConfig(dayOfWeek: nat, isDayOff: bool, slots: seq<string>)
  datatype Override = Override(id: string, date: string, isDayOff: bool, slots: seq<string>)
  datatype Settings = Settings(weekly: seq<DayConfig>, overrides: seq<Override>)

  const KEY := "slot_schedule"

  // Monday is 0; a key that names no day of the calendar has no weekday below 7.
  type Calendar = string -> nat

  // ---------------------------------------------------------------------------
  // Reading
  // ---------------------------------------------------------------------------

  // The fields of an object; anything else counts as an object without fields.
  function AsRecord(j: Json): map<string, Json> {
    if j.Obj? then j.fields else map[]
  }

  // A missing field and a null one are treated alike everywhere.
  function Field(r: map<string, Json>, key: string): Json {
    if key in r then r[key] else Null
  }

  function Truthy(j: Json): bool {
    match j
    case Null => false
    case Bool(b) => b
    case Num(n) => n != 0.0
    case Str(s) => s != ""
    case _ => true
  }

  function Texts(items: seq<Json>): seq<string> {
    if items == [] then []
    else if items[0].Str? then [items[0].s] + Texts(items[1..])
    else Texts(items[1..])
  }

  function NormalizeSlots(raw: Json): seq<string> {
    if raw.Arr? then NormalSlots(Texts(raw.items)) else []
  }

  function Closed(d: nat): DayConfig { DayConfig(d, true, []) }

  const DEFAULT_WEEK := [Closed(0), Closed(1), Closed(2), Closed(3), Closed(4), Closed(5), Closed(6)]

  // The weekday a raw entry speaks of, if it does.
  function DayOf(entry: Json): Option<nat> {
    var d := Field(AsRecord(entry), "dayOfWeek");
    if d.Num? && 0.0 <= d.n <= 6.0 && d.n == d.n.Floor as real then Some(d.n.Floor) else None
  }

  function DayEntry(entry: Json, d: nat): DayConfig {
    var r := AsRecord(entry);
    var slots := NormalizeSlots(Field(r, "slots"));
    DayConfig(d, Truthy(Field(r, "isDayOff")) || slots == [], slots)
  }

  // The week after reading the entries one by one, each overwriting its weekday.
  function ReadDays(items: seq<Json>): (week: seq<DayConfig>)
    ensures |week| == 7
  {
    if items == [] then DEFAULT_WEEK
    else ReadDay(ReadDays(items[..|items| - 1]), items[|items| - 1])
  }

  function ReadDay(week: seq<DayConfig>, entry: Json): (week': seq<DayConfig>)
    requires |week| == 7
    ensures |week'| == 7
  {
    if DayOf(entry).Some? then week[DayOf(entry).value := DayEntry(entry, DayOf(entry).value)] else week
  }

  function NormalizeWeeklyDays(raw: Json): (week: seq<DayConfig>)
    ensures |week| == 7
  {
    ReadDays(if raw.Arr? then raw.items else [])
  }

  /** Four digits, two digits, two digits; no check that the day exists. */
  predicate IsDateKey(s: string) {
    |s| == 10 && forall i :: 0 <= i < 10 ==> if i in {4, 7} then s[i] == '-' else IsDigit(s[i])
  }

  function ReadOverride(entry: Json): Option<Override> {
    var r := AsRecord(entry);
    var date := Field(r, "date");
    if !date.Str? || !IsDateKey(date.s) then None
    else
      var id := Field(r, "id");
      var slots := NormalizeSlots(Field(r, "slots"));
      Some(Override(if id.Str? then id.s else date.s, date.s, Truthy(Field(r, "isDayOff")) || slots == [], slots))
  }

  function ReadOverrides(items: seq<Json>): seq<Override> {
    if items == [] then []
    else
      var first := ReadOverride(items[0]);
      if first.Some? then [first.value] + ReadOverrides(items[1..]) else ReadOverrides(items[1..])
  }

  // Date keys compare as text; among keys of one shape that is the order of their digits.
  function DateRank(s: string): int {
    if s == "" then 0
    else 10 * DateRank(s[..|s| - 1]) + if IsDigit(s[|s| - 1]) then Digit(s[|s| - 1]) else 0
  }

  const NotAfter: Order<Override> := (a: Override, b: Override) => DateRank(a.date) <= DateRank(b.date)

  function NormalizeOverrides(raw: Json): seq<Override> {
    if raw.Arr? then Sort(NotAfter, ReadOverrides(raw.items)) else []
  }

  function Extract(settings: Json): Settings {
    var raw := AsRecord(Field(AsRecord(settings), KEY));
    Settings(NormalizeWeeklyDays(Field(raw, "weekly")), NormalizeOverrides(Field(raw, "overrides")))
  }

  // ---------------------------------------------------------------------------
  // Storing
  // ---------------------------------------------------------------------------

  function SlotsJson(slots: seq<string>): Json {
    Arr(seq(|slots|, i requires 0 <= i < |slots| => Str(slots[i])))
  }

  function DayJson(d: DayConfig): Json {
    Obj(map["dayOfWeek" := Num(d.dayOfWeek as real), "isDayOff" := Bool(d.isDayOff), "slots" := SlotsJson(d.slots)])
  }

  function OverrideJson(o: Override): Json {
    Obj(map["id" := Str(o.id), "date" := Str(o.date), "isDayOff" := Bool(o.isDayOff), "slots" := SlotsJson(o.slots)])
  }

  function WeekJson(week: seq<DayConfig>): Json {
    Arr(seq(|week|, i requires 0 <= i < |week| => DayJson(week[i])))
  }

  function OverridesJson(os: seq<Override>): Json {
    Arr(seq(|os|, i requires 0 <= i < |os| => OverrideJson(os[i])))
  }

  function WithSchedule(settings: Json, sch: Settings): Json {
    Obj(AsRecord(settings)[KEY := Obj(map["weekly" := WeekJson(sch.weekly), "overrides" := OverridesJson(sch.overrides)])])
  }

  // ---------------------------------------------------------------------------
  // Effective slots of a date
  // ---------------------------------------------------------------------------

  function FirstFor(os: seq<Override>, date: string): Option<Override> {
    if os == [] then None else if os[0].date == date then Some(os[0]) else FirstFor(os[1..], date)
  }

  datatype Effective = Effective(fromOverride: bool, isDayOff: bool, slots: seq<string>)

  function Resolve(sch: Settings, cal: Calendar, date: string): Effective
    requires |sch.weekly| == 7
  {
    var o := FirstFor(sch.overrides, date);
    if o.Some? then Effective(true, o.value.isDayOff, o.value.slots)
    else if cal(date) < 7 then Effective(false, sch.weekly[cal(date)].isDayOff, sch.weekly[cal(date)].slots)
    else Effective(false, true, [])
  }

  function EffectiveSlots(settings: Json, cal: Calendar, date: string): seq<string> {
    Resolve(Extract(settings), cal, date).slots
  }
}
