/** The weekly schedule editor: edits of a draft, and what is sent to the server when it is saved. */
module Draft {
  import opened SlotTimes
  import opened Schedule
  import opened ScheduleProofs
  import opened NextSlot

  type Week = seq<DayConfig>

  datatype Edit =
    | Replace(days: Week)
    | Toggle(day: nat)
    | AddSlot(day: nat)
    | CopyPrevious(day: nat)
    | ChangeSlot(day: nat, index: int, value: string)
    | RemoveSlot(day: nat, index: int)

  // The entries of one weekday are replaced, all others kept.
  function UpdateDay(draft: Week, day: nat, updater: DayConfig -> DayConfig): (after: Week)
    ensures |after| == |draft|
    ensures forall i :: 0 <= i < |draft| ==> after[i] == if draft[i].dayOfWeek == day then updater(draft[i]) else draft[i]
  {
    seq(|draft|, i requires 0 <= i < |draft| => if draft[i].dayOfWeek == day then updater(draft[i]) else draft[i])
  }

  function Toggled(d: DayConfig): DayConfig {
    if d.isDayOff then d.(isDayOff := false, slots := if |d.slots| > 0 then d.slots else ["09:00"])
    else d.(isDayOff := true, slots := [])
  }

  function WithNextSlot(d: DayConfig): DayConfig {
    d.(isDayOff := false, slots := d.slots + [Next(d.slots, "09:00", 30)])
  }

  function WithoutSlot(d: DayConfig, index: int): DayConfig {
    var slots := if 0 <= index < |d.slots| then d.slots[..index] + d.slots[index + 1..] else d.slots;
    d.(slots := slots, isDayOff := slots == [])
  }

  function Changed(d: DayConfig, index: int, value: string): DayConfig {
    if 0 <= index < |d.slots| then d.(slots := d.slots[index := value]) else d
  }

  // The first entry of a weekday, by position.
  function Find(draft: Week, day: int): (i: nat)
    ensures i <= |draft|
    ensures i < |draft| ==> draft[i].dayOfWeek == day
    ensures forall j :: 0 <= j < i ==> draft[j].dayOfWeek != day
  {
    if draft == [] || draft[0].dayOfWeek == day then 0 else 1 + Find(draft[1..], day)
  }

  function Apply(draft: Week, e: Edit): (after: Week)
    ensures !e.Replace? ==> |after| == |draft|
  {
    match e
    case Replace(days) => days
    case Toggle(day) => UpdateDay(draft, day, Toggled)
    case AddSlot(day) => UpdateDay(draft, day, WithNextSlot)
    case CopyPrevious(day) =>
      var source := Find(draft, day - 1);
      if day == 0 || source == |draft| || draft[source].isDayOff || draft[source].slots == [] then draft
      else UpdateDay(draft, day, (d: DayConfig) => d.(isDayOff := false, slots := draft[source].slots))
    case ChangeSlot(day, index, value) => UpdateDay(draft, day, (d: DayConfig) => Changed(d, index, value))
    case RemoveSlot(day, index) => UpdateDay(draft, day, (d: DayConfig) => WithoutSlot(d, index))
  }

  function ApplyAll(draft: Week, es: seq<Edit>): Week
    decreases |es|
  {
    if es == [] then draft else ApplyAll(Apply(draft, es[0]), es[1..])
  }

  function SerializeDay(d: DayConfig): DayConfig {
    var slots := if d.isDayOff then [] else NormalizeSlotTimes(d.slots);
    d.(slots := slots, isDayOff := d.isDayOff || slots == [])
  }

  function Serialize(draft: Week): (days: Week)
    ensures |days| == |draft|
    ensures forall i :: 0 <= i < |draft| ==> days[i] == SerializeDay(draft[i])
  {
    seq(|draft|, i requires 0 <= i < |draft| => SerializeDay(draft[i]))
  }

  // ---------------------------------------------------------------------------
  // Seven days in order, whatever is typed into them
  // ---------------------------------------------------------------------------

  predicate InOrder(draft: Week) {
    |draft| == 7 && forall i :: 0 <= i < 7 ==> draft[i].dayOfWeek == i
  }

  // The editor starts from, and is reset to, weeks the server sends.
  predicate FromServer(es: seq<Edit>) {
    forall i :: 0 <= i < |es| ==> es[i].Replace? ==> NormalWeek(es[i].days)
  }

  lemma {:induction false} EditsKeepOrder(draft: Week, es: seq<Edit>)
    requires InOrder(draft) && FromServer(es)
    ensures InOrder(ApplyAll(draft, es))
    decreases |es|
  {
    if es != [] {
      EditsKeepOrder(Apply(draft, es[0]), es[1..]);
    }
  }

  lemma SerializedNormal(draft: Week)
    requires InOrder(draft)
    ensures NormalWeek(Serialize(draft))
    ensures forall i :: 0 <= i < 7 ==> (Serialize(draft)[i].isDayOff <==> Serialize(draft)[i].slots == [])
  {
    hide NormalizeSlotTimes;
    forall i | 0 <= i < 7 ensures IsNormal(Serialize(draft)[i].slots) {
      EditorNormalForm(draft[i].slots);
    }
  }

  /**
   After any edits, from an empty week or one the server sent: the saved list is seven days in order, a
   day off exactly when it has no slots, and the server's normaliser leaves it as it is.
   */
  lemma SerializedIsStable(start: Week, es: seq<Edit>)
    requires start == DEFAULT_WEEK || NormalWeek(start)
    requires FromServer(es)
    ensures var saved := Serialize(ApplyAll(start, es));
            && InOrder(saved)
            && (forall i :: 0 <= i < 7 ==> (saved[i].isDayOff <==> saved[i].slots == []))
            && NormalizeWeeklyDays(WeekJson(saved)) == saved
  {
    EditsKeepOrder(start, es);
    SerializedNormal(ApplyAll(start, es));
    WeekRoundTrip(Serialize(ApplyAll(start, es)));
  }

  /** What is saved is what is read back, and the overrides stay. */
  lemma SavedIsReadBack(start: Week, es: seq<Edit>, settings: Json)
    requires start == DEFAULT_WEEK || NormalWeek(start)
    requires FromServer(es)
    ensures var saved := Serialize(ApplyAll(start, es));
            Extract(UpdatedHours(settings, WeekJson(saved))) == Settings(saved, Extract(settings).overrides)
  {
    hide *;
    SerializedIsStable(start, es);
    UpdatedHoursEffect(settings, WeekJson(Serialize(ApplyAll(start, es))), (date: string) => 7, "");
  }

  // ---------------------------------------------------------------------------
  // What the edits do to the saved week
  // ---------------------------------------------------------------------------

  /** An edit changes the saved form of its own day only. */
  lemma OtherDaysKept(draft: Week, e: Edit, i: nat)
    requires InOrder(draft) && !e.Replace? && i < 7 && i != e.day
    ensures Serialize(Apply(draft, e))[i] == Serialize(draft)[i]
  {
    hide NormalizeSlotTimes;
  }

  /** Adding a slot raises the number of saved slots of the day by one, as long as half hours are left. */
  lemma AddSlotAdds(draft: Week, day: nat)
    requires InOrder(draft) && day < 7
    requires |NormalizeSlotTimes(draft[day].slots)| < 48
    ensures var after := Serialize(Apply(draft, AddSlot(day)))[day];
            !after.isDayOff && |after.slots| == |NormalizeSlotTimes(draft[day].slots)| + 1
  {
    hide NormalizeSlotTimes, Next;
    NextRaisesCount(draft[day].slots, 30);
  }

  // Some text of the day other than the one at `index` reads as this time.
  ghost predicate Elsewhere(slots: seq<string>, index: int, t: string) {
    exists j :: 0 <= j < |slots| && j != index && Trim(slots[j]) == t
  }

  /** Removing a slot of an open day keeps exactly the valid times of its other texts. */
  lemma RemoveSlotSaves(draft: Week, day: nat, index: nat, t: string)
    requires InOrder(draft) && day < 7 && !draft[day].isDayOff && index < |draft[day].slots|
    ensures var after := Serialize(Apply(draft, RemoveSlot(day, index)))[day];
            t in after.slots <==> IsSlotTime(t) && Elsewhere(draft[day].slots, index, t)
  {
    hide NormalizeSlotTimes, Trim, IsSlotTime, IsNormal, Elsewhere;
    var left := draft[day].slots[..index] + draft[day].slots[index + 1..];
    EditorNormalForm(left);
    OthersAre(draft[day].slots, index, left, t);
    assert t in NormalizeSlotTimes(left) <==> IsSlotTime(t) && Elsewhere(draft[day].slots, index, t);
    hide Apply, Serialize;
    EditedDay(draft, RemoveSlot(day, index));
  }

  lemma OthersAre(slots: seq<string>, index: nat, left: seq<string>, t: string)
    requires index < |slots| && left == slots[..index] + slots[index + 1..]
    ensures (exists x :: x in left && Trim(x) == t) <==> Elsewhere(slots, index, t)
  {
    hide Trim;
    if x :| x in left && Trim(x) == t {
      var j :| 0 <= j < |left| && left[j] == x;
      assert Trim(slots[if j < index then j else j + 1]) == t;
    }
    if j :| 0 <= j < |slots| && j != index && Trim(slots[j]) == t {
      assert slots[j] == left[if j < index then j else j - 1];
    }
  }

  /** Typing over a slot of an open day keeps the valid times of its other texts and the new one, if valid. */
  lemma ChangeSlotSaves(draft: Week, day: nat, index: nat, value: string, t: string)
    requires InOrder(draft) && day < 7 && !draft[day].isDayOff && index < |draft[day].slots|
    ensures var after := Serialize(Apply(draft, ChangeSlot(day, index, value)))[day];
            t in after.slots <==> IsSlotTime(t) && (Trim(value) == t || Elsewhere(draft[day].slots, index, t))
  {
    hide NormalizeSlotTimes, Trim, IsSlotTime, IsNormal;
    var slots := draft[day].slots;
    var changed := slots[index := value];
    EditorNormalForm(changed);
    EditedDay(draft, ChangeSlot(day, index, value));
    if x :| x in changed && Trim(x) == t {
      var j :| 0 <= j < |changed| && changed[j] == x;
      assert j != index ==> slots[j] == x;
    }
    if j :| 0 <= j < |slots| && j != index && Trim(slots[j]) == t {
      assert changed[j] == slots[j];
    }
    assert changed[index] == value;
  }

  lemma EditedDay(draft: Week, e: Edit)
    requires InOrder(draft) && (e.RemoveSlot? || e.ChangeSlot?) && e.day < 7
    ensures Apply(draft, e)[e.day] ==
            if e.RemoveSlot? then WithoutSlot(draft[e.day], e.index) else Changed(draft[e.day], e.index, e.value)
  {
    hide UpdateDay;
  }

  /** Copying from an open day makes the two days equal; copying from a closed one changes nothing. */
  lemma CopyMakesEqual(draft: Week, day: nat)
    requires InOrder(draft) && 0 < day < 7
    ensures var open := !draft[day - 1].isDayOff && draft[day - 1].slots != [];
            var before, after := Serialize(draft), Serialize(Apply(draft, CopyPrevious(day)));
            after[day] == if open then before[day - 1].(dayOfWeek := day) else before[day]
  {
    hide NormalizeSlotTimes, Serialize, Apply;
    CopiedDay(draft, day);
  }

  lemma CopiedDay(draft: Week, day: nat)
    requires InOrder(draft) && 0 < day < 7
    ensures var after := Apply(draft, CopyPrevious(day));
            var source := draft[day - 1];
            && |after| == 7
            && after[day] == if source.isDayOff || source.slots == [] then draft[day]
                             else draft[day].(isDayOff := false, slots := source.slots)
  {
    hide Find, UpdateDay;
    FindInOrder(draft, day - 1);
  }

  lemma FindInOrder(draft: Week, day: nat)
    requires InOrder(draft) && day < 7
    ensures Find(draft, day) == day
  {
    hide Find;
    var i := Find(draft, day);
    assert draft[day].dayOfWeek == day;
    assert i < |draft| ==> draft[i].dayOfWeek == i;
  }

  lemma ToggledDay(draft: Week, day: nat)
    requires InOrder(draft) && day < 7
    ensures InOrder(Apply(draft, Toggle(day))) && Apply(draft, Toggle(day))[day] == Toggled(draft[day])
  {
    hide UpdateDay;
  }

  /** Closing a day and opening it again leaves a single slot at nine. */
  lemma ToggleTwice(draft: Week, day: nat)
    requires InOrder(draft) && day < 7 && !draft[day].isDayOff
    ensures Serialize(Apply(Apply(draft, Toggle(day)), Toggle(day)))[day] == DayConfig(day, false, ["09:00"])
    ensures Serialize(Apply(draft, Toggle(day)))[day] == Closed(day)
  {
    hide NormalizeSlotTimes, Serialize, Apply;
    ToggledDay(draft, day);
    ToggledDay(Apply(draft, Toggle(day)), day);
    NineIsNormal();
  }

  lemma NineIsNormal()
    ensures NormalizeSlotTimes(["09:00"]) == ["09:00"]
  {
    EditorNormalForm(["09:00"]);
    TrimKeepsTimes("09:00");
    assert Trimmed(["09:00"]) == ["09:00"];
    NormalSlotsFixed(["09:00"]);
  }
}
