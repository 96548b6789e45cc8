/** What each edit of the weekly schedule does to the slots of its day, down to the half hour offered next. */
module EditorEffects {
  import opened SlotTimes
  import opened Schedule
  import opened NextSlot
  import opened Draft

  // Some text of the list reads as this valid time.
  ghost predicate Reads(times: seq<string>, t: string) {
    IsSlotTime(t) && exists x :: x in times && Trim(x) == t
  }

  // The latest valid time of the list.
  ghost predicate Latest(times: seq<string>, last: string) {
    Reads(times, last) && forall t :: Reads(times, t) ==> Minutes(t) <= Minutes(last)
  }

  // `k` steps behind a time, wrapping at midnight.
  function StepsBehind(last: string, step: int, k: nat): string
    requires IsSlotTime(last)
  {
    TimeText((Minutes(last) + step * k) % 1440)
  }

  lemma LatestIsLast(times: seq<string>, last: string)
    requires Latest(times, last)
    ensures var n := NormalizeSlotTimes(times); n != [] && n[|n| - 1] == last
  {
    hide NormalizeSlotTimes, IsSlotTime, Minutes, Trim;
    var n := NormalizeSlotTimes(times);
    EditorNormalForm(times);
    assert last in n;
    var end := n[|n| - 1];
    assert end in n && Reads(times, end);
    MinutesInjective(end, last);
  }

  // The search from the `j`-th candidate on, one attempt.
  lemma OneAttempt(used: set<string>, last: string, step: int, j: nat, n: nat, fallback: string)
    requires IsSlotTime(last) && j <= n
    ensures Search(used, Minutes(last) + step * j, step, n + 1 - j, fallback) ==
            if StepsBehind(last, step, j) !in used then StepsBehind(last, step, j)
            else Search(used, Minutes(last) + step * (j + 1), step, n - j, fallback)
  {
    hide TimeText, IsSlotTime, Minutes;
    assert Minutes(last) + step * j + step == Minutes(last) + step * (j + 1);
  }

  // The first of the candidates not in use.
  lemma {:induction false} SearchIsFirst(used: set<string>, last: string, step: int, j: nat, k: nat, n: nat, fallback: string)
    requires IsSlotTime(last) && 1 <= j <= k <= n
    requires forall i :: j <= i < k ==> StepsBehind(last, step, i) in used
    requires StepsBehind(last, step, k) !in used
    ensures Search(used, Minutes(last) + step * j, step, n + 1 - j, fallback) == StepsBehind(last, step, k)
    decreases k - j
  {
    hide StepsBehind, IsSlotTime, Minutes, Search;
    OneAttempt(used, last, step, j, n, fallback);
    if j < k {
      SearchIsFirst(used, last, step, j + 1, k, n, fallback);
    }
  }

  lemma {:induction false} SearchFails(used: set<string>, last: string, step: int, j: nat, n: nat, fallback: string)
    requires IsSlotTime(last) && 1 <= j <= n + 1
    requires forall i :: j <= i <= n ==> StepsBehind(last, step, i) in used
    ensures Search(used, Minutes(last) + step * j, step, n + 1 - j, fallback) == fallback
    decreases n + 1 - j
  {
    hide StepsBehind, IsSlotTime, Minutes;
    if j <= n {
      hide Search;
      OneAttempt(used, last, step, j, n, fallback);
      SearchFails(used, last, step, j + 1, n, fallback);
    }
  }

  // As many steps as fit in a day; at least one.
  function Tries(step: int): nat {
    if step <= 1 then 1440 else if step > 1440 then 1 else 1440 / step
  }

  /**
   The time offered next is the first free one of the steps behind the latest valid time, tried once round the
   clock; the fallback is offered if the list has no valid time, or if all those are in use.
   */
  lemma NextExact(times: seq<string>, fallback: string, step: int, last: string, k: nat)
    ensures (forall t :: !Reads(times, t)) ==> Next(times, fallback, step) == fallback
    ensures Latest(times, last) && (forall i :: 1 <= i <= Tries(step) ==> Reads(times, StepsBehind(last, step, i))) ==>
              Next(times, fallback, step) == fallback
    ensures Latest(times, last) && 1 <= k <= Tries(step) && !Reads(times, StepsBehind(last, step, k))
            && (forall i :: 1 <= i < k ==> Reads(times, StepsBehind(last, step, i))) ==>
              Next(times, fallback, step) == StepsBehind(last, step, k)
  {
    hide NormalizeSlotTimes, Next, Search, StepsBehind, Reads;
    var n := NormalizeSlotTimes(times);
    NextIsSearch(times, fallback, step);
    InUse(times);
    TriesExact(step);
    if n != [] {
      assert n[|n| - 1] in n;
      assert Reads(times, n[|n| - 1]);
    }
    if Latest(times, last) {
      LatestIsLast(times, last);
      assert Minutes(last) + step == Minutes(last) + step * 1;
      if forall i :: 1 <= i <= Tries(step) ==> Reads(times, StepsBehind(last, step, i)) {
        SearchFails(Used(n), last, step, 1, Tries(step), fallback);
      }
      if 1 <= k <= Tries(step) && !Reads(times, StepsBehind(last, step, k))
         && forall i :: 1 <= i < k ==> Reads(times, StepsBehind(last, step, i)) {
        SearchIsFirst(Used(n), last, step, 1, k, Tries(step), fallback);
      }
    }
  }

  lemma InUse(times: seq<string>)
    ensures forall t :: t in Used(NormalizeSlotTimes(times)) <==> Reads(times, t)
  {
    hide NormalizeSlotTimes, IsSlotTime, Trim;
    EditorNormalForm(times);
  }

  lemma TriesExact(step: int)
    ensures MaxAttempts(step) == Tries(step)
  {}

  // ---------------------------------------------------------------------------
  // The edits
  // ---------------------------------------------------------------------------

  /** A day is saved with its valid times, in clock order, unless it is marked as a day off; without any it is one. */
  lemma SavedExact(draft: Week, day: nat)
    requires day < |draft|
    ensures var saved := Serialize(draft)[day];
            && saved.dayOfWeek == draft[day].dayOfWeek && IsNormal(saved.slots)
            && (forall t :: t in saved.slots <==> !draft[day].isDayOff && Reads(draft[day].slots, t))
            && (saved.isDayOff <==> saved.slots == [])
  {
    hide NormalizeSlotTimes, IsSlotTime, Trim;
    EditorNormalForm(draft[day].slots);
  }

  /** Adding a slot opens the day and adds the half hour behind its latest time, if that is free. */
  lemma AddSlotExact(draft: Week, day: nat, last: string, t: string)
    requires InOrder(draft) && day < 7 && Latest(draft[day].slots, last)
    requires !Reads(draft[day].slots, TimeText((Minutes(last) + 30) % 1440))
    ensures t in Serialize(Apply(draft, AddSlot(day)))[day].slots <==>
            Reads(draft[day].slots, t) || t == TimeText((Minutes(last) + 30) % 1440)
  {
    hide NormalizeSlotTimes, Next, Trim, TimeText, Minutes, IsSlotTime, StepsBehind;
    var slots := draft[day].slots;
    var added := StepsBehind(last, 30, 1);
    HalfHour(last);
    NextExact(slots, "09:00", 30, last, 1);
    AddedIsSaved(draft, day, added, t);
  }

  lemma HalfHour(last: string)
    requires IsSlotTime(last)
    ensures StepsBehind(last, 30, 1) == TimeText((Minutes(last) + 30) % 1440) && IsSlotTime(StepsBehind(last, 30, 1))
  {
    hide TimeText, IsSlotTime;
    TextIsSlotTime((Minutes(last) + 30) % 1440);
  }

  /** On a day without a valid time it adds nine o'clock. */
  lemma AddFirstSlot(draft: Week, day: nat)
    requires InOrder(draft) && day < 7 && forall t :: !Reads(draft[day].slots, t)
    ensures Serialize(Apply(draft, AddSlot(day)))[day] == DayConfig(day, false, ["09:00"])
  {
    hide NormalizeSlotTimes, Next, Trim, TimeText, Minutes, StepsBehind, Reads;
    NextExact(draft[day].slots, "09:00", 30, "09:00", 1);
    var after := Serialize(Apply(draft, AddSlot(day)));
    forall t ensures t in after[day].slots <==> t == "09:00" {
      AddedIsSaved(draft, day, "09:00", t);
    }
    SavedExact(Apply(draft, AddSlot(day)), day);
    NormalUnique(after[day].slots, ["09:00"]);
  }

  lemma AddedIsSaved(draft: Week, day: nat, added: string, t: string)
    requires InOrder(draft) && day < 7 && Next(draft[day].slots, "09:00", 30) == added && IsSlotTime(added)
    ensures t in Serialize(Apply(draft, AddSlot(day)))[day].slots <==> Reads(draft[day].slots, t) || t == added
    ensures !Apply(draft, AddSlot(day))[day].isDayOff
  {
    hide NormalizeSlotTimes, Next, Trim, IsSlotTime, Serialize;
    var slots := draft[day].slots;
    SavedExact(Apply(draft, AddSlot(day)), day);
    TrimKeepsTimes(added);
    if x :| x in slots && Trim(x) == t {
      assert x in slots + [added];
    }
    assert added in slots + [added];
  }

  /** Toggling an open day closes it; toggling a closed one opens it with the texts it has, or with nine o'clock. */
  lemma ToggleExact(draft: Week, day: nat, t: string)
    requires InOrder(draft) && day < 7
    ensures t in Serialize(Apply(draft, Toggle(day)))[day].slots <==>
            draft[day].isDayOff && (Reads(draft[day].slots, t) || (draft[day].slots == [] && t == "09:00"))
  {
    hide NormalizeSlotTimes, Trim, IsSlotTime, Serialize;
    SavedExact(Apply(draft, Toggle(day)), day);
    if draft[day].slots == [] {
      NineReads(t);
    }
  }

  lemma NineReads(t: string)
    ensures Reads(["09:00"], t) <==> t == "09:00"
  {
    TrimKeepsTimes("09:00");
    assert "09:00" in ["09:00"];
  }

  /** Removing the only text closes the day; removing one of several opens it. An index outside changes no text. */
  lemma RemoveSlotExact(draft: Week, day: nat, index: int)
    requires InOrder(draft) && day < 7
    ensures var was, now := draft[day], Apply(draft, RemoveSlot(day, index))[day];
            && (0 <= index < |was.slots| ==> now.slots == was.slots[..index] + was.slots[index + 1..])
            && (!(0 <= index < |was.slots|) ==> now.slots == was.slots)
            && (now.isDayOff <==> now.slots == []) && now.dayOfWeek == day
  {}

  /** Typing over a text changes nothing else, not even whether the day is off. */
  lemma ChangeSlotExact(draft: Week, day: nat, index: int, value: string)
    requires InOrder(draft) && day < 7
    ensures var was, now := draft[day], Apply(draft, ChangeSlot(day, index, value))[day];
            && |now.slots| == |was.slots| && now.isDayOff == was.isDayOff && now.dayOfWeek == day
            && forall i :: 0 <= i < |was.slots| ==> now.slots[i] == if i == index then value else was.slots[i]
  {}
}
