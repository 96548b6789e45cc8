/** The runs of free slots of several dates, as gaps with a start, an end and a count. */
module EmptySlots {
  import opened Sorting
  import opened SlotTimes
  import opened Rebooking

  datatype BookedAt = BookedAt(date: string, time: string)

  datatype Gap = Gap(date: string, startTime: string, endTime: string, freeSlotCount: nat, isMorning: bool)

  function Slots(slotTimes: map<string, seq<string>>, date: string): seq<string> {
    if date in slotTimes then slotTimes[date] else []
  }

  predicate Free(slotTimes: map<string, seq<string>>, bookings: seq<BookedAt>, date: string, t: string) {
    t in Slots(slotTimes, date) && BookedAt(date, t) !in bookings
  }

  /** The slots a gap stands for. */
  predicate Within(gap: Gap, t: string) {
    && IsSlotTime(gap.startTime) && IsSlotTime(t)
    && Minutes(gap.startTime) <= Minutes(t) < Minutes(gap.startTime) + STEP * gap.freeSlotCount
    && (Minutes(t) - Minutes(gap.startTime)) % STEP == 0
  }

  ghost predicate WellFormed(gap: Gap) {
    && IsSlotTime(gap.startTime) && gap.freeSlotCount > 0
    && Minutes(gap.startTime) + STEP * gap.freeSlotCount < 6000
    && gap.endTime == TimeText(Minutes(gap.startTime) + STEP * gap.freeSlotCount)
    && (gap.isMorning <==> Minutes(gap.startTime) < 720)
  }

  /** In half hours and noon: what a well-formed gap says, and the times it stands for. */
  lemma GapInHalfHours(gap: Gap, t: string)
    requires WellFormed(gap)
    ensures gap.endTime == TimeText(Minutes(gap.startTime) + 30 * gap.freeSlotCount)
    ensures gap.isMorning <==> TextLess(gap.startTime, "12:00")
    ensures Within(gap, t) <==>
            IsSlotTime(t) && exists k: nat :: k < gap.freeSlotCount && Minutes(t) == Minutes(gap.startTime) + 30 * k
  {
    hide TimeText, TextLess, Minutes, IsSlotTime;
    assert IsSlotTime("12:00") && Minutes("12:00") == 720 by { Noon(); }
    TextOrderIsClockOrder(gap.startTime, "12:00");
    if Within(gap, t) {
      var k: nat := (Minutes(t) - Minutes(gap.startTime)) / 30;
      assert Minutes(t) == Minutes(gap.startTime) + 30 * k;
    }
  }

  lemma Noon()
    ensures IsSlotTime("12:00") && Minutes("12:00") == 720
  {}

  // The gaps of one date say exactly which of its slots are free.
  ghost predicate Describes(gaps: seq<Gap>, slotTimes: map<string, seq<string>>, bookings: seq<BookedAt>, date: string) {
    forall t :: Free(slotTimes, bookings, date, t) <==> exists gap :: gap in gaps && gap.date == date && Within(gap, t)
  }

  function GapOf(date: string, g: Group): Gap
    requires g != [] && Valid(g)
  {
    Gap(date, g[0], EndTime(g), |g|, Minutes(g[0]) / 60 < 12)
  }

  lemma InGroup(g: Group, date: string, t: string)
    requires g != [] && Unbroken(g)
    ensures WellFormed(GapOf(date, g))
    ensures Within(GapOf(date, g), t) <==> t in g
  {
    hide IsSlotTime, Minutes, TimeText;
    EndOfRun(g);
    var gap := GapOf(date, g);
    if Within(gap, t) {
      var k := (Minutes(t) - Minutes(g[0])) / STEP;
      InsideRun(g, k);
      MinutesInjective(t, g[k]);
    }
    if t in g {
      var k: nat :| k < |g| && g[k] == t;
      InsideRun(g, k);
    }
  }

  lemma {:induction false} InSomeGroup(groups: seq<Group>, t: string)
    ensures t in Joined(groups) <==> exists i :: 0 <= i < |groups| && t in groups[i]
  {
    if groups != [] {
      var n := |groups| - 1;
      InSomeGroup(groups[..n], t);
      if i :| 0 <= i < n && t in groups[..n][i] {
        assert t in groups[i];
      }
      if i :| 0 <= i < |groups| && t in groups[i] {
        if i < n {
          assert groups[..n][i] == groups[i];
        }
      }
    }
  }

  function FreeOf(slots: seq<string>, busy: set<string>): seq<string> {
    Filter((t: string) => t !in busy, slots)
  }

  lemma FreeOfMembers(slots: seq<string>, busy: set<string>)
    ensures forall t :: t in FreeOf(slots, busy) <==> t in slots && t !in busy
  {
    forall t ensures t in FreeOf(slots, busy) <==> t in slots && t !in busy {
      FilterMembers((t: string) => t !in busy, slots, t);
    }
  }

  function FreeCount(gaps: seq<Gap>): nat {
    if gaps == [] then 0 else FreeCount(gaps[..|gaps| - 1]) + gaps[|gaps| - 1].freeSlotCount
  }

  // ---------------------------------------------------------------------------
  // The gaps of one date
  // ---------------------------------------------------------------------------

  function GapList(date: string, groups: seq<Group>): (gaps: seq<Gap>)
    requires MaximalRuns(groups)
    ensures |gaps| == |groups|
    ensures forall k :: 0 <= k < |gaps| ==> groups[k] != [] && Valid(groups[k]) && gaps[k] == GapOf(date, groups[k])
  {
    seq(|groups|, k requires 0 <= k < |groups| => GapOf(date, groups[k]))
  }

  /** One gap for each maximal run of the date's free slots, in order. */
  ghost function DayGaps(date: string, slots: seq<string>, busy: set<string>): seq<Gap>
    requires Valid(slots)
  {
    FreeRuns(slots, busy);
    GapList(date, Grouped(Sort(NotLater, FreeOf(slots, busy))))
  }

  lemma FreeRuns(slots: seq<string>, busy: set<string>)
    requires Valid(slots)
    ensures Valid(FreeOf(slots, busy))
    ensures var sorted := Sort(NotLater, FreeOf(slots, busy));
            && MaximalRuns(Grouped(sorted)) && Joined(Grouped(sorted)) == sorted && Ordered(NotLater, sorted)
  {
    hide IsSlotTime, MaximalRuns, FreeOf, Joined, Grouped;
    var free := FreeOf(slots, busy);
    FreeOfMembers(slots, busy);
    forall i | 0 <= i < |free| ensures IsSlotTime(free[i]) {
      assert free[i] in slots;
    }
    SortedValid(free);
    GroupedRuns(Sort(NotLater, free));
  }

  /** The gaps of a date are well-formed and stand for exactly its free slots; their counts add up to them. */
  lemma DayGapsDescribe(date: string, slots: seq<string>, busy: set<string>)
    requires Valid(slots)
    ensures forall gap :: gap in DayGaps(date, slots, busy) ==> gap.date == date && WellFormed(gap)
    ensures forall t :: (t in slots && t !in busy) <==> exists gap :: gap in DayGaps(date, slots, busy) && Within(gap, t)
    ensures FreeCount(DayGaps(date, slots, busy)) == |FreeOf(slots, busy)|
  {
    hide IsSlotTime, Minutes, Within, WellFormed, Adjacent, Sort, MaximalRuns, FreeOf, Joined, Grouped, GapList;
    var free := FreeOf(slots, busy);
    var groups := Grouped(Sort(NotLater, free));
    FreeRuns(slots, busy);
    FreeOfMembers(slots, busy);
    GapsStandFor(date, groups);
    GapCounts(date, groups);
    CountsAddUp(groups);
    SortMembers(NotLater, free, "");
    forall t ensures t in free <==> exists gap :: gap in GapList(date, groups) && Within(gap, t) {
      SortMembers(NotLater, free, t);
    }
  }

  lemma GapsStandFor(date: string, groups: seq<Group>)
    requires MaximalRuns(groups)
    ensures forall gap :: gap in GapList(date, groups) ==> gap.date == date && WellFormed(gap)
    ensures forall t :: t in Joined(groups) <==> exists gap :: gap in GapList(date, groups) && Within(gap, t)
  {
    hide IsSlotTime, Minutes, Within, WellFormed, Adjacent, GapList, Joined, GapOf;
    var gaps := GapList(date, groups);
    forall k | 0 <= k < |gaps| ensures gaps[k].date == date && WellFormed(gaps[k]) {
      GroupGap(groups[k], date, "");
    }
    forall t ensures t in Joined(groups) <==> exists gap :: gap in gaps && Within(gap, t) {
      GapHolds(date, groups, gaps, t);
    }
  }

  lemma GroupGap(g: Group, date: string, t: string)
    requires g != [] && Unbroken(g)
    ensures GapOf(date, g).date == date && WellFormed(GapOf(date, g)) && (Within(GapOf(date, g), t) <==> t in g)
  {
    hide IsSlotTime, Minutes, Within, WellFormed, Adjacent;
    InGroup(g, date, t);
  }

  lemma GapHolds(date: string, groups: seq<Group>, gaps: seq<Gap>, t: string)
    requires MaximalRuns(groups) && gaps == GapList(date, groups)
    ensures t in Joined(groups) <==> exists gap :: gap in gaps && Within(gap, t)
  {
    hide IsSlotTime, Minutes, Within, WellFormed, Adjacent, GapList, Joined, GapOf, Unbroken;
    InSomeGroup(groups, t);
    if i :| 0 <= i < |groups| && t in groups[i] {
      GroupGap(groups[i], date, t);
      assert gaps[i] in gaps;
    }
    if gap :| gap in gaps && Within(gap, t) {
      var k :| 0 <= k < |gaps| && gaps[k] == gap;
      GroupGap(groups[k], date, t);
    }
  }

  lemma {:induction false} GapCounts(date: string, groups: seq<Group>)
    requires MaximalRuns(groups)
    ensures FreeCount(GapList(date, groups)) == TotalSlots(groups)
    decreases |groups|
  {
    hide IsSlotTime, Minutes, Adjacent, TimeText, Valid;
    if groups != [] {
      var n := |groups| - 1;
      assert MaximalRuns(groups[..n]);
      GapCounts(date, groups[..n]);
      assert GapList(date, groups)[..n] == GapList(date, groups[..n]);
    }
  }

  /** The gaps of a date come in order, and no gap goes on where the one before it ends. */
  lemma DayGapsOrdered(date: string, slots: seq<string>, busy: set<string>, i: nat)
    requires Valid(slots) && i + 1 < |DayGaps(date, slots, busy)|
    ensures var gap, next := DayGaps(date, slots, busy)[i], DayGaps(date, slots, busy)[i + 1];
            && IsSlotTime(gap.startTime) && IsSlotTime(next.startTime) && gap.freeSlotCount > 0
            && Minutes(gap.startTime) + STEP * (gap.freeSlotCount - 1) <= Minutes(next.startTime)
            && Minutes(gap.startTime) + STEP * gap.freeSlotCount != Minutes(next.startTime)
  {
    hide IsSlotTime, Minutes, FreeOf, Sort, Joined, Grouped, TimeText;
    var groups := Grouped(Sort(NotLater, FreeOf(slots, busy)));
    FreeRuns(slots, busy);
    RunsInOrder(groups, i);
    InsideRun(groups[i], |groups[i]| - 1);
    assert !Adjacent(groups[i][|groups[i]| - 1], groups[i + 1][0]);
  }

  method GapsOfDate(date: string, slots: seq<string>, busy: set<string>) returns (gaps: seq<Gap>)
    requires Valid(slots)
    ensures gaps == DayGaps(date, slots, busy)
    ensures forall gap :: gap in gaps ==> gap.date == date && WellFormed(gap)
    ensures forall t :: (t in slots && t !in busy) <==> exists gap :: gap in gaps && Within(gap, t)
    ensures FreeCount(gaps) == |FreeOf(slots, busy)|
  {
    hide IsSlotTime, Minutes, TimeText, Adjacent, Within, WellFormed, FreeOf, Sort, Joined, Grouped, FreeCount;
    var freeSlots := FreeOf(slots, busy);
    FreeRuns(slots, busy);
    var grouped := GroupAdjacentSlots(freeSlots);
    gaps := [];
    for i := 0 to |grouped|
      invariant gaps == GapList(date, grouped)[..i]
    {
      var group := grouped[i];
      assert GapList(date, grouped)[i] == GapOf(date, group);
      gaps := gaps + [Gap(date, group[0], EndTime(group), |group|, Minutes(group[0]) / 60 < 12)];
    }
    DayGapsDescribe(date, slots, busy);
  }

  // ---------------------------------------------------------------------------
  // All dates
  // ---------------------------------------------------------------------------

  method BookedByDate(bookings: seq<BookedAt>) returns (byDate: map<string, set<string>>)
    ensures forall d, t :: (d in byDate && t in byDate[d]) <==> BookedAt(d, t) in bookings
  {
    byDate := map[];
    for i := 0 to |bookings|
      invariant forall d, t :: (d in byDate && t in byDate[d]) <==> BookedAt(d, t) in bookings[..i]
    {
      var b := bookings[i];
      var list := if b.date in byDate then byDate[b.date] else {};
      byDate := byDate[b.date := list + {b.time}];
      assert bookings[..i + 1] == bookings[..i] + [b];
    }
    assert bookings[..|bookings|] == bookings;
  }

  ghost function BusyOn(bookings: seq<BookedAt>, date: string): set<string> {
    set b | b in bookings && b.date == date :: b.time
  }

  ghost predicate ValidDays(slotTimes: map<string, seq<string>>) {
    forall d :: d in slotTimes ==> Valid(slotTimes[d])
  }

  /** The gaps of all dates, date after date as asked. */
  ghost function AllGaps(dates: seq<string>, slotTimes: map<string, seq<string>>, bookings: seq<BookedAt>): seq<Gap>
    requires ValidDays(slotTimes)
  {
    if dates == [] then []
    else
      var date := dates[|dates| - 1];
      AllGaps(dates[..|dates| - 1], slotTimes, bookings) + DayGaps(date, Slots(slotTimes, date), BusyOn(bookings, date))
  }

  lemma DayDescribes(date: string, slotTimes: map<string, seq<string>>, bookings: seq<BookedAt>)
    requires ValidDays(slotTimes)
    ensures var gaps := DayGaps(date, Slots(slotTimes, date), BusyOn(bookings, date));
            Describes(gaps, slotTimes, bookings, date) && forall gap :: gap in gaps ==> gap.date == date && WellFormed(gap)
  {
    hide DayGaps, Within, WellFormed;
    DayGapsDescribe(date, Slots(slotTimes, date), BusyOn(bookings, date));
  }

  /** Every gap is well-formed, and a slot of a date is free if and only if it lies in one of the date's gaps. */
  lemma {:induction false} AllGapsDescribe(dates: seq<string>, slotTimes: map<string, seq<string>>, bookings: seq<BookedAt>)
    requires ValidDays(slotTimes)
    ensures forall gap :: gap in AllGaps(dates, slotTimes, bookings) ==> gap.date in dates && WellFormed(gap)
    ensures forall d :: d in dates ==> Describes(AllGaps(dates, slotTimes, bookings), slotTimes, bookings, d)
  {
    hide DayGaps, WellFormed, Describes, IsSlotTime;
    if dates != [] {
      var n := |dates| - 1;
      var date := dates[n];
      var before := AllGaps(dates[..n], slotTimes, bookings);
      var gaps := DayGaps(date, Slots(slotTimes, date), BusyOn(bookings, date));
      AllGapsDescribe(dates[..n], slotTimes, bookings);
      DayDescribes(date, slotTimes, bookings);
      assert dates == dates[..n] + [date];
      forall d | d in dates ensures Describes(before + gaps, slotTimes, bookings, d) {
        MoreGaps(before, gaps, slotTimes, bookings, date, d);
      }
    }
  }

  // Gaps of one date do not disturb what is said about another; a date asked for twice is listed twice.
  lemma MoreGaps(result: seq<Gap>, gaps: seq<Gap>, slotTimes: map<string, seq<string>>, bookings: seq<BookedAt>, date: string, d: string)
    requires forall gap :: gap in gaps ==> gap.date == date
    requires Describes(gaps, slotTimes, bookings, date)
    requires d != date ==> Describes(result, slotTimes, bookings, d)
    requires d == date ==> Describes(result, slotTimes, bookings, d) || forall gap :: gap in result ==> gap.date != date
    ensures Describes(result + gaps, slotTimes, bookings, d)
  {
    hide Within, Free;
    forall t ensures Free(slotTimes, bookings, d, t) <==> exists gap :: gap in result + gaps && gap.date == d && Within(gap, t) {
      if gap :| gap in result && gap.date == d && Within(gap, t) {
        assert gap in result + gaps;
      }
      if gap :| gap in gaps && gap.date == d && Within(gap, t) {
        assert gap in result + gaps;
      }
    }
  }

  /** Lists the gaps of all dates. */
  method BuildEmptySlots(dates: seq<string>, slotTimes: map<string, seq<string>>, bookings: seq<BookedAt>) returns (result: seq<Gap>)
    requires ValidDays(slotTimes)
    ensures result == AllGaps(dates, slotTimes, bookings)
    ensures forall gap :: gap in result ==> gap.date in dates && WellFormed(gap)
    ensures forall d :: d in dates ==> Describes(result, slotTimes, bookings, d)
  {
    hide DayGaps, Describes, WellFormed, Within, FreeOf, FreeCount;
    var byDate := BookedByDate(bookings);
    result := [];
    for i := 0 to |dates|
      invariant result == AllGaps(dates[..i], slotTimes, bookings)
    {
      var date := dates[i];
      var busy := if date in byDate then byDate[date] else {};
      assert busy == BusyOn(bookings, date) by {
        forall t ensures t in BusyOn(bookings, date) <==> BookedAt(date, t) in bookings {}
      }
      assert dates[..i + 1][..i] == dates[..i];
      var gaps := GapsOfDate(date, Slots(slotTimes, date), busy);
      result := result + gaps;
    }
    assert dates[..|dates|] == dates;
    AllGapsDescribe(dates, slotTimes, bookings);
  }
}
