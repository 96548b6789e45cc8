/** The slot lists shown to clients: the booking service's sweep, the rebooking service's plain test. */
module Availability {
  import opened Wrappers
  import opened Sorting
  import opened SlotTimes
  import opened Tables
  import opened Zones
  import opened Bookings

  // ---------------------------------------------------------------------------
  // The sweep
  // ---------------------------------------------------------------------------

  datatype Interval = Interval(start: int, end: int)

  predicate Meets(b: Booking, start: int, end: int) {
    b.start < end && start < b.end
  }

  ghost predicate SomeMeets(bs: seq<Booking>, start: int, end: int) {
    exists b :: b in bs && Meets(b, start, end)
  }

  ghost predicate ByStart(bs: seq<Booking>) {
    forall i, j :: 0 <= i < j < |bs| ==> bs[i].start <= bs[j].start
  }

  // The interval the sweep carries on, once a booking has been taken in.
  function Absorb(active: Option<Interval>, b: Booking): Interval {
    if active.Some? && b.start <= active.value.end
    then Interval(active.value.start, if active.value.end < b.end then b.end else active.value.end)
    else Interval(b.start, b.end)
  }

  // The sweep over the remaining bookings.
  function Sweep(bs: seq<Booking>, active: Option<Interval>, start: int, end: int): bool {
    if bs == [] then false
    else if bs[0].end <= start then Sweep(bs[1..], active, start, end)
    else
      var next := Absorb(active, bs[0]);
      if next.start < end && start < next.end then true
      else if end <= next.start then false
      else Sweep(bs[1..], Some(next), start, end)
  }

  /** Over a list sorted by start the sweep finds a clash exactly when there is one. */
  lemma {:induction false} SweepIsOverlapTest(bs: seq<Booking>, start: int, end: int)
    requires ByStart(bs)
    ensures Sweep(bs, None, start, end) <==> SomeMeets(bs, start, end)
  {
    if bs != [] {
      assert bs[0] in bs && bs == [bs[0]] + bs[1..];
      if bs[0].end <= start {
        SweepIsOverlapTest(bs[1..], start, end);
      } else if bs[0].start >= end {
        forall b | b in bs ensures !Meets(b, start, end) {
          var i :| 0 <= i < |bs| && bs[i] == b;
        }
      } else {
        assert Meets(bs[0], start, end);
      }
    }
  }

  // Somewhere in the sweep a booking is joined to an interval already carried.
  predicate Merges(bs: seq<Booking>, active: Option<Interval>, start: int, end: int) {
    bs != [] &&
    if bs[0].end <= start then Merges(bs[1..], active, start, end)
    else
      var next := Absorb(active, bs[0]);
      || (active.Some? && bs[0].start <= active.value.end)
      || (!(next.start < end && start < next.end) && next.start < end && Merges(bs[1..], Some(next), start, end))
  }

  /** The branch that joins intervals never runs, whatever the list. */
  lemma {:induction false} SweepNeverMerges(bs: seq<Booking>, start: int, end: int)
    ensures !Merges(bs, None, start, end)
  {
    if bs != [] {
      SweepNeverMerges(bs[1..], start, end);
    }
  }

  method HasOverlappingInterval(start: int, end: int, bookings: seq<Booking>) returns (r: bool)
    requires ByStart(bookings)
    ensures r <==> SomeMeets(bookings, start, end)
  {
    SweepIsOverlapTest(bookings, start, end);
    var active: Option<Interval> := None;
    var i := 0;
    assert bookings[0..] == bookings;
    while i < |bookings|
      invariant 0 <= i <= |bookings|
      invariant Sweep(bookings, None, start, end) == Sweep(bookings[i..], active, start, end)
    {
      var b := bookings[i];
      assert bookings[i..][1..] == bookings[i + 1..];
      i := i + 1;
      if b.end <= start {
        continue;
      }
      if active.None? {
        active := Some(Interval(b.start, b.end));
      } else if b.start <= active.value.end {
        active := Some(Interval(active.value.start, if active.value.end < b.end then b.end else active.value.end));
      } else {
        active := Some(Interval(b.start, b.end));
      }
      if active.value.start < end && start < active.value.end {
        return true;
      }
      if end <= active.value.start {
        return false;
      }
    }
    r := false;
  }

  // ---------------------------------------------------------------------------
  // The slot lists
  // ---------------------------------------------------------------------------

  datatype Slot = Slot(startTime: string, endTime: string, available: bool)

  // The bookings both services fetch for a date, in some order.
  ghost predicate ListsDay(bs: seq<Booking>, table: Table, z: Zone, day: int) {
    forall b :: b in bs <==> exists id :: id in table && table[id] == b && b.Active() && InDay(z, day, b.start)
  }

  function SlotList(z: Zone, now: int, day: int, duration: nat, slots: seq<string>, bs: seq<Booking>): seq<Slot>
    requires forall t :: t in slots ==> IsSlotTime(t)
  {
    if slots == [] then []
    else
      var start := Build(z, day, Minutes(slots[0]));
      var rest := SlotList(z, now, day, duration, slots[1..], bs);
      if start <= now then rest
      else [Slot(slots[0], FormatTime(z, End(start, duration)), !Sweep(bs, None, start, End(start, duration)))] + rest
  }

  datatype FreeSlot = FreeSlot(startTime: string, endTime: string)

  ghost function FreeSlots(z: Zone, now: int, day: int, duration: nat, slots: seq<string>, bs: seq<Booking>): seq<FreeSlot>
    requires forall t :: t in slots ==> IsSlotTime(t)
  {
    if slots == [] then []
    else
      var start := Build(z, day, Minutes(slots[0]));
      var rest := FreeSlots(z, now, day, duration, slots[1..], bs);
      if start <= now || SomeMeets(bs, start, End(start, duration)) then rest
      else [FreeSlot(slots[0], FormatTime(z, End(start, duration)))] + rest
  }

  function OnlyAvailable(slots: seq<Slot>): seq<FreeSlot> {
    if slots == [] then []
    else if slots[0].available then [FreeSlot(slots[0].startTime, slots[0].endTime)] + OnlyAvailable(slots[1..])
    else OnlyAvailable(slots[1..])
  }

  /** The available part of the booking service's list is the rebooking service's list, in order. */
  lemma {:induction false} SlotListsAgree(z: Zone, now: int, day: int, duration: nat, slots: seq<string>, table: Table,
                                          sorted: seq<Booking>, unsorted: seq<Booking>)
    requires forall t :: t in slots ==> IsSlotTime(t)
    requires ByStart(sorted) && ListsDay(sorted, table, z, day) && ListsDay(unsorted, table, z, day)
    ensures OnlyAvailable(SlotList(z, now, day, duration, slots, sorted)) == FreeSlots(z, now, day, duration, slots, unsorted)
  {
    if slots != [] {
      var start := Build(z, day, Minutes(slots[0]));
      SlotListsAgree(z, now, day, duration, slots[1..], table, sorted, unsorted);
      SweepIsOverlapTest(sorted, start, End(start, duration));
      SameMembersSameTest(sorted, unsorted, start, End(start, duration));
      var rest := SlotList(z, now, day, duration, slots[1..], sorted);
      var first := Slot(slots[0], FormatTime(z, End(start, duration)), !Sweep(sorted, None, start, End(start, duration)));
      assert ([first] + rest)[1..] == rest;
    }
  }

  lemma SameMembersSameTest(bs: seq<Booking>, cs: seq<Booking>, start: int, end: int)
    requires forall b :: b in bs <==> b in cs
    ensures SomeMeets(bs, start, end) <==> SomeMeets(cs, start, end)
  {}

  /**
   What the list holds: every slot of the date still to come, with the local time its service ends, available
   if and only if every booking of the date ends by its start or starts from its end on.
   */
  lemma {:induction false} SlotListExact(z: Zone, now: int, day: int, duration: nat, slots: seq<string>, bs: seq<Booking>, slot: Slot)
    requires (forall t :: t in slots ==> IsSlotTime(t)) && ByStart(bs)
    ensures slot in SlotList(z, now, day, duration, slots, bs) <==>
            && slot.startTime in slots
            && var start := Build(z, day, Minutes(slot.startTime));
               && now < start && slot.endTime == FormatTime(z, start + duration * 60_000)
               && (slot.available <==> forall b :: b in bs ==> b.end <= start || start + duration * 60_000 <= b.start)
  {
    hide Build, FormatTime, Minutes, IsSlotTime, ByStart;
    if slots != [] {
      SlotListExact(z, now, day, duration, slots[1..], bs, slot);
      var start := Build(z, day, Minutes(slots[0]));
      SweepIsOverlapTest(bs, start, End(start, duration));
      assert slots == [slots[0]] + slots[1..];
    }
  }

  function StartTimes(list: seq<Slot>): seq<string> {
    if list == [] then [] else [list[0].startTime] + StartTimes(list[1..])
  }

  /** They come in the order of the date's slots, none left out. */
  lemma {:induction false} SlotListOrder(z: Zone, now: int, day: int, duration: nat, slots: seq<string>, bs: seq<Booking>)
    requires forall t :: t in slots ==> IsSlotTime(t)
    ensures StartTimes(SlotList(z, now, day, duration, slots, bs)) ==
            Filter((t: string) => IsSlotTime(t) && now < Build(z, day, Minutes(t)), slots)
  {
    hide Build, FormatTime, Minutes, IsSlotTime, Sweep;
    if slots != [] {
      SlotListOrder(z, now, day, duration, slots[1..], bs);
      var start := Build(z, day, Minutes(slots[0]));
      var rest := SlotList(z, now, day, duration, slots[1..], bs);
      assert ([Slot(slots[0], FormatTime(z, End(start, duration)), !Sweep(bs, None, start, End(start, duration)))] + rest)[1..] == rest;
    }
  }

  // ---------------------------------------------------------------------------
  // The slot list and booking creation
  // ---------------------------------------------------------------------------

  // An active booking that starts outside the date's window reaches into the interval.
  ghost predicate TakenFromOutside(table: Table, z: Zone, day: int, start: int, end: int) {
    exists id :: id in table && table[id].Active() && !InDay(z, day, table[id].start) && Meets(table[id], start, end)
  }

  lemma {:induction false} ListedSlot(z: Zone, now: int, day: int, duration: nat, slots: seq<string>, bs: seq<Booking>, slot: Slot)
    requires forall t :: t in slots ==> IsSlotTime(t)
    requires slot in SlotList(z, now, day, duration, slots, bs)
    ensures slot.startTime in slots
    ensures var start := Build(z, day, Minutes(slot.startTime));
            now < start && slot.available == !Sweep(bs, None, start, End(start, duration))
  {
    var start := Build(z, day, Minutes(slots[0]));
    var first := Slot(slots[0], FormatTime(z, End(start, duration)), !Sweep(bs, None, start, End(start, duration)));
    if start <= now || slot != first {
      ListedSlot(z, now, day, duration, slots[1..], bs, slot);
    }
  }

  lemma {:induction false} UnlistedSlot(z: Zone, now: int, day: int, duration: nat, slots: seq<string>, bs: seq<Booking>, t: string)
    requires forall t :: t in slots ==> IsSlotTime(t)
    requires t in slots && forall slot :: slot in SlotList(z, now, day, duration, slots, bs) ==> slot.startTime != t
    ensures Build(z, day, Minutes(t)) <= now
  {
    if t != slots[0] {
      UnlistedSlot(z, now, day, duration, slots[1..], bs, t);
    } else {
      var rest := SlotList(z, now, day, duration, slots[1..], bs);
      var start := Build(z, day, Minutes(t));
      if now < start {
        var first := Slot(t, FormatTime(z, End(start, duration)), !Sweep(bs, None, start, End(start, duration)));
        assert first in [first] + rest;
      }
    }
  }

  // A request for a time of day by a client who may book a service that is offered.
  ghost predicate EligibleAt(ctx: Context, r: NewBooking, day: int, t: string)
  {
    && r.clientId.Some? && r.clientId.value in ctx.blocked && !ctx.blocked[r.clientId.value]
    && ServiceActive(ctx, r.serviceId) && IsSlotTime(t)
    && r.start == Some(Build(ctx.zone, day, Minutes(t)))
  }

  lemma ScreenAt(ctx: Context, now: int, r: NewBooking, day: int, t: string)
    requires EligibleAt(ctx, r, day, t) && Regular(ctx.zone, day)
    ensures Screen(ctx, now, r) == if r.start.value <= now || t !in ctx.slotsFor(day) then BadRequest else Done
  {
    RegularBuild(ctx.zone, day, Minutes(t));
    TextOfMinutes(t);
  }

  /**
   What the list promises and creation does, for every time of a regular day: a time not listed is
   refused as a bad request; a listed one is a conflict when marked unavailable, and when marked
   available it is accepted exactly if no booking from outside the day's window reaches into it.
   */
  lemma SlotListMatchesCreate(s: State, ctx: Context, r: NewBooking, day: int, t: string, bs: seq<Booking>)
    requires EligibleAt(ctx, r, day, t) && Regular(ctx.zone, day)
    requires forall x :: x in ctx.slotsFor(day) ==> IsSlotTime(x)
    requires ByStart(bs) && ListsDay(bs, s.table, ctx.zone, day)
    ensures var duration := ctx.services[r.serviceId].duration;
            var list := SlotList(ctx.zone, s.now, day, duration, ctx.slotsFor(day), bs);
            && ((forall slot :: slot in list ==> slot.startTime != t) ==> CreateAnswer(s, ctx, r) == BadRequest)
            && (forall slot :: slot in list && slot.startTime == t ==>
                  CreateAnswer(s, ctx, r) ==
                    if !slot.available || TakenFromOutside(s.table, ctx.zone, day, r.start.value, End(r.start.value, duration))
                    then Conflict else Done)
  {
    var duration := ctx.services[r.serviceId].duration;
    var slots := ctx.slotsFor(day);
    var list := SlotList(ctx.zone, s.now, day, duration, slots, bs);
    ScreenAt(ctx, s.now, r, day, t);
    if (forall slot :: slot in list ==> slot.startTime != t) && t in slots {
      UnlistedSlot(ctx.zone, s.now, day, duration, slots, bs, t);
    }
    forall slot | slot in list && slot.startTime == t
      ensures CreateAnswer(s, ctx, r) ==
              if !slot.available || TakenFromOutside(s.table, ctx.zone, day, r.start.value, End(r.start.value, duration))
              then Conflict else Done
    {
      ListedSlot(ctx.zone, s.now, day, duration, slots, bs, slot);
      SweepIsOverlapTest(bs, r.start.value, End(r.start.value, duration));
      TakenSplits(s.table, ctx.zone, day, bs, r.start.value, End(r.start.value, duration));
    }
  }

  lemma TakenSplits(table: Table, z: Zone, day: int, bs: seq<Booking>, start: int, end: int)
    requires ListsDay(bs, table, z, day)
    ensures Taken(table, None, start, end) <==> SomeMeets(bs, start, end) || TakenFromOutside(table, z, day, start, end)
  {
    if id :| id in table && table[id].Active() && table[id].start < end && start < table[id].end {
      assert InDay(z, day, table[id].start) ==> table[id] in bs && Meets(table[id], start, end);
    }
    if b :| b in bs && Meets(b, start, end) {
      var id :| id in table && table[id] == b && b.Active() && InDay(z, day, b.start);
      assert table[id].start < end && start < table[id].end;
    }
  }
}
