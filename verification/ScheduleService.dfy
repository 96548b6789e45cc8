/** The schedule service: it rewrites a tenant's settings and, for a single date, its bookings. */
module ScheduleService {
  import opened Durations
  import opened Wrappers
  import opened SlotTimes
  import opened Tables
  import opened Moves
  import opened Zones
  import opened Schedule
  import opened ScheduleProofs
  import opened DateOverride

  class ScheduleService {
    var settings: Json
    var bookings: Table
    const zone: Zone

    constructor (settings: Json, bookings: Table, zone: Zone)
      ensures this.settings == settings && this.bookings == bookings && this.zone == zone
    {
      this.settings, this.bookings, this.zone := settings, bookings, zone;
    }

    /** Starts from seven days off and overwrites a day for each raw entry that names one. */
    static method NormalizeDays(raw: Json) returns (week: seq<DayConfig>)
      ensures week == NormalizeWeeklyDays(raw)
    {
      var days := new DayConfig[7](d => Closed(d));
      assert days[..] == DEFAULT_WEEK;
      hide NormalizeSlots, DayOf, Closed, Truthy, AsRecord, Field;
      if !raw.Arr? {
        return days[..];
      }
      for i := 0 to |raw.items|
        invariant days[..] == ReadDays(raw.items[..i])
      {
        assert raw.items[..i + 1][..i] == raw.items[..i];
        var entry := raw.items[i];
        var day := DayOf(entry);
        if day.Some? {
          var r := AsRecord(entry);
          var slots := NormalizeSlots(Field(r, "slots"));
          days[day.value] := DayConfig(day.value, Truthy(Field(r, "isDayOff")) || slots == [], slots);
        }
      }
      assert raw.items[..|raw.items|] == raw.items;
      week := days[..];
    }

    /** Stores new weekly hours; the answer is whether they were accepted. */
    method UpdateWorkingHours(days: Json) returns (accepted: bool)
      modifies this`settings
      ensures accepted && settings == UpdatedHours(old(settings), days)
    {
      var week := NormalizeDays(days);
      DuplicateDayCheckIsDead(days);
      accepted := DistinctDays(week);
      if accepted {
        settings := WithSchedule(settings, Settings(week, Extract(settings).overrides));
      }
    }

    method DeleteOverride(id: string) returns (found: bool)
      modifies this`settings
      ensures found <==> exists o :: o in Extract(old(settings)).overrides && o.id == id
      ensures settings == if found then DeletedOverride(old(settings), id) else old(settings)
    {
      var schedule := Extract(settings);
      found := exists o :: o in schedule.overrides && o.id == id;
      if found {
        settings := DeletedOverride(settings, id);
      }
    }

    /** Checks the request against the bookings of the date, then stores the slots, moves and cancels. */
    method UpsertDateOverride(date: string, day: int, req: Request) returns (outcome: Outcome)
      modifies this
      ensures outcome == Verdict(old(bookings), zone, date, day, req)
      ensures outcome == Saved ==> settings == NewSettings(old(settings), date, req)
                                   && bookings == NewTable(old(bookings), zone, date, day, req)
      ensures outcome != Saved ==> settings == old(settings) && bookings == old(bookings)
    {
      if !IsDateKey(date) || (req.bodyDate != "" && req.bodyDate != date) {
        return BadDate;
      }
      var slots := NextSlots(req);
      var active := DayBookings(bookings, zone, day);
      var unresolved := UnresolvedIds(active, zone, req);
      if unresolved != {} {
        return Unresolved(unresolved);
      }
      var refusal := ValidateTargets(active, slots, req.reassignments);
      if refusal.Some? {
        return refusal.value;
      }
      refusal := ClaimTimes(RetainedTimes(active, zone, req), req.reassignments);
      if refusal.Some? {
        return refusal.value;
      }
      outcome := Saved;
      SavedMeans(bookings, zone, date, day, req);
      settings := NewSettings(settings, date, req);
      ApplyMoves(day, req.reassignments);
      ApplyCancels(CancelIds(req) * active.Keys);
    }

    static method ValidateTargets(active: Table, slots: seq<string>, rs: seq<Reassignment>) returns (refusal: Option<Outcome>)
      ensures refusal == CheckTargets(active, slots, rs)
    {
      var i := 0;
      assert rs[0..] == rs;
      while i < |rs|
        invariant 0 <= i <= |rs|
        invariant CheckTargets(active, slots, rs) == CheckTargets(active, slots, rs[i..])
      {
        if rs[i].id !in active {
          return Some(UnknownBooking(rs[i].id));
        }
        if rs[i].to !in slots {
          return Some(NotASlot(rs[i].to));
        }
        assert rs[i..][1..] == rs[i + 1..];
        i := i + 1;
      }
      refusal := None;
    }

    // Each reassignment takes its time, unless a retained booking or an earlier one has it.
    static method ClaimTimes(retained: set<string>, rs: seq<Reassignment>) returns (refusal: Option<Outcome>)
      ensures refusal == CheckFree(retained, rs)
    {
      var occupied := retained;
      var i := 0;
      assert rs[0..] == rs;
      while i < |rs|
        invariant 0 <= i <= |rs|
        invariant CheckFree(retained, rs) == CheckFree(occupied, rs[i..])
      {
        if rs[i].to in occupied {
          return Some(Occupied(rs[i].to));
        }
        assert rs[i..][1..] == rs[i + 1..];
        occupied := occupied + {rs[i].to};
        i := i + 1;
      }
      refusal := None;
    }

    method ApplyMoves(day: int, rs: seq<Reassignment>)
      requires forall r :: r in rs ==> r.id in bookings && IsSlotTime(r.to)
      modifies this`bookings
      ensures bookings == Moved(old(bookings), zone, day, rs)
    {
      hide Build, Minutes, IsSlotTime, Starts;
      ghost var moves := Starts(zone, day, rs);
      for i := 0 to |rs|
        invariant bookings == MovedTable(old(bookings), moves[..i])
      {
        var id := rs[i].id;
        assert rs[i] in rs && moves[i] in moves && moves[..i + 1][..i] == moves[..i];
        var start := Build(zone, day, Minutes(rs[i].to));
        bookings := bookings[id := bookings[id].(start := start, end := start + bookings[id].duration * MINUTE)];
      }
      assert moves[..|rs|] == moves;
    }

    method ApplyCancels(ids: set<string>)
      requires ids <= bookings.Keys
      modifies this`bookings
      ensures bookings == CancelAll(old(bookings), ids)
    {
      var rest := ids;
      while rest != {}
        invariant rest <= ids && bookings == CancelAll(old(bookings), ids - rest)
        decreases rest
      {
        var id :| id in rest;
        rest := rest - {id};
        bookings := bookings[id := bookings[id].(status := Cancelled)];
      }
    }
  }
}
