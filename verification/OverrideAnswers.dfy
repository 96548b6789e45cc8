/**
 Which date overrides are accepted, which are refused and why, and what an accepted one does to each
 booking: told in the fields of the request and the bookings of the date.
 */
module OverrideAnswers {
  import opened Wrappers
  import opened SlotTimes
  import opened Tables
  import opened Moves
  import opened Zones
  import opened Schedule
  import opened DateOverride
  import OverrideOverlap

  // A booking of the date that is not cancelled.
  predicate OfDate(table: Table, z: Zone, day: int, id: string) {
    id in table && table[id].status != Cancelled && InDay(z, day, table[id].start)
  }

  // A time the request offers.
  predicate Wanted(req: Request, t: string) {
    !req.isDayOff && t in req.slots && IsSlotTime(t)
  }

  predicate Reassigned(req: Request, id: string) {
    exists i :: 0 <= i < |req.reassignments| && req.reassignments[i].id == id
  }

  predicate Named(req: Request, id: string) {
    Reassigned(req, id) || id in req.cancelIds
  }

  predicate DatesAgree(date: string, req: Request) {
    IsDateKey(date) && (req.bodyDate == "" || req.bodyDate == date)
  }

  // A booking that is neither on an offered time nor named.
  predicate LeftOpen(table: Table, z: Zone, day: int, req: Request, id: string) {
    OfDate(table, z, day, id) && !Wanted(req, FormatTime(z, table[id].start)) && !Named(req, id)
  }

  predicate GoodTarget(table: Table, z: Zone, day: int, req: Request, r: Reassignment) {
    OfDate(table, z, day, r.id) && Wanted(req, r.to)
  }

  // The time of a booking the request does not name.
  ghost predicate Kept(table: Table, z: Zone, day: int, req: Request, t: string) {
    exists id :: OfDate(table, z, day, id) && !Named(req, id) && FormatTime(z, table[id].start) == t
  }

  // The target is free when its turn comes.
  ghost predicate FreeTarget(table: Table, z: Zone, day: int, req: Request, i: nat)
    requires i < |req.reassignments|
  {
    && !Kept(table, z, day, req, req.reassignments[i].to)
    && forall k :: 0 <= k < i ==> req.reassignments[k].to != req.reassignments[i].to
  }

  // ---------------------------------------------------------------------------
  // The words above are those of the checks
  // ---------------------------------------------------------------------------

  lemma WantedIsSlot(req: Request, t: string)
    ensures t in NextSlots(req) <==> Wanted(req, t)
  {
    hide NormalSlots, IsNormal, IsSlotTime;
    NormalSlotsMeaning(req.slots);
  }

  lemma NamedIsResolved(req: Request, id: string)
    ensures id in ResolvedIds(req) <==> Named(req, id)
  {
    if Reassigned(req, id) {
      var i :| 0 <= i < |req.reassignments| && req.reassignments[i].id == id;
      assert req.reassignments[i] in req.reassignments;
    }
  }

  lemma OfDateIsDay(table: Table, z: Zone, day: int, id: string)
    ensures id in DayBookings(table, z, day) <==> OfDate(table, z, day, id)
    ensures id in DayBookings(table, z, day) ==> DayBookings(table, z, day)[id] == table[id]
  {
    hide InDay;
  }

  lemma OpenIsUnresolved(table: Table, z: Zone, day: int, req: Request, id: string)
    ensures id in UnresolvedIds(DayBookings(table, z, day), z, req) <==> LeftOpen(table, z, day, req, id)
  {
    hide DayBookings, OfDate, NextSlots, Wanted, ResolvedIds, Named, FormatTime;
    OfDateIsDay(table, z, day, id);
    NamedIsResolved(req, id);
    if OfDate(table, z, day, id) {
      OfDateKnown(table, z, day, id);
      WantedIsSlot(req, FormatTime(z, table[id].start));
    }
  }

  lemma OfDateKnown(table: Table, z: Zone, day: int, id: string)
    requires OfDate(table, z, day, id)
    ensures id in table
  {}

  lemma KeptIsRetained(table: Table, z: Zone, day: int, req: Request, t: string)
    ensures t in RetainedTimes(DayBookings(table, z, day), z, req) <==> Kept(table, z, day, req, t)
  {
    hide DayBookings, OfDate, ResolvedIds, Named, FormatTime;
    var d := DayBookings(table, z, day);
    if id :| id in d && id !in ResolvedIds(req) && FormatTime(z, d[id].start) == t {
      OfDateIsDay(table, z, day, id);
      OfDateKnown(table, z, day, id);
      NamedIsResolved(req, id);
      assert OfDate(table, z, day, id) && !Named(req, id) && FormatTime(z, table[id].start) == t;
    }
    if Kept(table, z, day, req, t) {
      var id := KeptBy(table, z, day, req, t);
      OfDateIsDay(table, z, day, id);
      NamedIsResolved(req, id);
    }
  }

  lemma KeptBy(table: Table, z: Zone, day: int, req: Request, t: string) returns (id: string)
    requires Kept(table, z, day, req, t)
    ensures OfDate(table, z, day, id) && id in table && !Named(req, id) && FormatTime(z, table[id].start) == t
  {
    id :| OfDate(table, z, day, id) && !Named(req, id) && FormatTime(z, table[id].start) == t;
  }

  lemma GoodIsTarget(table: Table, z: Zone, day: int, req: Request, r: Reassignment)
    ensures (r.id in DayBookings(table, z, day) && r.to in NextSlots(req)) <==> GoodTarget(table, z, day, req, r)
  {
    hide DayBookings, OfDate, NextSlots, Wanted;
    OfDateIsDay(table, z, day, r.id);
    WantedIsSlot(req, r.to);
  }

  // The first of the targets that is not good decides the refusal.
  lemma {:induction false} TargetsExact(d: Table, slots: seq<string>, rs: seq<Reassignment>, i: nat)
    requires i < |rs| && (rs[i].id !in d || rs[i].to !in slots)
    requires forall k :: 0 <= k < i ==> rs[k].id in d && rs[k].to in slots
    ensures CheckTargets(d, slots, rs) == Some(if rs[i].id !in d then UnknownBooking(rs[i].id) else NotASlot(rs[i].to))
  {
    if i > 0 {
      assert rs[0].id in d && rs[0].to in slots;
      TargetsExact(d, slots, rs[1..], i - 1);
    }
  }

  lemma {:induction false} FreeExact(occupied: set<string>, rs: seq<Reassignment>, i: nat)
    requires i < |rs| && (rs[i].to in occupied || exists k :: 0 <= k < i && rs[k].to == rs[i].to)
    requires forall k :: 0 <= k < i ==> rs[k].to !in occupied && forall l :: 0 <= l < k ==> rs[l].to != rs[k].to
    ensures CheckFree(occupied, rs) == Some(Occupied(rs[i].to))
    decreases |rs|
  {
    if i > 0 {
      var tail := rs[1..];
      assert rs[0].to !in occupied;
      forall k | 0 <= k < i - 1 ensures tail[k].to !in occupied + {rs[0].to} && forall l :: 0 <= l < k ==> tail[l].to != tail[k].to {
        assert rs[k + 1].to !in occupied && rs[0].to != rs[k + 1].to;
        forall l | 0 <= l < k ensures tail[l].to != tail[k].to {
          assert rs[l + 1].to != rs[k + 1].to;
        }
      }
      if k :| 0 <= k < i && rs[k].to == rs[i].to {
        assert k > 0 ==> tail[k - 1].to == tail[i - 1].to;
      }
      FreeExact(occupied + {rs[0].to}, tail, i - 1);
    }
  }

  // ---------------------------------------------------------------------------
  // The answers
  // ---------------------------------------------------------------------------

  ghost predicate AllGood(table: Table, z: Zone, day: int, req: Request) {
    forall i :: 0 <= i < |req.reassignments| ==> GoodTarget(table, z, day, req, req.reassignments[i])
  }

  ghost predicate AllFree(table: Table, z: Zone, day: int, req: Request) {
    forall i :: 0 <= i < |req.reassignments| ==> FreeTarget(table, z, day, req, i)
  }

  /**
   A request is accepted if and only if: the dates agree; every booking of the date is on an offered time, or
   reassigned, or to be cancelled; every target names a booking of the date and an offered time; and every
   target differs from the others and from the times of the bookings not named.
   */
  lemma SavedExact(table: Table, z: Zone, date: string, day: int, req: Request)
    ensures Verdict(table, z, date, day, req) == Saved <==>
            && DatesAgree(date, req)
            && (forall id :: !LeftOpen(table, z, day, req, id))
            && AllGood(table, z, day, req) && AllFree(table, z, day, req)
  {
    hide LeftOpen, UnresolvedIds, CheckTargets, CheckFree, GoodTarget, DayBookings, RetainedTimes, NextSlots, Kept, IsDateKey;
    Unresolved0(table, z, day, req);
    GoodExact(table, z, day, req);
    FreeAllExact(table, z, day, req);
  }

  lemma Unresolved0(table: Table, z: Zone, day: int, req: Request)
    ensures UnresolvedIds(DayBookings(table, z, day), z, req) == {} <==> forall id :: !LeftOpen(table, z, day, req, id)
  {
    hide LeftOpen, UnresolvedIds, DayBookings;
    forall id ensures id in UnresolvedIds(DayBookings(table, z, day), z, req) <==> LeftOpen(table, z, day, req, id) {
      OpenIsUnresolved(table, z, day, req, id);
    }
  }

  lemma GoodExact(table: Table, z: Zone, day: int, req: Request)
    ensures CheckTargets(DayBookings(table, z, day), NextSlots(req), req.reassignments).None? <==> AllGood(table, z, day, req)
  {
    hide CheckTargets, DayBookings, NextSlots, GoodTarget;
    var rs := req.reassignments;
    TargetsOk(DayBookings(table, z, day), NextSlots(req), rs);
    forall r: Reassignment ensures (r.id in DayBookings(table, z, day) && r.to in NextSlots(req)) <==> GoodTarget(table, z, day, req, r) {
      GoodIsTarget(table, z, day, req, r);
    }
    if AllGood(table, z, day, req) {
      forall r | r in rs ensures r.id in DayBookings(table, z, day) && r.to in NextSlots(req) {
        var i :| 0 <= i < |rs| && rs[i] == r;
      }
    }
  }

  lemma FreeAllExact(table: Table, z: Zone, day: int, req: Request)
    ensures CheckFree(RetainedTimes(DayBookings(table, z, day), z, req), req.reassignments).None? <==> AllFree(table, z, day, req)
  {
    hide CheckFree, RetainedTimes, DayBookings, Kept;
    var rs := req.reassignments;
    FreeOk(RetainedTimes(DayBookings(table, z, day), z, req), rs);
    forall t ensures t in RetainedTimes(DayBookings(table, z, day), z, req) <==> Kept(table, z, day, req, t) {
      KeptIsRetained(table, z, day, req, t);
    }
    forall i | 0 <= i < |rs|
      ensures FreeTarget(table, z, day, req, i) <==>
              rs[i].to !in RetainedTimes(DayBookings(table, z, day), z, req) && forall k :: 0 <= k < i ==> rs[k].to != rs[i].to
    {}
  }

  /** Otherwise the first failing check answers: the dates, the bookings left open, the first bad target, the first taken one. */
  lemma RefusedExact(table: Table, z: Zone, date: string, day: int, req: Request)
    ensures var v := Verdict(table, z, date, day, req);
            && (v == BadDate <==> !DatesAgree(date, req))
            && (v.Unresolved? <==> DatesAgree(date, req) && exists id :: LeftOpen(table, z, day, req, id))
            && (v.Unresolved? ==> forall id :: id in v.ids <==> LeftOpen(table, z, day, req, id))
            && (v.UnknownBooking? || v.NotASlot? <==>
                  DatesAgree(date, req) && (forall id :: !LeftOpen(table, z, day, req, id)) && !AllGood(table, z, day, req))
            && (v.Occupied? <==>
                  DatesAgree(date, req) && (forall id :: !LeftOpen(table, z, day, req, id)) && AllGood(table, z, day, req)
                  && !AllFree(table, z, day, req))
  {
    hide LeftOpen, UnresolvedIds, CheckTargets, CheckFree, DayBookings, RetainedTimes, NextSlots, IsDateKey, AllGood, AllFree;
    Unresolved0(table, z, day, req);
    GoodExact(table, z, day, req);
    FreeAllExact(table, z, day, req);
    forall id ensures id in UnresolvedIds(DayBookings(table, z, day), z, req) <==> LeftOpen(table, z, day, req, id) {
      OpenIsUnresolved(table, z, day, req, id);
    }
  }

  /** The first bad target is reported, as a stranger if it names no booking of the date, else as no slot. */
  lemma BadTargetExact(table: Table, z: Zone, date: string, day: int, req: Request, i: nat)
    requires DatesAgree(date, req) && (forall id :: !LeftOpen(table, z, day, req, id)) && i < |req.reassignments|
    requires !GoodTarget(table, z, day, req, req.reassignments[i])
    requires forall k :: 0 <= k < i ==> GoodTarget(table, z, day, req, req.reassignments[k])
    ensures Verdict(table, z, date, day, req) ==
            if OfDate(table, z, day, req.reassignments[i].id) then NotASlot(req.reassignments[i].to)
            else UnknownBooking(req.reassignments[i].id)
  {
    hide LeftOpen, UnresolvedIds, CheckTargets, CheckFree, DayBookings, RetainedTimes, NextSlots, IsDateKey, GoodTarget, OfDate;
    Unresolved0(table, z, day, req);
    var rs := req.reassignments;
    forall k | 0 <= k <= i
      ensures (rs[k].id in DayBookings(table, z, day) && rs[k].to in NextSlots(req)) <==> GoodTarget(table, z, day, req, rs[k])
    {
      GoodIsTarget(table, z, day, req, rs[k]);
    }
    OfDateIsDay(table, z, day, rs[i].id);
    TargetsExact(DayBookings(table, z, day), NextSlots(req), rs, i);
  }

  /** The first target found taken is reported by its time. */
  lemma TakenTargetExact(table: Table, z: Zone, date: string, day: int, req: Request, i: nat)
    requires DatesAgree(date, req) && (forall id :: !LeftOpen(table, z, day, req, id)) && i < |req.reassignments|
    requires AllGood(table, z, day, req) && !FreeTarget(table, z, day, req, i)
    requires forall k :: 0 <= k < i ==> FreeTarget(table, z, day, req, k)
    ensures Verdict(table, z, date, day, req) == Occupied(req.reassignments[i].to)
  {
    hide LeftOpen, UnresolvedIds, CheckTargets, CheckFree, DayBookings, RetainedTimes, NextSlots, IsDateKey, AllGood, Kept;
    Unresolved0(table, z, day, req);
    GoodExact(table, z, day, req);
    var rs, occupied := req.reassignments, RetainedTimes(DayBookings(table, z, day), z, req);
    forall t ensures t in occupied <==> Kept(table, z, day, req, t) {
      KeptIsRetained(table, z, day, req, t);
    }
    forall k | 0 <= k < i ensures rs[k].to !in occupied && forall l :: 0 <= l < k ==> rs[l].to != rs[k].to {
      assert FreeTarget(table, z, day, req, k);
    }
    FreeExact(occupied, rs, i);
  }

  /** A day off is accepted if and only if every booking of the date is to be cancelled; the date is empty afterwards. */
  lemma DayOffExact(table: Table, z: Zone, date: string, day: int, slots: seq<string>, cancelIds: seq<string>)
    ensures var req := Request("", true, slots, [], cancelIds);
            && (Verdict(table, z, date, day, req) == Saved <==>
                  IsDateKey(date) && forall id :: OfDate(table, z, day, id) ==> id in cancelIds)
            && (Verdict(table, z, date, day, req) == Saved ==>
                  forall id :: !OfDate(NewTable(table, z, date, day, req), z, day, id))
  {
    hide Verdict, NewTable, IsDateKey, InDay, FormatTime, NextSlots;
    var req := Request("", true, slots, [], cancelIds);
    SavedExact(table, z, date, day, req);
    forall id ensures LeftOpen(table, z, day, req, id) <==> OfDate(table, z, day, id) && id !in cancelIds {}
    if Verdict(table, z, date, day, req) == Saved {
      forall id ensures !OfDate(NewTable(table, z, date, day, req), z, day, id) {
        if id in table {
          RowExact(table, z, date, day, req, id);
        } else {
          OverrideOverlap.SameIds(table, z, date, day, req);
        }
      }
    }
  }

  /** A single booking at nine, and a day off that cancels it. */
  lemma DayOffReached()
    ensures var table := map["a" := OverrideOverlap.Hours(9, 10)];
            var req := Request("", true, [], [], ["a"]);
            && Verdict(table, OverrideOverlap.UTC, "2026-01-01", 0, req) == Saved
            && NewTable(table, OverrideOverlap.UTC, "2026-01-01", 0, req) == map["a" := OverrideOverlap.Hours(9, 10).(status := Cancelled)]
  {
    hide Verdict, NewTable, InDay;
    var table := map["a" := OverrideOverlap.Hours(9, 10)];
    var req := Request("", true, [], [], ["a"]);
    OverrideOverlap.KeyIsDate();
    OverrideOverlap.UtcTimes(9);
    DayOffExact(table, OverrideOverlap.UTC, "2026-01-01", 0, [], ["a"]);
    OverrideOverlap.SameIds(table, OverrideOverlap.UTC, "2026-01-01", 0, req);
    RowExact(table, OverrideOverlap.UTC, "2026-01-01", 0, req, "a");
  }

  // ---------------------------------------------------------------------------
  // The rows
  // ---------------------------------------------------------------------------

  /**
   After an accepted request: a booking of the date named for cancelling is cancelled, every other status is
   kept; one that is reassigned starts at its last target and ends its own length later; nothing else changes.
   */
  lemma RowExact(table: Table, z: Zone, date: string, day: int, req: Request, id: string)
    requires Verdict(table, z, date, day, req) == Saved && id in table
    ensures id in NewTable(table, z, date, day, req)
    ensures var b, b' := table[id], NewTable(table, z, date, day, req)[id];
            var t := LastFor(req.reassignments, id);
            && b'.clientId == b.clientId && b'.serviceId == b.serviceId && b'.duration == b.duration && b'.price == b.price
            && b'.status == (if OfDate(table, z, day, id) && id in req.cancelIds then Cancelled else b.status)
            && (t.Some? ==> IsSlotTime(t.value) && b'.start == Build(z, day, Minutes(t.value)) && b'.end == b'.start + b.duration * 60_000)
            && (t.None? ==> b'.start == b.start && b'.end == b.end)
  {
    hide NewTable, Verdict, IsSlotTime, Build, Minutes, NextSlots, OfDate, DayBookings;
    NewTableRow(table, z, date, day, req, id);
    OfDateIsDay(table, z, day, id);
  }

  // ---------------------------------------------------------------------------
  // The day view
  // ---------------------------------------------------------------------------

  ghost predicate BookedTime(table: Table, z: Zone, day: int, t: string) {
    exists id :: OfDate(table, z, day, id) && FormatTime(z, table[id].start) == t
  }

  /** The day view lists the slots and the booked times; each shows as booked iff a booking has it, as locked iff it is no slot. */
  lemma DayViewExact(settings: Json, cal: Calendar, table: Table, z: Zone, date: string, day: int, s: DaySlot)
    ensures s in DateSchedule(settings, cal, table, z, date, day) <==>
            && (s.time in EffectiveSlots(settings, cal, date) || BookedTime(table, z, day, s.time))
            && (s.booked <==> BookedTime(table, z, day, s.time))
            && (s.locked <==> s.time !in EffectiveSlots(settings, cal, date))
  {
    hide EffectiveSlots, DayBookings, OfDate, FormatTime;
    var d := DayBookings(table, z, day);
    var booked := set id | id in d :: FormatTime(z, d[id].start);
    forall t ensures t in booked <==> BookedTime(table, z, day, t) {
      BookedIsTime(table, z, day, t);
    }
    var slots := EffectiveSlots(settings, cal, date);
    forall t ensures t in (set x | x in slots) <==> t in slots {}
  }

  lemma BookedIsTime(table: Table, z: Zone, day: int, t: string)
    ensures var d := DayBookings(table, z, day);
            t in (set id | id in d :: FormatTime(z, d[id].start)) <==> BookedTime(table, z, day, t)
  {
    hide DayBookings, OfDate, FormatTime;
    var d := DayBookings(table, z, day);
    if id :| id in d && FormatTime(z, d[id].start) == t {
      OfDateIsDay(table, z, day, id);
      assert OfDate(table, z, day, id);
      OfDateKnown(table, z, day, id);
      assert FormatTime(z, table[id].start) == t;
    }
    if BookedTime(table, z, day, t) {
      var id := BookedBy(table, z, day, t);
      OfDateIsDay(table, z, day, id);
    }
  }

  lemma BookedBy(table: Table, z: Zone, day: int, t: string) returns (id: string)
    requires BookedTime(table, z, day, t)
    ensures OfDate(table, z, day, id) && id in table && FormatTime(z, table[id].start) == t
  {
    id :| OfDate(table, z, day, id) && FormatTime(z, table[id].start) == t;
  }
}
