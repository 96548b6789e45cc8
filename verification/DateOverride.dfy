/** Replacing the slots of one date: which requests are refused, and what an accepted one leaves behind. */
module DateOverride {
  import opened Wrappers
  import opened Sorting
  import opened SlotTimes
  import opened Tables
  import opened Moves
  import opened Zones
  import opened Schedule
  import opened ScheduleProofs

  // A booking of the date and the slot it goes to.
  type Reassignment = Move<string>

  datatype Request = Request(bodyDate: string, isDayOff: bool, slots: seq<string>,
                             reassignments: seq<Reassignment>, cancelIds: seq<string>)

  datatype Outcome =
    | Saved
    | BadDate
    | Unresolved(ids: set<string>)
    | UnknownBooking(id: string)
    | NotASlot(time: string)
    | Occupied(time: string)

  // The active bookings the date window catches.
  function DayBookings(table: Table, z: Zone, day: int): Table {
    map id | id in table && table[id].Active() && InDay(z, day, table[id].start) :: table[id]
  }

  function NextSlots(req: Request): seq<string> {
    if req.isDayOff then [] else NormalSlots(req.slots)
  }

  function CancelIds(req: Request): set<string> {
    set id | id in req.cancelIds
  }

  function ResolvedIds(req: Request): set<string> {
    MovedIds(req.reassignments) + CancelIds(req)
  }

  function UnresolvedIds(d: Table, z: Zone, req: Request): set<string> {
    set id | id in d && FormatTime(z, d[id].start) !in NextSlots(req) && id !in ResolvedIds(req)
  }

  // The first reassignment that names a stranger or a time that is no slot.
  function CheckTargets(d: Table, slots: seq<string>, rs: seq<Reassignment>): (r: Option<Outcome>)
    ensures r.Some? ==> r.value.UnknownBooking? || r.value.NotASlot?
  {
    if rs == [] then None
    else if rs[0].id !in d then Some(UnknownBooking(rs[0].id))
    else if rs[0].to !in slots then Some(NotASlot(rs[0].to))
    else CheckTargets(d, slots, rs[1..])
  }

  function RetainedTimes(d: Table, z: Zone, req: Request): set<string> {
    set id | id in d && id !in ResolvedIds(req) :: FormatTime(z, d[id].start)
  }

  // The first reassignment to a time already taken, each one taking its own.
  function CheckFree(occupied: set<string>, rs: seq<Reassignment>): (r: Option<Outcome>)
    ensures r.Some? ==> r.value.Occupied?
    decreases |rs|
  {
    if rs == [] then None
    else if rs[0].to in occupied then Some(Occupied(rs[0].to))
    else CheckFree(occupied + {rs[0].to}, rs[1..])
  }

  function Verdict(table: Table, z: Zone, date: string, day: int, req: Request): Outcome {
    var d := DayBookings(table, z, day);
    if !IsDateKey(date) || (req.bodyDate != "" && req.bodyDate != date) then BadDate
    else if UnresolvedIds(d, z, req) != {} then Unresolved(UnresolvedIds(d, z, req))
    else
      var targets := CheckTargets(d, NextSlots(req), req.reassignments);
      if targets.Some? then targets.value
      else
        var free := CheckFree(RetainedTimes(d, z, req), req.reassignments);
        if free.Some? then free.value else Saved
  }

  // The reassignments as instants.
  function Starts(z: Zone, day: int, rs: seq<Reassignment>): (moves: seq<Move<int>>)
    requires forall r :: r in rs ==> IsSlotTime(r.to)
    ensures |moves| == |rs|
    ensures forall i :: 0 <= i < |rs| ==> moves[i] == Move(rs[i].id, Build(z, day, Minutes(rs[i].to)))
  {
    if rs == [] then []
    else
      var r := rs[|rs| - 1];
      Starts(z, day, rs[..|rs| - 1]) + [Move(r.id, Build(z, day, Minutes(r.to)))]
  }

  // The table after the reassignments, one after the other.
  function Moved(table: Table, z: Zone, day: int, rs: seq<Reassignment>): Table
    requires forall r :: r in rs ==> r.id in table && IsSlotTime(r.to)
    ensures Moved(table, z, day, rs).Keys == table.Keys
  {
    MovedTable(table, Starts(z, day, rs))
  }

  function NewSettings(settings: Json, date: string, req: Request): Json {
    var sch := Extract(settings);
    WithSchedule(settings, Settings(sch.weekly,
      Filter((o: Override) => o.date != date, sch.overrides) + [Override(date, date, req.isDayOff, NextSlots(req))]))
  }

  // ---------------------------------------------------------------------------
  // What an accepted request guarantees
  // ---------------------------------------------------------------------------

  lemma {:induction false} TargetsOk(d: Table, slots: seq<string>, rs: seq<Reassignment>)
    ensures CheckTargets(d, slots, rs).None? <==> forall r :: r in rs ==> r.id in d && r.to in slots
  {
    if rs != [] {
      assert rs == [rs[0]] + rs[1..];
      assert rs[0] in rs;
      TargetsOk(d, slots, rs[1..]);
    }
  }

  lemma {:induction false} FreeOk(occupied: set<string>, rs: seq<Reassignment>)
    ensures CheckFree(occupied, rs).None? <==>
            && (forall i :: 0 <= i < |rs| ==> rs[i].to !in occupied)
            && (forall i, j :: 0 <= i < j < |rs| ==> rs[i].to != rs[j].to)
    decreases |rs|
  {
    if rs != [] {
      var tail := rs[1..];
      FreeOk(occupied + {rs[0].to}, tail);
      assert forall j :: 1 <= j < |rs| ==> rs[j] == tail[j - 1];
    }
  }

  /** An accepted request: everything the checks establish, in one place. */
  lemma SavedMeans(table: Table, z: Zone, date: string, day: int, req: Request)
    requires Verdict(table, z, date, day, req) == Saved
    ensures var d := DayBookings(table, z, day);
            var rs := req.reassignments;
            && IsDateKey(date) && IsNormal(NextSlots(req))
            && (forall id :: id in d && id !in ResolvedIds(req) ==> FormatTime(z, d[id].start) in NextSlots(req))
            && (forall r :: r in rs ==> r.id in d && r.to in NextSlots(req) && IsSlotTime(r.to))
            && (forall id, r :: id in d && id !in ResolvedIds(req) && r in rs ==> r.to != FormatTime(z, d[id].start))
            && (forall i, j :: 0 <= i < j < |rs| ==> rs[i].to != rs[j].to)
  {
    hide NormalSlots, Filter, FormatTime, DayBookings, CheckTargets, CheckFree;
    var d := DayBookings(table, z, day);
    NormalSlotsMeaning(req.slots);
    TargetsOk(d, NextSlots(req), req.reassignments);
    FreeOk(RetainedTimes(d, z, req), req.reassignments);
    forall id | id in d && id !in ResolvedIds(req) ensures FormatTime(z, d[id].start) in NextSlots(req) {
      assert id !in UnresolvedIds(d, z, req);
    }
    forall id, r | id in d && id !in ResolvedIds(req) && r in req.reassignments
      ensures r.to != FormatTime(z, d[id].start)
    {
      var i :| 0 <= i < |req.reassignments| && req.reassignments[i] == r;
      assert FormatTime(z, d[id].start) in RetainedTimes(d, z, req);
    }
  }

  function NewTable(table: Table, z: Zone, date: string, day: int, req: Request): Table
    requires Verdict(table, z, date, day, req) == Saved
  {
    SavedMeans(table, z, date, day, req);
    CancelAll(Moved(table, z, day, req.reassignments), CancelIds(req) * DayBookings(table, z, day).Keys)
  }

  lemma {:induction false} LastStart(z: Zone, day: int, rs: seq<Reassignment>, id: string)
    requires forall r :: r in rs ==> IsSlotTime(r.to)
    ensures LastFor(rs, id).Some? ==> IsSlotTime(LastFor(rs, id).value)
    ensures LastFor(Starts(z, day, rs), id) ==
            if LastFor(rs, id).Some? then Some(Build(z, day, Minutes(LastFor(rs, id).value))) else None
  {
    hide IsSlotTime, Build, Minutes;
    if rs != [] {
      var n := |rs| - 1;
      assert rs[n] in rs;
      LastStart(z, day, rs[..n], id);
      assert Starts(z, day, rs)[..n] == Starts(z, day, rs[..n]);
    }
  }

  lemma MovedRow(table: Table, z: Zone, day: int, rs: seq<Reassignment>, id: string)
    requires forall r :: r in rs ==> r.id in table && IsSlotTime(r.to)
    requires id in table
    ensures LastFor(rs, id).Some? ==> IsSlotTime(LastFor(rs, id).value)
    ensures Moved(table, z, day, rs)[id] ==
            if LastFor(rs, id).Some? then MovedTo(table[id], Build(z, day, Minutes(LastFor(rs, id).value))) else table[id]
  {
    hide IsSlotTime, Build, Minutes, Starts;
    LastStart(z, day, rs, id);
    MovedTableRow(table, Starts(z, day, rs), id);
  }

  // One row of the new table.
  function RowAfter(b: Booking, z: Zone, day: int, target: Option<string>, cancelled: bool): Booking
    requires target.Some? ==> IsSlotTime(target.value)
  {
    var b' := if target.Some? then MovedTo(b, Build(z, day, Minutes(target.value))) else b;
    if cancelled then b'.(status := Cancelled) else b'
  }

  /** Bookings of the date are moved or cancelled as asked; every other booking is left alone. */
  lemma NewTableRow(table: Table, z: Zone, date: string, day: int, req: Request, id: string)
    requires Verdict(table, z, date, day, req) == Saved && id in table
    ensures var t := LastFor(req.reassignments, id);
            var inDay := id in DayBookings(table, z, day);
            && (t.Some? ==> IsSlotTime(t.value) && t.value in NextSlots(req) && inDay)
            && id in NewTable(table, z, date, day, req)
            && NewTable(table, z, date, day, req)[id] == RowAfter(table[id], z, day, t, inDay && id in CancelIds(req))
    ensures NewTable(table, z, date, day, req).Keys == table.Keys
  {
    SavedMeans(table, z, date, day, req);
    MovedRow(table, z, day, req.reassignments, id);
    LastForFound(req.reassignments, id);
  }

  lemma OtherBookingsKept(table: Table, z: Zone, date: string, day: int, req: Request, id: string)
    requires Verdict(table, z, date, day, req) == Saved && id in table && id !in DayBookings(table, z, day)
    ensures id in NewTable(table, z, date, day, req) && NewTable(table, z, date, day, req)[id] == table[id]
  {
    NewTableRow(table, z, date, day, req, id);
  }

  // A booking the date still has afterwards: it had it before, on a slot or moved to one.
  lemma DayRow(table: Table, z: Zone, date: string, day: int, req: Request, id: string)
    requires Verdict(table, z, date, day, req) == Saved && Regular(z, day)
    requires id in DayBookings(NewTable(table, z, date, day, req), z, day)
    ensures id in table && id in DayBookings(table, z, day) && id !in CancelIds(req)
    ensures var t := LastFor(req.reassignments, id);
            && (t.Some? ==> IsSlotTime(t.value))
            && NewTable(table, z, date, day, req)[id] == RowAfter(table[id], z, day, t, false)
            && FormatTime(z, NewTable(table, z, date, day, req)[id].start) ==
                 (if t.Some? then t.value else FormatTime(z, table[id].start))
            && FormatTime(z, NewTable(table, z, date, day, req)[id].start) in NextSlots(req)
            && (t.None? ==> id !in ResolvedIds(req))
  {
    assert id in NewTable(table, z, date, day, req).Keys;
    var t := LastFor(req.reassignments, id);
    assert id in table by {
      SavedMeans(table, z, date, day, req);
    }
    NewTableRow(table, z, date, day, req, id);
    LastForFound(req.reassignments, id);
    SavedMeans(table, z, date, day, req);
    if t.Some? {
      RegularBuild(z, day, Minutes(t.value));
      TextOfMinutes(t.value);
    }
  }

  /** Every active booking of the date starts on one of the requested slots. */
  lemma BookingsOnSlots(table: Table, z: Zone, date: string, day: int, req: Request)
    requires Verdict(table, z, date, day, req) == Saved && Regular(z, day)
    ensures forall id :: id in DayBookings(NewTable(table, z, date, day, req), z, day) ==>
              FormatTime(z, NewTable(table, z, date, day, req)[id].start) in NextSlots(req)
  {
    forall id | id in DayBookings(NewTable(table, z, date, day, req), z, day)
      ensures FormatTime(z, NewTable(table, z, date, day, req)[id].start) in NextSlots(req)
    {
      DayRow(table, z, date, day, req, id);
    }
  }

  ghost predicate DistinctStarts(d: Table) {
    forall i, j :: i in d && j in d && i != j ==> d[i].start != d[j].start
  }

  // The time of day a booking of the date shows afterwards, and where it comes from.
  lemma DayTime(table: Table, z: Zone, date: string, day: int, req: Request, id: string)
    requires Verdict(table, z, date, day, req) == Saved && Regular(z, day)
    requires id in DayBookings(NewTable(table, z, date, day, req), z, day)
    ensures id in NewTable(table, z, date, day, req) && id in DayBookings(table, z, day)
    ensures var t, d := LastFor(req.reassignments, id), DayBookings(table, z, day);
            && (t.Some? ==> Move(id, t.value) in req.reassignments)
            && (t.None? ==> id !in ResolvedIds(req))
            && FormatTime(z, NewTable(table, z, date, day, req)[id].start) == if t.Some? then t.value else FormatTime(z, d[id].start)
  {
    hide NewTable, Verdict, InDay, FormatTime, RowAfter, NextSlots, IsNormal, IsSlotTime, Regular;
    DayRow(table, z, date, day, req, id);
    LastForFound(req.reassignments, id);
  }

  lemma TwoRows(table: Table, z: Zone, date: string, day: int, req: Request, i: string, j: string)
    requires Verdict(table, z, date, day, req) == Saved && Regular(z, day)
    requires i in DayBookings(NewTable(table, z, date, day, req), z, day)
    requires j in DayBookings(NewTable(table, z, date, day, req), z, day)
    requires i != j && LastFor(req.reassignments, i).Some?
    ensures i in NewTable(table, z, date, day, req) && j in NewTable(table, z, date, day, req)
    ensures var t' := NewTable(table, z, date, day, req); FormatTime(z, t'[i].start) != FormatTime(z, t'[j].start)
  {
    hide NewTable, Verdict, FormatTime, DayBookings, NextSlots, IsNormal, IsSlotTime, Regular, ResolvedIds, LastFor;
    DayTime(table, z, date, day, req, i);
    DayTime(table, z, date, day, req, j);
    SavedMeans(table, z, date, day, req);
    var rs := req.reassignments;
    var a :| 0 <= a < |rs| && rs[a] == Move(i, LastFor(rs, i).value);
    if LastFor(rs, j).Some? {
      var b :| 0 <= b < |rs| && rs[b] == Move(j, LastFor(rs, j).value);
      assert a < b || b < a;
    }
  }

  /** Starts of a date's bookings stay pairwise distinct. */
  lemma StartsStayDistinct(table: Table, z: Zone, date: string, day: int, req: Request)
    requires Verdict(table, z, date, day, req) == Saved && Regular(z, day)
    requires DistinctStarts(DayBookings(table, z, day))
    ensures DistinctStarts(DayBookings(NewTable(table, z, date, day, req), z, day))
  {
    var d' := DayBookings(NewTable(table, z, date, day, req), z, day);
    forall i, j | i in d' && j in d' && i != j ensures d'[i].start != d'[j].start {
      if LastFor(req.reassignments, i).Some? {
        TwoRows(table, z, date, day, req, i, j);
      } else if LastFor(req.reassignments, j).Some? {
        TwoRows(table, z, date, day, req, j, i);
      } else {
        DayRow(table, z, date, day, req, i);
        DayRow(table, z, date, day, req, j);
        var d := DayBookings(table, z, day);
        assert d[i].start != d[j].start;
      }
    }
  }

  // Every booking of the date is over by each slot later than its own.
  ghost predicate FitsGaps(d: Table, z: Zone, day: int, slots: seq<string>)
    requires IsNormal(slots)
  {
    forall id, t :: id in d && t in slots && IsSlotTime(t) && LocalMinute(z, d[id].start) < Minutes(t) ==>
      d[id].end <= Build(z, day, Minutes(t))
  }

  ghost predicate DistinctTimes(d: Table, z: Zone) {
    forall i, j :: i in d && j in d && i != j ==> LocalMinute(z, d[i].start) != LocalMinute(z, d[j].start)
  }

  /** Bookings of a date on its slots, at different times and each fitting its gap, never overlap. */
  lemma FittingBookingsDoNotOverlap(d: Table, z: Zone, day: int, slots: seq<string>)
    requires Regular(z, day) && IsNormal(slots) && FitsGaps(d, z, day, slots) && DistinctTimes(d, z)
    requires forall id :: id in d ==> InDay(z, day, d[id].start) && FormatTime(z, d[id].start) in slots
    ensures forall i, j :: i in d && j in d && i != j ==> !Overlap(d[i], d[j])
  {
    forall i, j | i in d && j in d && i != j ensures !Overlap(d[i], d[j]) {
      var mi, mj := LocalMinute(z, d[i].start), LocalMinute(z, d[j].start);
      LocalTimeInDay(z, day, d[i].start);
      LocalTimeInDay(z, day, d[j].start);
      TextIsSlotTime(mi);
      TextIsSlotTime(mj);
      if mi < mj {
        assert d[i].end <= Build(z, day, Minutes(FormatTime(z, d[j].start)));
      } else {
        assert d[j].end <= Build(z, day, Minutes(FormatTime(z, d[i].start)));
      }
    }
  }

  lemma TimesStayDistinct(table: Table, z: Zone, date: string, day: int, req: Request)
    requires Verdict(table, z, date, day, req) == Saved && Regular(z, day)
    requires DistinctTimes(DayBookings(table, z, day), z)
    ensures DistinctTimes(DayBookings(NewTable(table, z, date, day, req), z, day), z)
  {
    hide NewTable, Verdict, InDay, TimeText;
    var d, d' := DayBookings(table, z, day), DayBookings(NewTable(table, z, date, day, req), z, day);
    forall i, j | i in d' && j in d' && i != j ensures LocalMinute(z, d'[i].start) != LocalMinute(z, d'[j].start) {
      if LastFor(req.reassignments, i).Some? {
        TwoRows(table, z, date, day, req, i, j);
      } else if LastFor(req.reassignments, j).Some? {
        TwoRows(table, z, date, day, req, j, i);
      } else {
        DayRow(table, z, date, day, req, i);
        DayRow(table, z, date, day, req, j);
        assert LocalMinute(z, d[i].start) != LocalMinute(z, d[j].start);
      }
    }
  }

  /** After an accepted request the date's bookings do not overlap, if each is over by the next slot. */
  lemma SavedDayDoesNotOverlap(table: Table, z: Zone, date: string, day: int, req: Request)
    requires Verdict(table, z, date, day, req) == Saved && Regular(z, day)
    requires DistinctTimes(DayBookings(table, z, day), z) && IsNormal(NextSlots(req))
    requires FitsGaps(DayBookings(NewTable(table, z, date, day, req), z, day), z, day, NextSlots(req))
    ensures var d' := DayBookings(NewTable(table, z, date, day, req), z, day);
            forall i, j :: i in d' && j in d' && i != j ==> !Overlap(d'[i], d'[j])
  {
    hide NewTable, Verdict, FitsGaps, DistinctTimes, NextSlots, IsNormal, FormatTime, InDay;
    TimesStayDistinct(table, z, date, day, req);
    BookingsOnSlots(table, z, date, day, req);
    FittingBookingsDoNotOverlap(DayBookings(NewTable(table, z, date, day, req), z, day), z, day, NextSlots(req));
  }

  // ---------------------------------------------------------------------------
  // What reads back
  // ---------------------------------------------------------------------------

  lemma {:induction false} FirstForAppended(os: seq<Override>, o: Override, date: string)
    ensures FirstFor(SettledAll(os + [o]), date) ==
            if FirstFor(SettledAll(os), date).Some? then FirstFor(SettledAll(os), date)
            else if o.date == date then Some(Settled(o)) else None
  {
    if os != [] {
      FirstForAppended(os[1..], o, date);
      assert (os + [o])[1..] == os[1..] + [o];
      assert SettledAll(os + [o])[1..] == SettledAll(os[1..] + [o]);
      assert SettledAll(os)[1..] == SettledAll(os[1..]);
    }
  }

  lemma {:induction false} FirstForOthers(os: seq<Override>, date: string, date': string)
    ensures FirstFor(Filter((o: Override) => o.date != date, os), date') ==
            if date' == date then None else FirstFor(os, date')
  {
    if os != [] {
      FirstForOthers(os[1..], date, date');
      var rest := Filter((o: Override) => o.date != date, os[1..]);
      assert ([os[0]] + rest)[1..] == rest;
    }
  }

  lemma NextSlotsNormal(req: Request)
    ensures IsNormal(NextSlots(req))
  {
    hide NormalSlots;
    NormalSlotsMeaning(req.slots);
  }

  /**
   Read back, the date has exactly the requested normal slots, every other date resolves as before and
   no other settings key has changed.
   */
  lemma SettingsReadBack(settings: Json, cal: Calendar, date: string, req: Request, date': string)
    requires IsDateKey(date)
    ensures Resolve(Extract(NewSettings(settings, date, req)), cal, date') ==
            if date' == date then Effective(true, req.isDayOff || NextSlots(req) == [], NextSlots(req))
            else Resolve(Extract(settings), cal, date')
    ensures OtherKeysKept(settings, NewSettings(settings, date, req))
  {
    hide Extract, WithSchedule, NormalSlots, IsNormal, IsDateKey, Sort, SettledAll, FirstFor, Filter, OtherKeysKept;
    var sch := Extract(settings);
    ExtractIsNormal(settings);
    NextSlotsNormal(req);
    var others := Filter((o: Override) => o.date != date, sch.overrides);
    var o := Override(date, date, req.isDayOff, NextSlots(req));
    KeysKept(settings, Settings(sch.weekly, others + [o]));
    forall x | x in others ensures NormalOverride(x) {
      FilterMembers((o: Override) => o.date != date, sch.overrides, x);
    }
    StoreThenRead(settings, Settings(sch.weekly, others + [o]));
    FirstForSorted(SettledAll(others + [o]), date');
    SettledFixed(others);
    FirstForAppended(others, o, date');
    FirstForOthers(sch.overrides, date, date');
  }

  /** Deleting a saved override by its date puts the weekday template back in force. */
  lemma DeletingRestoresTemplate(settings: Json, cal: Calendar, date: string, req: Request)
    requires IsDateKey(date)
    ensures var saved := NewSettings(settings, date, req);
            Resolve(Extract(DeletedOverride(saved, date)), cal, date) ==
            Resolve(Settings(Extract(settings).weekly, []), cal, date)
  {
    hide Extract, NewSettings, DeletedOverride, OnlyOwnId, OtherKeysKept, WithoutId, IsDateKey;
    var saved := NewSettings(settings, date, req);
    DeletedOverrideReads(saved, date);
    var os := Extract(saved).overrides;
    assert Extract(saved).weekly == Extract(settings).weekly && OnlyOwnId(os, date) by {
      OnlySavedForDate(settings, date, req);
    }
    NoneLeftFor(os, date);
  }

  ghost predicate OnlyOwnId(os: seq<Override>, date: string) {
    forall o :: o in os && o.date == date ==> o.id == date
  }

  lemma OnlySavedForDate(settings: Json, date: string, req: Request)
    requires IsDateKey(date)
    ensures Extract(NewSettings(settings, date, req)).weekly == Extract(settings).weekly
    ensures OnlyOwnId(Extract(NewSettings(settings, date, req)).overrides, date)
  {
    hide Extract, WithSchedule, NormalSlots, IsNormal, IsDateKey, Sort, SettledAll, Filter, NextSlots;
    NextSlotsNormal(req);
    var sch := Extract(settings);
    var keep := (o: Override) => o.date != date;
    ExtractIsNormal(settings);
    NormalSlotsMeaning(req.slots);
    var stored := Filter(keep, sch.overrides) + [Override(date, date, req.isDayOff, NextSlots(req))];
    forall x | x in Filter(keep, sch.overrides) ensures NormalOverride(x) && x.date != date {
      FilterMembers(keep, sch.overrides, x);
    }
    StoreThenRead(settings, Settings(sch.weekly, stored));
    forall o | o in Sort(NotAfter, SettledAll(stored)) && o.date == date ensures o.id == date {
      SortMembers(NotAfter, SettledAll(stored), o);
      SettledMember(stored, o);
    }
  }

  lemma {:induction false} SettledMember(os: seq<Override>, o: Override)
    requires o in SettledAll(os)
    ensures exists x :: x in os && o == Settled(x)
  {
    if o != Settled(os[0]) {
      SettledMember(os[1..], o);
      var x :| x in os[1..] && o == Settled(x);
      assert x in os;
    }
  }

  lemma NoneLeftFor(os: seq<Override>, date: string)
    requires OnlyOwnId(os, date)
    ensures FirstFor(WithoutId(os, date), date).None?
  {
    FirstForMember(WithoutId(os, date), date);
    if FirstFor(WithoutId(os, date), date).Some? {
      FilterMembers((o: Override) => o.id != date, os, FirstFor(WithoutId(os, date), date).value);
    }
  }

  // ---------------------------------------------------------------------------
  // The day view
  // ---------------------------------------------------------------------------

  datatype DaySlot = DaySlot(time: string, booked: bool, locked: bool)

  // All slots and all booked times of the date; a booked time that is no slot is locked.
  function DateSchedule(settings: Json, cal: Calendar, table: Table, z: Zone, date: string, day: int): set<DaySlot> {
    var slots := EffectiveSlots(settings, cal, date);
    var d := DayBookings(table, z, day);
    var booked := set id | id in d :: FormatTime(z, d[id].start);
    set t | t in booked + (set s | s in slots) :: DaySlot(t, t in booked, t in booked && t !in slots)
  }

  /** After an accepted request the day view shows no locked slot. */
  lemma NoLockedSlot(settings: Json, cal: Calendar, table: Table, z: Zone, date: string, day: int, req: Request, s: DaySlot)
    requires Verdict(table, z, date, day, req) == Saved && Regular(z, day)
    requires s in DateSchedule(NewSettings(settings, date, req), cal, NewTable(table, z, date, day, req), z, date, day)
    ensures !s.locked && s.time in NextSlots(req)
  {
    SavedMeans(table, z, date, day, req);
    SettingsReadBack(settings, cal, date, req, date);
    BookingsOnSlots(table, z, date, day, req);
  }
}
