/**
 The reminder model follows the other two models: every accepted booking request, and every accepted
 date override, changes the booking table exactly as one step of the reminder model does.
 */
module NoticeLinks {
  import opened SlotTimes
  import opened Tables
  import opened Moves
  import opened Zones
  import Bookings
  import DateOverride
  import R = Reminders

  // The notices that go with a booking request.
  ghost function NoticeEvent(s: Bookings.State, e: Bookings.Event, byClient: bool): R.Event
    requires Bookings.AnswerTo(s, e) == Bookings.Done
  {
    match e
    case Create(ctx, r) => R.Create(r.id, Bookings.BookingOf(ctx, r), byClient)
    case Cancel(_, id, _) => R.Cancel(id)
    case Remove(id) => R.Remove(id)
    case Reschedule(_, id, start, _) => R.Reschedule(id, start.value, Bookings.RowWritten(s, e).1.clientId)
    case Restore(id) => R.BotRestore(id)
    case Accept(id, start) => R.BotAccept(id, start)
    case Tick(later) => R.Tick(later)
    case _ => R.Edit(Bookings.RowWritten(s, e).0, Bookings.RowWritten(s, e).1)
  }

  /** An accepted booking request is a step of the reminder model and leaves the same bookings. */
  lemma BookingStepIsNoticeStep(s: R.State, e: Bookings.Event, byClient: bool)
    requires var b := Bookings.State(s.now, s.table); Bookings.AnswerTo(b, e) == Bookings.Done && Bookings.Enabled(b, e)
    ensures var b := Bookings.State(s.now, s.table);
            var r := NoticeEvent(b, e, byClient);
            && R.Enabled(s, r)
            && R.Step(s, r).table == Bookings.Step(b, e).table && R.Step(s, r).now == Bookings.Step(b, e).now
  {
    var b := Bookings.State(s.now, s.table);
    var r := NoticeEvent(b, e, byClient);
    hide R.Step, R.Enabled, Bookings.Step, Bookings.AnswerTo, Bookings.RowWritten;
    if r.Edit? {
      EditIsStep(s, e, byClient);
    } else {
      NoticesFollow(s, e, byClient);
    }
  }

  lemma EditIsStep(s: R.State, e: Bookings.Event, byClient: bool)
    requires var b := Bookings.State(s.now, s.table); Bookings.AnswerTo(b, e) == Bookings.Done && Bookings.Enabled(b, e)
    requires NoticeEvent(Bookings.State(s.now, s.table), e, byClient).Edit?
    ensures SameStep(s, e, byClient)
  {
    NoticeEnabled(s, e, byClient);
    hide R.Enabled, Bookings.AnswerTo, Bookings.RowWritten;
  }

  ghost predicate SameStep(s: R.State, e: Bookings.Event, byClient: bool)
    requires Bookings.AnswerTo(Bookings.State(s.now, s.table), e) == Bookings.Done
  {
    var b := Bookings.State(s.now, s.table);
    var r := NoticeEvent(b, e, byClient);
    R.Enabled(s, r) && R.Step(s, r).table == Bookings.Step(b, e).table && R.Step(s, r).now == Bookings.Step(b, e).now
  }

  lemma NoticesFollow(s: R.State, e: Bookings.Event, byClient: bool)
    requires var b := Bookings.State(s.now, s.table); Bookings.AnswerTo(b, e) == Bookings.Done && Bookings.Enabled(b, e)
    requires !NoticeEvent(Bookings.State(s.now, s.table), e, byClient).Edit?
    ensures SameStep(s, e, byClient)
  {
    NoticeEnabled(s, e, byClient);
    hide R.Enabled, Bookings.Taken, Bookings.SlotAllowed, Bookings.AnswerTo;
    if e.Create? || e.Cancel? || e.Remove? || e.Tick? {
      PlainNotices(s, e, byClient);
    } else {
      MovingNotices(s, e, byClient);
    }
  }

  lemma PlainNotices(s: R.State, e: Bookings.Event, byClient: bool)
    requires Bookings.AnswerTo(Bookings.State(s.now, s.table), e) == Bookings.Done
    requires R.Enabled(s, NoticeEvent(Bookings.State(s.now, s.table), e, byClient))
    requires e.Create? || e.Cancel? || e.Remove? || e.Tick?
    ensures SameStep(s, e, byClient)
  {
    hide Bookings.Taken, Bookings.SlotAllowed;
    hide R.Scheduled, R.CancelNotices, R.Cleanup;
    NoticesKeepTable(s);
  }

  lemma MovingNotices(s: R.State, e: Bookings.Event, byClient: bool)
    requires Bookings.AnswerTo(Bookings.State(s.now, s.table), e) == Bookings.Done
    requires R.Enabled(s, NoticeEvent(Bookings.State(s.now, s.table), e, byClient))
    requires e.Reschedule? || e.Restore? || e.Accept?
    ensures SameStep(s, e, byClient)
  {
    hide Bookings.Taken, Bookings.SlotAllowed;
    hide R.Scheduled, R.RescheduleNotices, R.MarkDropped;
    NoticesKeepTable(s);
  }

  lemma NoticeEnabled(s: R.State, e: Bookings.Event, byClient: bool)
    requires var b := Bookings.State(s.now, s.table); Bookings.AnswerTo(b, e) == Bookings.Done && Bookings.Enabled(b, e)
    ensures R.Enabled(s, NoticeEvent(Bookings.State(s.now, s.table), e, byClient))
  {
    hide Bookings.Taken, Bookings.SlotAllowed;
  }

  /** Both models let the bot restore and accept, and the master cancel and delete, in the same states. */
  lemma SameGuards(s: R.State, ctx: Bookings.Context, id: string, start: int)
    ensures var b := Bookings.State(s.now, s.table);
            && (R.Enabled(s, R.BotRestore(id)) <==> Bookings.AnswerTo(b, Bookings.Restore(id)) == Bookings.Done)
            && (R.Enabled(s, R.BotAccept(id, start)) <==> Bookings.AnswerTo(b, Bookings.Accept(id, start)) == Bookings.Done)
            && (R.Enabled(s, R.Cancel(id)) <==> Bookings.AnswerTo(b, Bookings.Cancel(ctx, id, Bookings.Master)) == Bookings.Done)
            && (R.Enabled(s, R.Remove(id)) <==> Bookings.AnswerTo(b, Bookings.Remove(id)) == Bookings.Done)
  {}

  // Notices change rows and queue only.
  lemma NoticesKeepTable(s: R.State)
    ensures forall t, id, start, byClient ::
              var n := R.Scheduled(s.(table := t), id, start, byClient); n.table == t && n.now == s.now
    ensures forall t, id, start ::
              var n := R.RescheduleNotices(s.(table := t), id, start); n.table == t && n.now == s.now
    ensures forall t, id ::
              var n := R.CancelNotices(s.(table := t), id); n.table == t && n.now == s.now
    ensures forall id, mark :: R.Cleanup(s, id, mark).now == s.now
    ensures forall t, id, start ::
              var n := R.Scheduled(R.MarkDropped(s, id).(table := t), id, start, false); n.table == t && n.now == s.now
  {}

  /** An accepted date override is a step of the reminder model and leaves the same bookings. */
  lemma OverrideIsNoticeStep(s: R.State, z: Zone, date: string, day: int, req: DateOverride.Request, cancels: seq<string>)
    requires DateOverride.Verdict(s.table, z, date, day, req) == DateOverride.Saved
    requires forall id :: id in cancels <==> id in DateOverride.CancelIds(req) * DateOverride.DayBookings(s.table, z, day).Keys
    ensures forall r :: r in req.reassignments ==> IsSlotTime(r.to)
    ensures var e := R.Override(DateOverride.Starts(z, day, req.reassignments), cancels);
            && R.Enabled(s, e)
            && CancelAll(MovedTable(s.table, e.moves), R.Ids(cancels)) == DateOverride.NewTable(s.table, z, date, day, req)
  {
    hide DateOverride.Verdict, DateOverride.NextSlots, DateOverride.DayBookings, MovedTable, IsSlotTime, Build, Minutes;
    DateOverride.SavedMeans(s.table, z, date, day, req);
    DayBookingsAreActive(s.table, z, day);
    assert R.Ids(cancels) == DateOverride.CancelIds(req) * DateOverride.DayBookings(s.table, z, day).Keys;
  }

  lemma DayBookingsAreActive(table: Table, z: Zone, day: int)
    ensures forall id :: id in DateOverride.DayBookings(table, z, day) ==> id in table && table[id].Active()
  {}
}
