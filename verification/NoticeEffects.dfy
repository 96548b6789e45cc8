/**
 Which notices each operation sends, to the kind and the millisecond, and what becomes of the rows and
 jobs there were.
 */
module NoticeEffects {
  import opened Tables
  import opened Moves
  import opened Reminders

  // A kind of notice and the instant it is due.
  datatype Notice = Notice(kind: Kind, due: int)

  /** The state with these notices added for a booking: for each a waiting row and a job under the next number. */
  function WithNotices(s: State, id: string, ns: seq<Notice>): State {
    if ns == [] then s else
      var t, n := WithNotices(s, id, ns[..|ns| - 1]), ns[|ns| - 1];
      t.(rows := t.rows[t.next := Row(id, n.kind, Waiting, n.due)],
         queue := t.queue[t.next := Job(id, n.kind, n.due)],
         next := t.next + 1)
  }

  // Rows of the booking that wait.
  predicate Waits(s: State, n: nat, id: string) {
    n in s.rows && s.rows[n].bookingId == id && s.rows[n].status == Waiting
  }

  /** The state with the booking's waiting rows dropped and their jobs gone. */
  function Swept(s: State, id: string): State {
    s.(rows := map n | n in s.rows :: if Waits(s, n, id) then s.rows[n].(status := Dropped) else s.rows[n],
       queue := map n | n in s.queue && !Waits(s, n, id) :: s.queue[n])
  }

  /** The reminders of a start: a day and an hour before, each if that is more than a minute ahead. */
  function RemindersOf(start: int, now: int): seq<Notice> {
    (if start - 86_400_000 > now + 60_000 then [Notice(Reminder24, start - 86_400_000)] else []) +
    (if start - 3_600_000 > now + 60_000 then [Notice(Reminder1, start - 3_600_000)] else [])
  }

  function Announcement(start: int, byClient: bool, now: int): seq<Notice> {
    [Notice(Confirmation, now)] + (if byClient then [Notice(NewBooking, now)] else []) + RemindersOf(start, now)
  }

  function Farewell(now: int): seq<Notice> {
    [Notice(Cancellation, now), Notice(CancellationMaster, now)]
  }

  // ---------------------------------------------------------------------------
  // The operations of the service
  // ---------------------------------------------------------------------------

  /** A notice that is overdue when added is due at once; its row keeps the time meant. */
  lemma AddJobExact(s: State, id: string, kind: Kind, delay: int)
    ensures AddJob(s, id, kind, delay) ==
            s.(rows := s.rows[s.next := Row(id, kind, Waiting, s.now + delay)],
               queue := s.queue[s.next := Job(id, kind, if delay > 0 then s.now + delay else s.now)],
               next := s.next + 1)
  {}

  lemma {:induction false} KeepsClock(s: State, id: string, ns: seq<Notice>)
    ensures WithNotices(s, id, ns).now == s.now
  {
    if ns != [] {
      KeepsClock(s, id, ns[..|ns| - 1]);
    }
  }

  lemma OneMoreNotice(s: State, id: string, ns: seq<Notice>, n: Notice)
    requires n.due >= s.now
    ensures AddJob(WithNotices(s, id, ns), id, n.kind, n.due - s.now) == WithNotices(s, id, ns + [n])
  {
    KeepsClock(s, id, ns);
    assert (ns + [n])[..|ns|] == ns;
  }

  lemma RemindersAdd(s: State, id: string, ns: seq<Notice>, start: int)
    ensures AddReminders(WithNotices(s, id, ns), id, start) == WithNotices(s, id, ns + RemindersOf(start, s.now))
  {
    hide WithNotices, AddJob;
    KeepsClock(s, id, ns);
    var day, hour := Notice(Reminder24, start - 86_400_000), Notice(Reminder1, start - 3_600_000);
    if start - 86_400_000 > s.now + 60_000 {
      OneMoreNotice(s, id, ns, day);
      KeepsClock(s, id, ns + [day]);
      if start - 3_600_000 > s.now + 60_000 {
        OneMoreNotice(s, id, ns + [day], hour);
        assert ns + [day] + [hour] == ns + RemindersOf(start, s.now);
      }
    } else if start - 3_600_000 > s.now + 60_000 {
      OneMoreNotice(s, id, ns, hour);
      assert ns + [hour] == ns + RemindersOf(start, s.now);
    } else {
      assert ns == ns + RemindersOf(start, s.now);
    }
  }

  /** A new booking: a confirmation, a notice to the master if the client made it, and the reminders. */
  lemma ScheduledExact(s: State, id: string, start: int, byClient: bool)
    ensures Scheduled(s, id, start, byClient) == WithNotices(s, id, Announcement(start, byClient, s.now))
  {
    hide AddJob, AddReminders;
    var first := [Notice(Confirmation, s.now)];
    OneMoreNotice(s, id, [], first[0]);
    assert [] + first == first;
    if byClient {
      OneMoreNotice(s, id, first, Notice(NewBooking, s.now));
      RemindersAdd(s, id, first + [Notice(NewBooking, s.now)], start);
    } else {
      RemindersAdd(s, id, first, start);
      assert first + [] == first;
    }
  }

  lemma CleanupIsSwept(s: State, id: string)
    ensures Cleanup(s, id, true) == Swept(s, id)
  {}

  /** A cancelled booking: what waited is dropped, and client and master are told. */
  lemma CancelExact(s: State, id: string)
    ensures CancelNotices(s, id) == WithNotices(Swept(s, id), id, Farewell(s.now))
  {
    hide AddJob, Cleanup, Swept;
    CleanupIsSwept(s, id);
    SweepKeepsClock(s, id);
    var s1 := Swept(s, id);
    OneMoreNotice(s1, id, [], Notice(Cancellation, s.now));
    assert [] + [Notice(Cancellation, s.now)] == [Notice(Cancellation, s.now)];
    OneMoreNotice(s1, id, [Notice(Cancellation, s.now)], Notice(CancellationMaster, s.now));
    assert [Notice(Cancellation, s.now)] + [Notice(CancellationMaster, s.now)] == Farewell(s.now);
  }

  lemma SweepKeepsClock(s: State, id: string)
    ensures Swept(s, id).now == s.now
  {}

  /** A moved booking: what waited is dropped, the client is told, and the new start has its reminders. */
  lemma RescheduleExact(s: State, id: string, start: int)
    ensures RescheduleNotices(s, id, start) ==
            WithNotices(Swept(s, id), id, [Notice(Rescheduling, s.now)] + RemindersOf(start, s.now))
  {
    hide AddJob, Cleanup, Swept, AddReminders;
    CleanupIsSwept(s, id);
    SweepKeepsClock(s, id);
    var s1 := Swept(s, id);
    OneMoreNotice(s1, id, [], Notice(Rescheduling, s.now));
    assert [] + [Notice(Rescheduling, s.now)] == [Notice(Rescheduling, s.now)];
    RemindersAdd(s1, id, [Notice(Rescheduling, s.now)], start);
  }

  // ---------------------------------------------------------------------------
  // The steps
  // ---------------------------------------------------------------------------

  function Row1(s: State, id: string, b: Booking): State {
    s.(table := s.table[id := b])
  }

  /** Steps about one booking that tell somebody. */
  lemma TellingSteps(s: State, e: Event)
    requires Enabled(s, e)
    ensures e.Create? ==> Step(s, e) == WithNotices(Row1(s, e.id, e.booking), e.id, Announcement(e.booking.start, e.byClient, s.now))
    ensures e.Cancel? || e.BotReject? ==>
              Step(s, e) == WithNotices(Swept(Row1(s, e.id, s.table[e.id].(status := Cancelled)), e.id), e.id, Farewell(s.now))
    ensures e.BotRestore? ==>
              Step(s, e) == WithNotices(Row1(s, e.id, s.table[e.id].(status := Confirmed)), e.id,
                                        Announcement(s.table[e.id].start, false, s.now))
    ensures e.Reschedule? ==>
              var was := s.table[e.id];
              var b := Booking(e.clientId, was.serviceId, e.start, e.start + was.duration * 60_000, was.duration, was.price,
                               if was.status == Cancelled then Confirmed else was.status);
              Step(s, e) == WithNotices(Swept(Row1(s, e.id, b), e.id), e.id,
                                        [Notice(Rescheduling, s.now)] + RemindersOf(e.start, s.now))
  {
    hide WithNotices, Swept, Scheduled, CancelNotices, RescheduleNotices, RemindersOf, Announcement;
    if e.Create? {
      ScheduledExact(Row1(s, e.id, e.booking), e.id, e.booking.start, e.byClient);
    } else if e.Cancel? || e.BotReject? {
      CancelExact(Row1(s, e.id, s.table[e.id].(status := Cancelled)), e.id);
    } else if e.BotRestore? {
      ScheduledExact(Row1(s, e.id, s.table[e.id].(status := Confirmed)), e.id, s.table[e.id].start, false);
    } else if e.Reschedule? {
      var was := s.table[e.id];
      var b := Booking(e.clientId, was.serviceId, e.start, e.start + was.duration * 60_000, was.duration, was.price,
                       if was.status == Cancelled then Confirmed else was.status);
      RescheduleExact(Row1(s, e.id, b), e.id, e.start);
    }
  }

  /** Accepting in the bot marks the waiting rows, leaves every job, and announces the new time. */
  lemma AcceptExact(s: State, id: string, start: int)
    requires id in s.table
    ensures var was := s.table[id];
            var b := was.(start := start, end := start + was.duration * 60_000, status := Confirmed);
            Step(s, BotAccept(id, start)) ==
              WithNotices(Row1(s.(rows := Swept(s, id).rows), id, b), id, Announcement(start, false, s.now))
  {
    hide WithNotices, Scheduled, Announcement;
    var was := s.table[id];
    var b := was.(start := start, end := start + was.duration * 60_000, status := Confirmed);
    assert MarkDropped(s, id).rows == Swept(s, id).rows;
    ScheduledExact(Row1(s.(rows := Swept(s, id).rows), id, b), id, start, false);
  }

  /** Steps that tell nobody: an edit, a deletion, a delivery, time passing. */
  lemma SilentSteps(s: State, e: Event)
    requires Enabled(s, e)
    ensures e.Edit? ==> Step(s, e) == Row1(s, e.id, e.booking)
    ensures e.Remove? ==>
              Step(s, e) == s.(table := s.table - {e.id}, queue := Swept(s, e.id).queue,
                               rows := map n | n in s.rows && s.rows[n].bookingId != e.id :: s.rows[n])
    ensures e.Deliver? ==> Step(s, e).table == s.table && Step(s, e).queue == s.queue - {e.job} && Step(s, e).rows.Keys == s.rows.Keys
    ensures e.Deliver? ==> forall n :: n in s.rows ==>
              Step(s, e).rows[n] == if n == e.job then s.rows[n].(status := e.result) else s.rows[n]
    ensures e.Tick? ==> Step(s, e) == s.(now := s.now + e.later)
  {}

  /** An override: first all rows of bookings, then, move by move and cancel by cancel, the notices. */
  lemma OverrideExact(s: State, moves: seq<Move<int>>, cancels: seq<string>)
    requires Enabled(s, Override(moves, cancels))
    ensures Step(s, Override(moves, cancels)) ==
            AllCancelNotices(MoveNotices(s.(table := CancelAll(MovedTable(s.table, moves), set id | id in cancels)), moves), cancels)
  {
    hide AllCancelNotices, MoveNotices, MovedTable, CancelAll;
  }

  lemma {:induction false} MoveNoticesStep(s: State, moves: seq<Move<int>>, m: Move<int>)
    ensures MoveNotices(s, []) == s
    ensures MoveNotices(s, moves + [m]) ==
            var s1 := MoveNotices(s, moves);
            WithNotices(Swept(s1, m.id), m.id, [Notice(Rescheduling, s1.now)] + RemindersOf(m.to, s1.now))
    decreases |moves|
  {
    hide WithNotices, Swept, RescheduleNotices, RemindersOf;
    if moves == [] {
      assert ([] + [m])[1..] == [];
      assert MoveNotices(RescheduleNotices(s, m.id, m.to), []) == RescheduleNotices(s, m.id, m.to);
      RescheduleExact(s, m.id, m.to);
    } else {
      assert (moves + [m])[1..] == moves[1..] + [m];
      MoveNoticesStep(RescheduleNotices(s, moves[0].id, moves[0].to), moves[1..], m);
    }
  }

  lemma {:induction false} CancelNoticesStep(s: State, ids: seq<string>, id: string)
    ensures AllCancelNotices(s, []) == s
    ensures AllCancelNotices(s, ids + [id]) ==
            var s1 := AllCancelNotices(s, ids); WithNotices(Swept(s1, id), id, Farewell(s1.now))
    decreases |ids|
  {
    hide WithNotices, Swept, CancelNotices;
    if ids == [] {
      assert ([] + [id])[1..] == [];
      assert AllCancelNotices(CancelNotices(s, id), []) == CancelNotices(s, id);
      CancelExact(s, id);
    } else {
      assert (ids + [id])[1..] == ids[1..] + [id];
      CancelNoticesStep(CancelNotices(s, ids[0]), ids[1..], id);
    }
  }
}
