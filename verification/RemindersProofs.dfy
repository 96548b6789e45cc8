/** In every run the queued reminders of a booking are its own, one of each kind, and due on time. */
module RemindersProofs {
  import opened Durations
  import opened Wrappers
  import opened Tables
  import opened Moves
  import opened Reminders

  function Own(q: map<nat, Job>, id: string): map<nat, Job> {
    map n | n in q && q[n].bookingId == id :: q[n]
  }

  // Every queued job has a waiting row that says the same, and belongs to a booking that exists.
  ghost predicate Matched(s: State) {
    && (forall n :: n in s.queue ==> n in s.rows && s.rows[n] == Row(s.queue[n].bookingId, s.queue[n].kind, Waiting, s.queue[n].due))
    && (forall n :: n in s.rows ==> n < s.next && s.rows[n].bookingId in s.table)
  }

  /** The jobs queued for one booking fit the booking as it stands now. */
  ghost predicate Fits(own: map<nat, Job>, b: Booking) {
    && (forall n :: n in own && IsReminder(own[n].kind) ==> b.Active() && own[n].due == b.start - Lead(own[n].kind))
    && (forall n, m :: n in own && m in own && own[n].kind == own[m].kind && IsReminder(own[n].kind) ==> n == m)
  }

  /** A live booking has every reminder that is still more than a minute ahead. */
  ghost predicate Prompt(own: map<nat, Job>, b: Booking, now: int) {
    Live(b) ==> forall k :: IsReminder(k) && b.start - Lead(k) - now > MINUTE ==> !Lacks(own, k)
  }

  ghost predicate Lacks(own: map<nat, Job>, k: Kind) {
    forall n :: n in own ==> own[n].kind != k
  }

  ghost predicate Served(own: map<nat, Job>, b: Booking, now: int) {
    Fits(own, b) && Prompt(own, b, now)
  }

  // The invariant, but for the bookings in `open`.
  ghost predicate OkExcept(s: State, open: set<string>) {
    Matched(s) && forall id :: id in s.table && id !in open ==> Served(Own(s.queue, id), s.table[id], s.now)
  }

  ghost predicate Ok(s: State) {
    OkExcept(s, {})
  }

  // ---------------------------------------------------------------------------
  // The service operations, seen per booking
  // ---------------------------------------------------------------------------

  ghost predicate OthersSame(s: State, s': State, id: string) {
    s'.table == s.table && s'.now == s.now && forall x :: x != id ==> Own(s'.queue, x) == Own(s.queue, x)
  }

  lemma OwnAfterAdd(q: map<nat, Job>, n: nat, j: Job, id: string)
    requires n !in q
    ensures n !in Own(q, id)
    ensures Own(q[n := j], id) == if id == j.bookingId then Own(q, id)[n := j] else Own(q, id)
  {}

  lemma AddJobMatched(s: State, id: string, kind: Kind, delay: nat)
    requires Matched(s) && id in s.table
    ensures Matched(AddJob(s, id, kind, delay)) && s.next !in s.queue
  {}

  lemma AddJobView(s: State, id: string, kind: Kind, delay: nat)
    requires Matched(s) && id in s.table
    ensures var s' := AddJob(s, id, kind, delay);
            && Matched(s') && OthersSame(s, s', id) && s.next !in Own(s.queue, id)
            && Own(s'.queue, id) == Own(s.queue, id)[s.next := Job(id, kind, s.now + delay)]
  {
    hide Own, Matched;
    AddJobMatched(s, id, kind, delay);
    forall x ensures Own(AddJob(s, id, kind, delay).queue, x) ==
                     if x == id then Own(s.queue, x)[s.next := Job(id, kind, s.now + delay)] else Own(s.queue, x)
    {
      OwnAfterAdd(s.queue, s.next, Job(id, kind, s.now + delay), x);
    }
    OwnAfterAdd(s.queue, s.next, Job(id, kind, s.now + delay), id);
  }

  lemma CleanupView(s: State, id: string)
    requires Matched(s)
    ensures var s' := Cleanup(s, id, true);
            Matched(s') && OthersSame(s, s', id) && Own(s'.queue, id) == map[]
  {
    var s' := Cleanup(s, id, true);
    forall x ensures Own(s'.queue, x) == if x == id then map[] else Own(s.queue, x) {}
  }

  lemma AddReminderView(s: State, id: string, kind: Kind, start: int)
    requires Matched(s) && id in s.table && IsReminder(kind)
    requires Fits(Own(s.queue, id), s.table[id]) && Lacks(Own(s.queue, id), kind)
    requires s.table[id].Active() && s.table[id].start == start
    ensures var s' := AddReminder(s, id, kind, start);
            && Matched(s') && OthersSame(s, s', id) && Fits(Own(s'.queue, id), s.table[id])
            && (forall k :: k != kind ==> Lacks(Own(s'.queue, id), k) == Lacks(Own(s.queue, id), k))
            && (start - Lead(kind) - s.now > MINUTE ==> !Lacks(Own(s'.queue, id), kind))
  {
    hide Own, Matched, Fits, Lacks, AddJob;
    var delay := start - Lead(kind) - s.now;
    if delay > MINUTE {
      AddJobView(s, id, kind, delay);
      OneMoreFits(Own(s.queue, id), s.table[id], s.next, Job(id, kind, s.now + delay));
    }
  }

  // A reminder of a kind not queued so far, due on time, still fits.
  lemma OneMoreFits(own: map<nat, Job>, b: Booking, n: nat, j: Job)
    requires Fits(own, b) && n !in own && Lacks(own, j.kind) && b.Active() && j.due == b.start - Lead(j.kind)
    ensures Fits(own[n := j], b)
    ensures !Lacks(own[n := j], j.kind)
    ensures forall k :: k != j.kind ==> Lacks(own[n := j], k) == Lacks(own, k)
  {
    assert own[n := j][n] == j;
    forall k | k != j.kind ensures Lacks(own[n := j], k) == Lacks(own, k) {
      assert forall m :: m in own ==> own[n := j][m] == own[m];
    }
  }

  lemma AddRemindersView(s: State, id: string, start: int)
    requires Matched(s) && id in s.table
    requires Fits(Own(s.queue, id), s.table[id]) && Lacks(Own(s.queue, id), Reminder24) && Lacks(Own(s.queue, id), Reminder1)
    requires s.table[id].Active() && s.table[id].start == start
    ensures var s' := AddReminders(s, id, start);
            Matched(s') && OthersSame(s, s', id) && Served(Own(s'.queue, id), s.table[id], s.now)
  {
    hide Own, Matched, AddReminder, Fits, Lacks;
    AddReminderView(s, id, Reminder24, start);
    AddReminderView(AddReminder(s, id, Reminder24, start), id, Reminder1, start);
  }

  ghost predicate NoReminder(own: map<nat, Job>) {
    forall n :: n in own ==> !IsReminder(own[n].kind)
  }

  // An immediate notice is not a reminder.
  lemma AddNoticeView(s: State, id: string, kind: Kind)
    requires Matched(s) && id in s.table && !IsReminder(kind)
    ensures var s' := AddJob(s, id, kind, 0);
            && Matched(s') && OthersSame(s, s', id)
            && (NoReminder(Own(s.queue, id)) ==> NoReminder(Own(s'.queue, id)))
  {
    AddJobView(s, id, kind, 0);
  }

  lemma NoReminderFits(own: map<nat, Job>, b: Booking)
    requires NoReminder(own)
    ensures Fits(own, b) && Lacks(own, Reminder24) && Lacks(own, Reminder1)
    ensures !b.Active() ==> forall now :: Served(own, b, now)
  {}

  lemma ScheduledView(s: State, id: string, start: int, byClient: bool)
    requires Matched(s) && id in s.table && NoReminder(Own(s.queue, id))
    requires s.table[id].Active() && s.table[id].start == start
    ensures var s' := Scheduled(s, id, start, byClient);
            Matched(s') && OthersSame(s, s', id) && Served(Own(s'.queue, id), s.table[id], s.now)
  {
    hide Own, Matched, AddReminders, AddJob, Fits, Lacks, Prompt, NoReminder;
    AddNoticeView(s, id, Confirmation);
    var s1 := AddJob(s, id, Confirmation, 0);
    if byClient {
      AddNoticeView(s1, id, NewBooking);
    }
    var s2 := if byClient then AddJob(s1, id, NewBooking, 0) else s1;
    NoReminderFits(Own(s2.queue, id), s.table[id]);
    AddRemindersView(s2, id, start);
  }

  lemma RescheduleView(s: State, id: string, start: int)
    requires Matched(s) && id in s.table
    ensures var s' := RescheduleNotices(s, id, start);
            && Matched(s') && OthersSame(s, s', id)
            && (s.table[id].Active() && s.table[id].start == start ==> Served(Own(s'.queue, id), s.table[id], s.now))
  {
    hide Own, Matched, AddReminders, AddJob, Fits, Lacks, Prompt, NoReminder, Cleanup;
    CleanupView(s, id);
    var s1 := Cleanup(s, id, true);
    EmptyHasNoReminder();
    AddNoticeView(s1, id, Rescheduling);
    var s2 := AddJob(s1, id, Rescheduling, 0);
    NoReminderFits(Own(s2.queue, id), s.table[id]);
    if s.table[id].Active() && s.table[id].start == start {
      AddRemindersView(s2, id, start);
    } else {
      AnyRemindersView(s2, id, start);
    }
  }

  lemma EmptyHasNoReminder()
    ensures NoReminder(map[])
  {}

  // Reminders for a start the booking does not have (yet) still leave the others alone.
  lemma AnyRemindersView(s: State, id: string, start: int)
    requires Matched(s) && id in s.table
    ensures var s' := AddReminders(s, id, start); Matched(s') && OthersSame(s, s', id)
  {
    hide Own, Matched;
    AnyReminderView(s, id, Reminder24, start);
    AnyReminderView(AddReminder(s, id, Reminder24, start), id, Reminder1, start);
  }

  lemma AnyReminderView(s: State, id: string, kind: Kind, start: int)
    requires Matched(s) && id in s.table
    ensures var s' := AddReminder(s, id, kind, start); Matched(s') && OthersSame(s, s', id)
  {
    hide Own, Matched, AddJob;
    var delay := start - Lead(kind) - s.now;
    if delay > MINUTE {
      AddJobView(s, id, kind, delay);
    }
  }

  lemma CancelView(s: State, id: string)
    requires Matched(s) && id in s.table
    ensures var s' := CancelNotices(s, id);
            Matched(s') && OthersSame(s, s', id) && NoReminder(Own(s'.queue, id))
  {
    hide Own, Matched, AddJob, NoReminder, Cleanup;
    CleanupView(s, id);
    EmptyHasNoReminder();
    var s1 := Cleanup(s, id, true);
    AddNoticeView(s1, id, Cancellation);
    AddNoticeView(AddJob(s1, id, Cancellation, 0), id, CancellationMaster);
  }

  // ---------------------------------------------------------------------------
  // Steps
  // ---------------------------------------------------------------------------

  lemma Close(s: State, s': State, id: string, open: set<string>)
    requires OkExcept(s, open + {id}) && Matched(s') && OthersSame(s, s', id)
    requires id in s.table && Served(Own(s'.queue, id), s.table[id], s.now)
    ensures OkExcept(s', open)
    ensures OkExcept(s', open - {id})
  {}

  // A step that leaves some bookings' reminders to be redone.
  lemma StillOpen(s: State, s': State, id: string, open: set<string>)
    requires OkExcept(s, open) && Matched(s') && OthersSame(s, s', id) && id in open
    ensures OkExcept(s', open)
  {}

  // The table already shows the final starts; the notices catch up one move at a time.
  lemma {:induction false} MoveNoticesOk(s: State, moves: seq<Move<int>>, open: set<string>)
    requires OkExcept(s, MovedIds(moves) + open)
    requires forall m :: m in moves ==> m.id in s.table
    requires forall m :: m in moves && m.id !in open ==>
               s.table[m.id].Active() && LastFor(moves, m.id) == Some(s.table[m.id].start)
    ensures OkExcept(MoveNotices(s, moves), open) && MoveNotices(s, moves).table == s.table
    decreases |moves|
  {
    if moves != [] {
      hide OkExcept, RescheduleNotices, LastFor, MovedIds;
      var m, rest := moves[0], moves[1..];
      RestOfMoves(moves);
      assert MovedIds(moves) + open == MovedIds(rest) + open + {m.id};
      LastForFound(rest, m.id);
      OneMoveOk(s, m, MovedIds(rest) + open);
      forall x | x in rest && x.id !in open ensures LastFor(rest, x.id) == Some(s.table[x.id].start) {
        assert LastFor(moves, x.id) == Some(s.table[x.id].start);
      }
      MoveNoticesOk(RescheduleNotices(s, m.id, m.to), rest, open);
    }
  }

  lemma RestOfMoves(moves: seq<Move<int>>)
    requires moves != []
    ensures moves[0] in moves && MovedIds(moves) == MovedIds(moves[1..]) + {moves[0].id}
    ensures forall x :: x in moves[1..] ==> x in moves && LastFor(moves, x.id) == LastFor(moves[1..], x.id)
    ensures moves[0].id !in MovedIds(moves[1..]) ==> LastFor(moves, moves[0].id) == Some(moves[0].to)
  {
    hide LastFor;
    assert moves == [moves[0]] + moves[1..];
    LastForTail(moves, moves[0].id);
    LastForFound(moves[1..], moves[0].id);
    forall x | x in moves[1..] ensures x in moves && LastFor(moves, x.id) == LastFor(moves[1..], x.id) {
      LastForTail(moves, x.id);
      LastForFound(moves[1..], x.id);
    }
  }

  // The notices of one move. A booking still in `left` is taken care of later.
  lemma OneMoveOk(s: State, m: Move<int>, left: set<string>)
    requires OkExcept(s, left + {m.id}) && m.id in s.table
    requires m.id !in left ==> s.table[m.id].Active() && s.table[m.id].start == m.to
    ensures OkExcept(RescheduleNotices(s, m.id, m.to), left) && RescheduleNotices(s, m.id, m.to).table == s.table
  {
    hide Own, Fits, Prompt, RescheduleNotices, Matched;
    var s' := RescheduleNotices(s, m.id, m.to);
    RescheduleView(s, m.id, m.to);
    if m.id in left {
      assert left + {m.id} == left;
      StillOpen(s, s', m.id, left);
    } else {
      Close(s, s', m.id, left);
    }
  }

  lemma {:induction false} AllCancelNoticesOk(s: State, ids: seq<string>)
    requires OkExcept(s, Ids(ids))
    requires forall id :: id in ids ==> id in s.table && !s.table[id].Active()
    ensures Ok(AllCancelNotices(s, ids))
    decreases |ids|
  {
    if ids == [] {
      assert Ids(ids) == {};
    } else {
      hide Own, Fits, Prompt, CancelNotices, Matched;
      assert ids == [ids[0]] + ids[1..];
      var s' := CancelNotices(s, ids[0]);
      CancelView(s, ids[0]);
      NoReminderFits(Own(s'.queue, ids[0]), s.table[ids[0]]);
      assert Ids(ids) == Ids(ids[1..]) + {ids[0]};
      Close(s, s', ids[0], Ids(ids[1..]));
      AllCancelNoticesOk(s', ids[1..]);
    }
  }

  lemma OverrideOk(s: State, moves: seq<Move<int>>, cancels: seq<string>)
    requires Ok(s) && Enabled(s, Override(moves, cancels))
    ensures Ok(Overridden(s, moves, cancels))
  {
    hide Own, Fits, Prompt, Matched, MoveNotices, AllCancelNotices, MovedTable, LastFor;
    var s1 := s.(table := CancelAll(MovedTable(s.table, moves), Ids(cancels)));
    var open := Ids(cancels);
    SameKeysMatched(s, s1.table);
    forall id | id in s1.table && id !in MovedIds(moves) + open ensures s1.table[id] == s.table[id] {
      MovedTableRow(s.table, moves, id);
      LastForFound(moves, id);
    }
    forall m | m in moves && m.id !in open
      ensures s1.table[m.id].Active() && LastFor(moves, m.id) == Some(s1.table[m.id].start)
    {
      MovedTableRow(s.table, moves, m.id);
      LastForFound(moves, m.id);
    }
    assert OkExcept(s1, MovedIds(moves) + open);
    MoveNoticesOk(s1, moves, open);
    AllCancelNoticesOk(MoveNotices(s1, moves), cancels);
  }

  lemma SameKeysMatched(s: State, table: Table)
    requires Matched(s) && table.Keys == s.table.Keys
    ensures Matched(s.(table := table))
  {}

  // The steps the reminder property covers: all but accepting in the bot and cancelling without notices.
  predicate Tracked(s: State, e: Event) {
    !e.BotAccept? && (e.Edit? && e.id in s.table && s.table[e.id].Active() ==> e.booking.Active())
  }

  ghost predicate TrackedRun(s: State, es: seq<Event>)
    requires Runnable(s, es)
    decreases |es|
  {
    es == [] || (Tracked(s, es[0]) && TrackedRun(Step(s, es[0]), es[1..]))
  }

  lemma OneBookingOk(s: State, e: Event)
    requires Ok(s) && Enabled(s, e) && (e.Create? || e.Reschedule? || e.BotRestore?)
    ensures Ok(Step(s, e))
  {
    hide Own, Fits, Prompt, Cleanup, AddJob, AddReminder, NoReminder, CancelNotices, RescheduleNotices, Scheduled;
    if e.Create? {
      var id, b, byClient := e.id, e.booking, e.byClient;
      NewBookingHasNoJobs(s, id, b);
      var s1 := s.(table := s.table[id := b]);
      ScheduledView(s1, id, b.start, byClient);
      Close(s1, Step(s, e), id, {});
    } else if e.Reschedule? {
      var id, start := e.id, e.start;
      var b := MovedTo(s.table[id], start).(status := Revived(s.table[id].status), clientId := e.clientId);
      var s1 := s.(table := s.table[id := b]);
      assert OkExcept(s1, {id});
      RescheduleView(s1, id, start);
      Close(s1, Step(s, e), id, {});
    } else {
      var id := e.id;
      var s1 := WithStatus(s, id, Confirmed);
      assert OkExcept(s1, {id});
      CancelledHasNoReminder(s, id);
      ScheduledView(s1, id, s.table[id].start, false);
      Close(s1, Step(s, e), id, {});
    }
  }

  lemma CancelledOk(s: State, id: string)
    requires Ok(s) && id in s.table
    ensures Ok(CancelNotices(WithStatus(s, id, Cancelled), id))
  {
    hide Own, Fits, Prompt, NoReminder, CancelNotices;
    var s1 := WithStatus(s, id, Cancelled);
    var s2 := CancelNotices(s1, id);
    assert OkExcept(s1, {id});
    CancelView(s1, id);
    NoReminderFits(Own(s2.queue, id), s1.table[id]);
    Close(s1, s2, id, {});
  }

  lemma NewBookingHasNoJobs(s: State, id: string, b: Booking)
    requires Ok(s) && id !in s.table
    ensures OkExcept(s.(table := s.table[id := b]), {id}) && NoReminder(Own(s.queue, id))
  {}

  lemma CancelledHasNoReminder(s: State, id: string)
    requires Ok(s) && id in s.table && !s.table[id].Active()
    ensures NoReminder(Own(s.queue, id))
  {}

  lemma RemoveOk(s: State, id: string)
    requires Ok(s) && id in s.table
    ensures Ok(Step(s, Remove(id)))
  {
    hide Fits, Own, Prompt;
    RemovedMatched(s, id);
    forall x | x != id ensures Own(Step(s, Remove(id)).queue, x) == Own(s.queue, x) {
      CleanupView(s, id);
    }
  }

  lemma RemovedMatched(s: State, id: string)
    requires Matched(s) && id in s.table
    ensures Matched(Step(s, Remove(id)))
  {}

  lemma DeliverOk(s: State, n: nat, result: RowStatus)
    requires Ok(s) && Enabled(s, Deliver(n, result))
    ensures Ok(Step(s, Deliver(n, result)))
  {
    hide Fits, Own, Prompt;
    var s' := Step(s, Deliver(n, result));
    forall x | x in s'.table ensures Served(Own(s'.queue, x), s'.table[x], s'.now) {
      OwnAfterDelivery(s.queue, n, x);
      FewerServed(Own(s.queue, x), n, s.table[x], s.now);
    }
  }

  lemma OwnAfterDelivery(q: map<nat, Job>, n: nat, id: string)
    ensures Own(q - {n}, id) == Own(q, id) - {n}
    ensures n in Own(q, id) ==> n in q && Own(q, id)[n] == q[n]
  {}

  // A job that is due can go: nothing is missing that is still ahead.
  lemma FewerServed(own: map<nat, Job>, n: nat, b: Booking, now: int)
    requires Served(own, b, now) && (n in own ==> own[n].due <= now)
    ensures Served(own - {n}, b, now)
  {
    forall k | Live(b) && IsReminder(k) && b.start - Lead(k) - now > MINUTE ensures !Lacks(own - {n}, k) {
      var m :| m in own && own[m].kind == k;
      assert m in own - {n} && (own - {n})[m].kind == k;
    }
  }

  lemma LaterOk(s: State, later: nat)
    requires Ok(s)
    ensures Ok(Step(s, Tick(later)))
  {
    hide Own, Fits;
    forall id | id in s.table ensures Prompt(Own(s.queue, id), s.table[id], s.now + later) {
      assert Served(Own(s.queue, id), s.table[id], s.now);
    }
  }

  lemma EditOk(s: State, id: string, b: Booking)
    requires Ok(s) && Enabled(s, Edit(id, b)) && (s.table[id].Active() ==> b.Active())
    ensures Ok(Step(s, Edit(id, b)))
  {
    hide Own, Matched;
    SameKeysMatched(s, s.table[id := b]);
    EditServed(Own(s.queue, id), s.table[id], b, s.now);
  }

  lemma EditServed(own: map<nat, Job>, b: Booking, b': Booking, now: int)
    requires Served(own, b, now) && b'.start == b.start && (Live(b') ==> Live(b)) && (b.Active() ==> b'.Active())
    ensures Served(own, b', now)
  {}

  /** Every tracked step keeps each booking's reminders unique, on time and backed by a waiting row. */
  lemma StepKeepsOk(s: State, e: Event)
    requires Ok(s) && Enabled(s, e) && Tracked(s, e)
    ensures Ok(Step(s, e))
  {
    match e
    case Override(moves, cancels) => OverrideOk(s, moves, cancels);
    case Remove(id) => RemoveOk(s, id);
    case Deliver(n, result) => DeliverOk(s, n, result);
    case Edit(id, b) => EditOk(s, id, b);
    case Tick(later) => LaterOk(s, later);
    case Cancel(id) => CancelledOk(s, id);
    case BotReject(id) => CancelledOk(s, id);
    case _ => OneBookingOk(s, e);
  }

  lemma {:induction false} RunKeepsOk(s: State, es: seq<Event>)
    requires Ok(s) && Runnable(s, es) && TrackedRun(s, es)
    ensures Ok(Run(s, es))
    decreases |es|
  {
    if es != [] {
      StepKeepsOk(s, es[0]);
      RunKeepsOk(Step(s, es[0]), es[1..]);
    }
  }

  /** What the invariant says about a single queued reminder, in any state a run from scratch reaches. */
  lemma QueuedReminder(s: State, es: seq<Event>, n: nat)
    requires s.table == map[] && s.rows == map[] && s.queue == map[]
    requires Runnable(s, es) && TrackedRun(s, es)
    requires n in Run(s, es).queue && IsReminder(Run(s, es).queue[n].kind)
    ensures var s' := Run(s, es);
            var j := s'.queue[n];
            && j.bookingId in s'.table && s'.table[j.bookingId].Active()
            && j.due == s'.table[j.bookingId].start - Lead(j.kind)
            && n in s'.rows && s'.rows[n] == Row(j.bookingId, j.kind, Waiting, j.due)
            && forall m :: m in s'.queue && s'.queue[m].bookingId == j.bookingId && s'.queue[m].kind == j.kind ==> m == n
  {
    RunKeepsOk(s, es);
    var s' := Run(s, es);
    var own := Own(s'.queue, s'.queue[n].bookingId);
    assert n in own;
    forall m | m in s'.queue && s'.queue[m].bookingId == s'.queue[n].bookingId && s'.queue[m].kind == s'.queue[n].kind
      ensures m == n
    {
      assert m in own;
    }
  }

  /** And none is missing: a live booking has each reminder still more than a minute ahead, exactly once. */
  lemma ReminderNotMissing(s: State, es: seq<Event>, id: string, k: Kind)
    requires s.table == map[] && s.rows == map[] && s.queue == map[]
    requires Runnable(s, es) && TrackedRun(s, es)
    requires var s' := Run(s, es);
             id in s'.table && Live(s'.table[id]) && IsReminder(k) && s'.table[id].start - Lead(k) - s'.now > MINUTE
    ensures var s' := Run(s, es);
            exists n :: n in s'.queue && s'.queue[n] == Job(id, k, s'.table[id].start - Lead(k))
  {
    hide Own, Fits, Prompt, Matched;
    NothingIsOk(s);
    RunKeepsOk(s, es);
    hide Run, TrackedRun, Runnable, Ok;
    AheadIsQueued(Run(s, es), id, k);
  }

  lemma NothingIsOk(s: State)
    requires s.table == map[] && s.rows == map[] && s.queue == map[]
    ensures Ok(s)
  {}

  lemma AheadIsQueued(s: State, id: string, k: Kind)
    requires Ok(s) && id in s.table && Live(s.table[id]) && IsReminder(k) && s.table[id].start - Lead(k) - s.now > MINUTE
    ensures exists n :: n in s.queue && s.queue[n] == Job(id, k, s.table[id].start - Lead(k))
  {
    var own := Own(s.queue, id);
    assert Served(own, s.table[id], s.now);
    assert !Lacks(own, k);
    var n :| n in own && own[n].kind == k;
    assert s.queue[n] == Job(id, k, s.table[id].start - Lead(k));
  }

  // ---------------------------------------------------------------------------
  // The two steps that do not keep it, and exactly when they do
  // ---------------------------------------------------------------------------

  /** Cancelling through a plain edit is harmless exactly when no reminder was queued. */
  lemma QuietCancelExact(s: State, id: string, b: Booking)
    requires Ok(s) && Enabled(s, Edit(id, b)) && !b.Active()
    ensures Ok(Step(s, Edit(id, b))) <==> NoReminder(Own(s.queue, id))
  {
    var s' := Step(s, Edit(id, b));
    if NoReminder(Own(s.queue, id)) {
      NoReminderFits(Own(s.queue, id), b);
    } else {
      assert !Served(Own(s'.queue, id), s'.table[id], s'.now);
    }
  }

  /** It does harm whenever the client is still expected and an hour's notice is more than a minute ahead. */
  lemma QuietCancelBreaks(s: State, id: string, b: Booking)
    requires Ok(s) && Enabled(s, Edit(id, b)) && !b.Active()
    requires Live(s.table[id]) && s.table[id].start - HOUR - s.now > MINUTE
    ensures !Ok(Step(s, Edit(id, b)))
  {
    hide Step;
    ReminderQueued(s, id);
    QuietCancelExact(s, id, b);
  }

  lemma ReminderQueued(s: State, id: string)
    requires Ok(s) && id in s.table && Live(s.table[id]) && s.table[id].start - HOUR - s.now > MINUTE
    ensures !NoReminder(Own(s.queue, id)) && Own(s.queue, id) != map[]
  {
    hide Own, Fits;
    var own := Own(s.queue, id);
    assert Served(own, s.table[id], s.now);
    assert !Lacks(own, Reminder1);
    var n :| n in own && own[n].kind == Reminder1;
  }

  /** Accepting a suggested time in the bot is harmless exactly when the booking had no job queued. */
  lemma BotAcceptExact(s: State, id: string, start: int)
    requires Ok(s) && id in s.table
    ensures Ok(Step(s, BotAccept(id, start))) <==> Own(s.queue, id) == map[]
  {
    hide Step, Own, Matched, Fits, Prompt;
    if Own(s.queue, id) == map[] {
      AcceptAlone(s, id, start);
    } else {
      var n :| n in Own(s.queue, id);
      QueuedIsWaiting(s, id, n);
      AcceptStale(s, id, start, n);
    }
  }

  /** So it does harm whenever an hour's notice for the old time is more than a minute ahead. */
  lemma BotAcceptBreaks(s: State, id: string, start: int)
    requires Ok(s) && id in s.table && Live(s.table[id]) && s.table[id].start - HOUR - s.now > MINUTE
    ensures !Ok(Step(s, BotAccept(id, start)))
  {
    hide Step;
    ReminderQueued(s, id);
    BotAcceptExact(s, id, start);
  }

  lemma AcceptAlone(s: State, id: string, start: int)
    requires Ok(s) && id in s.table && Own(s.queue, id) == map[]
    ensures Ok(Step(s, BotAccept(id, start)))
  {
    hide Own, Fits, Prompt, Scheduled, Matched, NoReminder, MarkDropped;
    var b := MovedTo(s.table[id], start).(status := Confirmed);
    var s1 := MarkDropped(s, id).(table := s.table[id := b]);
    MarkedAlone(s, id, b);
    EmptyHasNoReminder();
    ScheduledView(s1, id, start, false);
    Close(s1, Scheduled(s1, id, start, false), id, {});
  }

  lemma AcceptStale(s: State, id: string, start: int, n: nat)
    requires id in s.table && n in s.queue && WaitsFor(s, n, id) && n < s.next
    ensures !Matched(Step(s, BotAccept(id, start)))
  {
    hide Scheduled, Matched;
    var b := MovedTo(s.table[id], start).(status := Confirmed);
    JobsStay(MarkDropped(s, id).(table := s.table[id := b]), id, start, n);
  }

  lemma QueuedIsWaiting(s: State, id: string, n: nat)
    requires Matched(s) && n in Own(s.queue, id)
    ensures n in s.queue && WaitsFor(s, n, id) && n < s.next
  {}

  lemma MarkedAlone(s: State, id: string, b: Booking)
    requires Ok(s) && id in s.table && Own(s.queue, id) == map[]
    ensures OkExcept(MarkDropped(s, id).(table := s.table[id := b]), {id}) && MarkDropped(s, id).queue == s.queue
  {
    hide Fits, Prompt;
    NobodyWaits(s, id);
    hide Own;
    var s1 := MarkDropped(s, id).(table := s.table[id := b]);
    assert Matched(s1);
    hide Matched, MarkDropped;
    forall x | x in s1.table && x != id ensures Served(Own(s1.queue, x), s1.table[x], s1.now) {
      assert Served(Own(s.queue, x), s.table[x], s.now);
    }
  }

  lemma NobodyWaits(s: State, id: string)
    requires Own(s.queue, id) == map[]
    ensures forall n :: n in s.queue ==> s.queue[n].bookingId != id
  {
    forall n | n in s.queue ensures s.queue[n].bookingId != id {
      assert s.queue[n].bookingId == id ==> n in Own(s.queue, id);
    }
  }

  lemma JobsStay(s: State, id: string, start: int, n: nat)
    requires n in s.queue && n in s.rows && s.rows[n].status == Dropped && n < s.next
    ensures !Matched(Scheduled(s, id, start, false))
  {
    var s' := Scheduled(s, id, start, false);
    assert n in s'.queue && s'.rows[n] == s.rows[n];
  }

  // ---------------------------------------------------------------------------
  // Both are reached
  // ---------------------------------------------------------------------------

  const EMPTY := State(0, map[], map[], map[], 0)

  // An hour-long booking 25 hours from the start of the run.
  const AHEAD := Booking("client", "service", 25 * HOUR, 26 * HOUR, 60, 0, Pending)

  lemma CreatedOk()
    ensures Enabled(EMPTY, Create("b", AHEAD, true))
    ensures var s := Step(EMPTY, Create("b", AHEAD, true));
            Ok(s) && s.table == map["b" := AHEAD] && s.now == 0
  {
    hide Own;
    StepKeepsOk(EMPTY, Create("b", AHEAD, true));
  }

  lemma RunTwo(s: State, a: Event, b: Event)
    requires Enabled(s, a) && Enabled(Step(s, a), b)
    ensures Runnable(s, [a, b]) && Run(s, [a, b]) == Step(Step(s, a), b)
  {
    hide Step, Enabled;
    var s1 := Step(s, a);
    var es := [a, b];
    var last := es[1..];
    assert last[0] == b && last[1..] == [];
    assert Runnable(Step(s1, b), []) && Run(Step(s1, b), []) == Step(s1, b);
    assert Runnable(s1, last) && Run(s1, last) == Step(s1, b);
  }

  /** From scratch: a booking is created a day and an hour ahead and then cancelled by a plain edit. */
  lemma QuietCancelReached()
    ensures var es := [Create("b", AHEAD, true), Edit("b", AHEAD.(status := Cancelled))];
            Runnable(EMPTY, es) && Ok(EMPTY) && !Ok(Run(EMPTY, es))
  {
    hide Step, Run, Runnable, Own;
    CreatedOk();
    var s := Step(EMPTY, Create("b", AHEAD, true));
    QuietCancelBreaks(s, "b", AHEAD.(status := Cancelled));
    RunTwo(EMPTY, Create("b", AHEAD, true), Edit("b", AHEAD.(status := Cancelled)));
  }

  /** From scratch: a booking is created and a suggested time for it accepted in the bot. */
  lemma BotAcceptReached()
    ensures var es := [Create("b", AHEAD, true), BotAccept("b", 30 * HOUR)];
            Runnable(EMPTY, es) && Ok(EMPTY) && !Ok(Run(EMPTY, es))
  {
    hide Step, Run, Runnable, Own;
    CreatedOk();
    var s := Step(EMPTY, Create("b", AHEAD, true));
    BotAcceptBreaks(s, "b", 30 * HOUR);
    RunTwo(EMPTY, Create("b", AHEAD, true), BotAccept("b", 30 * HOUR));
  }
}
