/**
 Notification rows and the queue of delayed jobs behind them, following every change of a booking.
 Row and job of one notification share an id that is never used again.
 */
module Reminders {
  import opened Durations
  import opened Tables
  import opened Moves

  datatype Kind = Confirmation | NewBooking | Reminder24 | Reminder1 | Cancellation | CancellationMaster | Rescheduling

  datatype RowStatus = Waiting | Sent | Failed | Dropped

  datatype Row = Row(bookingId: string, kind: Kind, status: RowStatus, scheduledAt: int)

  datatype Job = Job(bookingId: string, kind: Kind, due: int)

  datatype State = State(now: int, table: Table, rows: map<nat, Row>, queue: map<nat, Job>, next: nat)

  predicate IsReminder(k: Kind) { k in {Reminder24, Reminder1} }

  // The client is still expected.
  predicate Live(b: Booking) { b.status in {Pending, Confirmed} }

  // How long before the booking a reminder goes out.
  function Lead(k: Kind): int {
    if k == Reminder24 then 24 * HOUR else HOUR
  }

  // ---------------------------------------------------------------------------
  // The notification service
  // ---------------------------------------------------------------------------

  function AddJob(s: State, id: string, kind: Kind, delay: int): State {
    s.(rows := s.rows[s.next := Row(id, kind, Waiting, s.now + delay)],
       queue := s.queue[s.next := Job(id, kind, s.now + if delay < 0 then 0 else delay)],
       next := s.next + 1)
  }

  // A reminder is only queued when it is more than a minute ahead.
  function AddReminder(s: State, id: string, kind: Kind, start: int): State {
    var delay := start - Lead(kind) - s.now;
    if delay > MINUTE then AddJob(s, id, kind, delay) else s
  }

  function AddReminders(s: State, id: string, start: int): State {
    AddReminder(AddReminder(s, id, Reminder24, start), id, Reminder1, start)
  }

  function Scheduled(s: State, id: string, start: int, byClient: bool): State {
    var s1 := AddJob(s, id, Confirmation, 0);
    var s2 := if byClient then AddJob(s1, id, NewBooking, 0) else s1;
    AddReminders(s2, id, start)
  }

  predicate WaitsFor(s: State, n: nat, id: string) {
    n in s.rows && s.rows[n].bookingId == id && s.rows[n].status == Waiting
  }

  function MarkDropped(s: State, id: string): State {
    s.(rows := map n | n in s.rows :: if WaitsFor(s, n, id) then s.rows[n].(status := Dropped) else s.rows[n])
  }

  // Jobs are found through the waiting rows of the booking.
  function JobsRemoved(s: State, id: string): State {
    s.(queue := map n | n in s.queue && !WaitsFor(s, n, id) :: s.queue[n])
  }

  function Cleanup(s: State, id: string, mark: bool): State {
    var s' := JobsRemoved(s, id);
    if mark then s'.(rows := MarkDropped(s, id).rows) else s'
  }

  function CancelNotices(s: State, id: string): State {
    AddJob(AddJob(Cleanup(s, id, true), id, Cancellation, 0), id, CancellationMaster, 0)
  }

  function RescheduleNotices(s: State, id: string, start: int): State {
    AddReminders(AddJob(Cleanup(s, id, true), id, Rescheduling, 0), id, start)
  }

  // ---------------------------------------------------------------------------
  // Steps
  // ---------------------------------------------------------------------------

  datatype Event =
    | Create(id: string, booking: Booking, byClient: bool)
    | Reschedule(id: string, start: int, clientId: string)
    | Cancel(id: string)
    | Edit(id: string, booking: Booking)
    | Remove(id: string)
    | Override(moves: seq<Move<int>>, cancels: seq<string>)
    | BotReject(id: string)
    | BotRestore(id: string)
    | Deliver(job: nat, result: RowStatus)
    | Tick(later: nat)
    | BotAccept(id: string, start: int)

  function WithStatus(s: State, id: string, status: Status): State
    requires id in s.table
  {
    s.(table := s.table[id := s.table[id].(status := status)])
  }

  function Revived(status: Status): Status {
    if status == Cancelled then Confirmed else status
  }

  function MoveNotices(s: State, moves: seq<Move<int>>): State
    decreases |moves|
  {
    if moves == [] then s else MoveNotices(RescheduleNotices(s, moves[0].id, moves[0].to), moves[1..])
  }

  function AllCancelNotices(s: State, ids: seq<string>): State
    decreases |ids|
  {
    if ids == [] then s else AllCancelNotices(CancelNotices(s, ids[0]), ids[1..])
  }

  function Ids(ids: seq<string>): set<string> {
    set id | id in ids
  }

  // First all rows of the booking table, then the notices of the moves, then those of the cancels.
  function Overridden(s: State, moves: seq<Move<int>>, cancels: seq<string>): State
    requires forall m :: m in moves ==> m.id in s.table
  {
    var s1 := s.(table := CancelAll(MovedTable(s.table, moves), Ids(cancels)));
    AllCancelNotices(MoveNotices(s1, moves), cancels)
  }

  ghost predicate Enabled(s: State, e: Event) {
    match e
    case Create(id, b, _) => id !in s.table && b.Active()
    case Reschedule(id, _, _) => id in s.table && s.table[id].status !in {Completed, NoShow}
    case Cancel(id) => id in s.table
    case Edit(id, b) => id in s.table && b.start == s.table[id].start && (Live(b) ==> Live(s.table[id]))
    case Remove(id) => id in s.table
    case Override(moves, cancels) =>
      (forall m :: m in moves ==> m.id in s.table && s.table[m.id].Active()) && forall id :: id in cancels ==> id in s.table
    case BotReject(id) => id in s.table && s.table[id].status == Pending
    case BotRestore(id) => id in s.table && s.table[id].status == Cancelled && s.now <= s.table[id].start
    case Deliver(n, result) => n in s.queue && s.queue[n].due <= s.now && result != Waiting
    case Tick(_) => true
    case BotAccept(id, _) => id in s.table
  }

  ghost function Step(s: State, e: Event): State
    requires Enabled(s, e)
  {
    match e
    case Create(id, b, byClient) => Scheduled(s.(table := s.table[id := b]), id, b.start, byClient)
    case Reschedule(id, start, clientId) =>
      var b := MovedTo(s.table[id], start).(status := Revived(s.table[id].status), clientId := clientId);
      RescheduleNotices(s.(table := s.table[id := b]), id, start)
    case Cancel(id) => CancelNotices(WithStatus(s, id, Cancelled), id)
    // Any change that keeps the start and revives nothing: status, service, duration. It sends no notices.
    case Edit(id, b) => s.(table := s.table[id := b])
    case Remove(id) =>
      var s' := Cleanup(s, id, false);
      s'.(table := s.table - {id}, rows := map n | n in s.rows && s.rows[n].bookingId != id :: s.rows[n])
    case Override(moves, cancels) => Overridden(s, moves, cancels)
    case BotReject(id) => CancelNotices(WithStatus(s, id, Cancelled), id)
    case BotRestore(id) => Scheduled(WithStatus(s, id, Confirmed), id, s.table[id].start, false)
    case Deliver(n, result) =>
      s.(queue := s.queue - {n}, rows := if n in s.rows then s.rows[n := s.rows[n].(status := result)] else s.rows)
    case Tick(later) => s.(now := s.now + later)
    // The rows are marked, the jobs stay.
    case BotAccept(id, start) =>
      var b := MovedTo(s.table[id], start).(status := Confirmed);
      Scheduled(MarkDropped(s, id).(table := s.table[id := b]), id, start, false)
  }

  ghost predicate Runnable(s: State, es: seq<Event>)
    decreases |es|
  {
    es == [] || (Enabled(s, es[0]) && Runnable(Step(s, es[0]), es[1..]))
  }

  ghost function Run(s: State, es: seq<Event>): State
    requires Runnable(s, es)
    decreases |es|
  {
    if es == [] then s else Run(Step(s, es[0]), es[1..])
  }
}
