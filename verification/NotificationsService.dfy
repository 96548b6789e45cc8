/** The notification service: rows and delayed jobs added, found again and removed, one after another. */
module NotificationsService {
  import opened Tables
  import opened Reminders

  class NotificationsService {
    var now: int
    var table: Table
    var rows: map<nat, Row>
    var queue: map<nat, Job>
    var next: nat

    ghost function State(): (s: Reminders.State)
      reads this
    {
      Reminders.State(now, table, rows, queue, next)
    }

    constructor (now: int, table: Table)
      ensures State() == Reminders.State(now, table, map[], map[], 0)
    {
      this.now, this.table, rows, queue, next := now, table, map[], map[], 0;
    }

    method AddNotificationJob(id: string, kind: Kind, delay: int)
      modifies this`rows, this`queue, this`next
      ensures State() == AddJob(old(State()), id, kind, delay)
    {
      var notification := next;
      next := next + 1;
      rows := rows[notification := Row(id, kind, Waiting, now + delay)];
      queue := queue[notification := Job(id, kind, now + if delay < 0 then 0 else delay)];
    }

    method CleanupPendingNotifications(id: string, markCancelled: bool) returns (pending: set<nat>)
      modifies this`rows, this`queue
      ensures pending == set n | n in old(rows) && WaitsFor(old(State()), n, id)
      ensures State() == Cleanup(old(State()), id, markCancelled)
    {
      hide WaitsFor, MarkDropped, JobsRemoved;
      PendingAre(State(), id);
      pending := set n | n in rows && rows[n].bookingId == id && rows[n].status == Waiting;
      MarksAre(State(), id, pending);
      RemovalsAre(State(), id, pending);
      RemoveJobs(pending);
      if markCancelled && pending != {} {
        rows := map n | n in rows :: if n in pending then rows[n].(status := Dropped) else rows[n];
      }
    }

    method RemoveJobs(pending: set<nat>)
      modifies this`queue
      ensures queue == map n | n in old(queue) && n !in pending :: old(queue)[n]
    {
      var left := pending;
      while left != {}
        invariant left <= pending
        invariant queue == map n | n in old(queue) && n !in pending - left :: old(queue)[n]
        decreases |left|
      {
        var n :| n in left;
        // The job may be gone already.
        if n in queue {
          queue := queue - {n};
        }
        left := left - {n};
      }
      assert pending - left == pending;
    }

    method ScheduleBookingNotifications(id: string, start: int, byClient: bool)
      modifies this`rows, this`queue, this`next
      ensures State() == Scheduled(old(State()), id, start, byClient)
    {
      hide AddJob;
      AddNotificationJob(id, Confirmation, 0);
      if byClient {
        AddNotificationJob(id, NewBooking, 0);
      }
      ScheduleReminders(id, start);
    }

    method ScheduleReminders(id: string, start: int)
      modifies this`rows, this`queue, this`next
      ensures State() == AddReminders(old(State()), id, start)
    {
      var delay24h := start - 24 * 60 * 60 * 1000 - now;
      if delay24h > 60000 {
        AddNotificationJob(id, Reminder24, delay24h);
      }
      var delay1h := start - 1 * 60 * 60 * 1000 - now;
      if delay1h > 60000 {
        AddNotificationJob(id, Reminder1, delay1h);
      }
    }

    method CancelBookingNotifications(id: string)
      modifies this`rows, this`queue, this`next
      ensures State() == CancelNotices(old(State()), id)
    {
      hide AddJob, Cleanup;
      var _ := CleanupPendingNotifications(id, true);
      AddNotificationJob(id, Cancellation, 0);
      AddNotificationJob(id, CancellationMaster, 0);
    }

    method RescheduleBookingNotifications(id: string, start: int)
      modifies this`rows, this`queue, this`next
      ensures State() == RescheduleNotices(old(State()), id, start)
    {
      hide AddJob, Cleanup, AddReminders;
      var _ := CleanupPendingNotifications(id, true);
      AddNotificationJob(id, Rescheduling, 0);
      ScheduleReminders(id, start);
    }

    method SilentlyRemoveBookingJobs(id: string)
      modifies this`rows, this`queue
      ensures State() == Cleanup(old(State()), id, false)
    {
      var _ := CleanupPendingNotifications(id, false);
    }
  }

  lemma PendingAre(s: State, id: string)
    ensures (set n | n in s.rows && s.rows[n].bookingId == id && s.rows[n].status == Waiting) == set n | n in s.rows && WaitsFor(s, n, id)
  {}

  lemma MarksAre(s: State, id: string, pending: set<nat>)
    requires pending == set n | n in s.rows && WaitsFor(s, n, id)
    ensures MarkDropped(s, id).rows == map n | n in s.rows :: if n in pending then s.rows[n].(status := Dropped) else s.rows[n]
    ensures pending == {} ==> MarkDropped(s, id).rows == s.rows
  {
    hide WaitsFor;
    forall n | n in s.rows ensures n in pending <==> WaitsFor(s, n, id) {}
  }

  lemma RemovalsAre(s: State, id: string, pending: set<nat>)
    requires pending == set n | n in s.rows && WaitsFor(s, n, id)
    ensures JobsRemoved(s, id) == s.(queue := map n | n in s.queue && n !in pending :: s.queue[n])
  {
    forall n ensures n in pending <==> WaitsFor(s, n, id) {}
  }
}
