/** The booking service: each request checks and then writes the table in place. */
module BookingsService {
  import opened Durations
  import opened Wrappers
  import opened Tables
  import opened Bookings
  import opened BookingsProofs

  class BookingsService {
    var now: int
    var table: Table

    ghost function State(): (s: Bookings.State)
      reads this
    {
      Bookings.State(now, table)
    }

    constructor (now: int)
      ensures State() == Bookings.State(now, map[]) && Sound(State())
    {
      this.now, table := now, map[];
    }

    method Create(ctx: Context, r: NewBooking) returns (answer: Answer)
      requires r.id !in table
      modifies this`table
      ensures answer == CreateAnswer(old(State()), ctx, r)
      ensures State() == Step(old(State()), Event.Create(ctx, r))
      ensures old(Sound(State())) ==> Sound(State())
    {
      KeptSound(State(), Event.Create(ctx, r));
      if r.clientId.None? {
        return BadRequest;
      }
      var clientId := r.clientId.value;
      if clientId !in ctx.blocked {
        return NotFound;
      }
      if ctx.blocked[clientId] {
        return Forbidden;
      }
      if !ServiceActive(ctx, r.serviceId) {
        return NotFound;
      }
      var service := ctx.services[r.serviceId];
      if r.start.None? || r.start.value <= now || !SlotAllowed(ctx, r.start.value) {
        return BadRequest;
      }
      var start := r.start.value;
      var end := start + service.duration * MINUTE;
      if Taken(table, None, start, end) {
        return Conflict;
      }
      table := table[r.id := Booking(clientId, r.serviceId, start, end, service.duration, service.price, Pending)];
      answer := Done;
    }

    method Cancel(ctx: Context, id: string, caller: Caller) returns (answer: Answer)
      modifies this`table
      ensures answer == CancelAnswer(old(State()), ctx, id, caller)
      ensures State() == Step(old(State()), Event.Cancel(ctx, id, caller))
      ensures old(Sound(State())) ==> Sound(State())
    {
      KeptSound(State(), Event.Cancel(ctx, id, caller));
      if id !in table {
        return NotFound;
      }
      var b := table[id];
      if caller.Client? {
        if b.status !in {Pending, Confirmed} {
          return BadRequest;
        }
        if caller.clientId.Some? && b.clientId != caller.clientId.value {
          return Forbidden;
        }
        if b.start - now < ctx.windowHours * 60 * MINUTE {
          return WindowPassed;
        }
      }
      table := table[id := b.(status := Cancelled)];
      answer := Done;
    }

    // Confirming, completing and marking a no-show differ in the statuses they accept and write.
    method SetStatus(id: string, allowed: set<Status>, status: Status) returns (answer: Answer)
      modifies this`table
      ensures answer == if id !in old(table) then NotFound else if old(table)[id].status !in allowed then BadRequest else Done
      ensures table == if answer == Done then old(table)[id := old(table)[id].(status := status)] else old(table)
    {
      if id !in table {
        return NotFound;
      }
      if table[id].status !in allowed {
        return BadRequest;
      }
      table := table[id := table[id].(status := status)];
      answer := Done;
    }

    method Confirm(id: string) returns (answer: Answer)
      modifies this`table
      ensures answer == AnswerTo(old(State()), Event.Confirm(id)) && State() == Step(old(State()), Event.Confirm(id))
      ensures old(Sound(State())) ==> Sound(State())
    {
      KeptSound(State(), Event.Confirm(id));
      answer := SetStatus(id, {Pending}, Confirmed);
    }

    method Complete(id: string) returns (answer: Answer)
      modifies this`table
      ensures answer == AnswerTo(old(State()), Event.Complete(id)) && State() == Step(old(State()), Event.Complete(id))
      ensures old(Sound(State())) ==> Sound(State())
    {
      KeptSound(State(), Event.Complete(id));
      answer := SetStatus(id, {Pending, Confirmed}, Completed);
    }

    method MarkNoShow(id: string) returns (answer: Answer)
      modifies this`table
      ensures answer == AnswerTo(old(State()), Event.MarkNoShow(id)) && State() == Step(old(State()), Event.MarkNoShow(id))
      ensures old(Sound(State())) ==> Sound(State())
    {
      KeptSound(State(), Event.MarkNoShow(id));
      answer := SetStatus(id, {Pending, Confirmed}, NoShow);
    }

    method Remove(id: string) returns (answer: Answer)
      modifies this`table
      ensures answer == AnswerTo(old(State()), Event.Remove(id)) && State() == Step(old(State()), Event.Remove(id))
      ensures old(Sound(State())) ==> Sound(State())
    {
      KeptSound(State(), Event.Remove(id));
      if id !in table {
        return NotFound;
      }
      table := table - {id};
      answer := Done;
    }

    method Update(ctx: Context, id: string, newStatus: Option<Status>, newService: Option<string>) returns (answer: Answer)
      modifies this`table
      ensures answer == UpdateAnswer(old(State()), ctx, id, newStatus, newService)
      ensures State() == Step(old(State()), Event.Update(ctx, id, newStatus, newService))
      ensures old(Sound(State())) && !Unchecked(old(State()), Event.Update(ctx, id, newStatus, newService)) ==> Sound(State())
    {
      KeptSound(State(), Event.Update(ctx, id, newStatus, newService));
      if id !in table {
        return NotFound;
      }
      var b := table[id];
      var changed := b;
      if newStatus.Some? && newStatus.value != b.status {
        if newStatus.value !in {Completed, Cancelled} {
          return BadRequest;
        }
        changed := changed.(status := newStatus.value);
      }
      if newService.Some? && newService.value != b.serviceId {
        if !ServiceActive(ctx, newService.value) {
          return NotFound;
        }
        var service := ctx.services[newService.value];
        var end := b.start + service.duration * MINUTE;
        if Taken(table, Some(id), b.start, end) {
          return Conflict;
        }
        changed := changed.(serviceId := newService.value, price := service.price, duration := service.duration, end := end);
      }
      table := table[id := changed];
      answer := Done;
    }

    method Reschedule(ctx: Context, id: string, start: Option<int>, newClient: Option<string>) returns (answer: Answer)
      modifies this`table
      ensures answer == RescheduleAnswer(old(State()), ctx, id, start, newClient)
      ensures State() == Step(old(State()), Event.Reschedule(ctx, id, start, newClient))
      ensures old(Sound(State())) ==> Sound(State())
    {
      KeptSound(State(), Event.Reschedule(ctx, id, start, newClient));
      if id !in table {
        return NotFound;
      }
      var b := table[id];
      if b.status in {Completed, NoShow} || start.None? || start.value <= now || !SlotAllowed(ctx, start.value) {
        return BadRequest;
      }
      var end := start.value + b.duration * MINUTE;
      if Taken(table, Some(id), start.value, end) {
        return Conflict;
      }
      var moved := b.(start := start.value, end := end);
      if b.status == Cancelled {
        moved := moved.(status := Confirmed);
      }
      if newClient.Some? && newClient.value != b.clientId {
        if newClient.value !in ctx.blocked {
          return NotFound;
        }
        moved := moved.(clientId := newClient.value);
      }
      table := table[id := moved];
      answer := Done;
    }
  }

  lemma KeptSound(s: Bookings.State, e: Event)
    ensures Sound(s) && Enabled(s, e) && !Unchecked(s, e) ==> Sound(Step(s, e))
  {
    if Sound(s) && Enabled(s, e) && !Unchecked(s, e) {
      StepKeepsSound(s, e);
    }
  }
}
