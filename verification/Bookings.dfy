/** The booking service as a state machine over the booking table of one tenant. */
module Bookings {
  import opened Durations
  import opened Wrappers
  import opened Tables
  import opened Zones

  datatype Service = Service(duration: nat, price: nat, isActive: bool)

  // What a request finds in the other tables. It may differ from one request to the next.
  datatype Context = Context(zone: Zone, slotsFor: int -> seq<string>, services: map<string, Service>,
                             blocked: map<string, bool>, windowHours: int)

  datatype Answer = Done | BadRequest | NotFound | Forbidden | Conflict | WindowPassed

  // The client is absent when the caller has no profile, the start when the text is no date.
  datatype NewBooking = NewBooking(id: string, clientId: Option<string>, serviceId: string, start: Option<int>)

  datatype Caller = Master | Client(clientId: Option<string>)

  datatype Event =
    | Create(ctx: Context, request: NewBooking)
    | Cancel(ctx: Context, id: string, caller: Caller)
    | Confirm(id: string)
    | Complete(id: string)
    | MarkNoShow(id: string)
    | Remove(id: string)
    | Update(ctx: Context, id: string, newStatus: Option<Status>, newService: Option<string>)
    | Reschedule(ctx: Context, id: string, start: Option<int>, newClient: Option<string>)
    | Restore(id: string)
    | Accept(id: string, suggested: int)
    | Tick(later: nat)

  datatype State = State(now: int, table: Table)

  function End(start: int, duration: nat): int {
    start + duration * MINUTE
  }

  // Some active booking other than `except` shares time with the interval.
  predicate Taken(table: Table, except: Option<string>, start: int, end: int) {
    exists id :: id in table && except != Some(id) && table[id].Active() && table[id].start < end && start < table[id].end
  }

  predicate ServiceActive(ctx: Context, id: string) {
    id in ctx.services && ctx.services[id].isActive
  }

  predicate SlotAllowed(ctx: Context, start: int) {
    FormatTime(ctx.zone, start) in ctx.slotsFor(LocalDay(ctx.zone, start))
  }

  // Every check of `create` except the one for other bookings.
  function Screen(ctx: Context, now: int, r: NewBooking): Answer {
    if r.clientId.None? then BadRequest
    else if r.clientId.value !in ctx.blocked then NotFound
    else if ctx.blocked[r.clientId.value] then Forbidden
    else if !ServiceActive(ctx, r.serviceId) then NotFound
    else if r.start.None? || r.start.value <= now then BadRequest
    else if !SlotAllowed(ctx, r.start.value) then BadRequest
    else Done
  }

  ghost function CreateAnswer(s: State, ctx: Context, r: NewBooking): Answer {
    var screened := Screen(ctx, s.now, r);
    if screened != Done then screened
    else if Taken(s.table, None, r.start.value, End(r.start.value, ctx.services[r.serviceId].duration)) then Conflict
    else Done
  }

  function BookingOf(ctx: Context, r: NewBooking): Booking
    requires r.clientId.Some? && r.start.Some? && r.serviceId in ctx.services
  {
    var service := ctx.services[r.serviceId];
    Booking(r.clientId.value, r.serviceId, r.start.value, End(r.start.value, service.duration),
            service.duration, service.price, Pending)
  }

  function CancelAnswer(s: State, ctx: Context, id: string, caller: Caller): Answer {
    if id !in s.table then NotFound
    else if caller.Master? then Done
    else
      var b := s.table[id];
      if b.status !in {Pending, Confirmed} then BadRequest
      else if caller.clientId.Some? && b.clientId != caller.clientId.value then Forbidden
      else if b.start - s.now < ctx.windowHours * 60 * MINUTE then WindowPassed
      else Done
  }

  ghost function UpdateAnswer(s: State, ctx: Context, id: string, newStatus: Option<Status>, newService: Option<string>): Answer {
    if id !in s.table then NotFound
    else
      var b := s.table[id];
      if newStatus.Some? && newStatus.value != b.status && newStatus.value !in {Completed, Cancelled} then BadRequest
      else if newService.None? || newService.value == b.serviceId then Done
      else if !ServiceActive(ctx, newService.value) then NotFound
      else if Taken(s.table, Some(id), b.start, End(b.start, ctx.services[newService.value].duration)) then Conflict
      else Done
  }

  function Updated(b: Booking, ctx: Context, newStatus: Option<Status>, newService: Option<string>): Booking {
    var b' := if newStatus.Some? then b.(status := newStatus.value) else b;
    if newService.Some? && newService.value != b.serviceId && newService.value in ctx.services then
      var service := ctx.services[newService.value];
      b'.(serviceId := newService.value, price := service.price, duration := service.duration,
          end := End(b.start, service.duration))
    else b'
  }

  ghost function RescheduleAnswer(s: State, ctx: Context, id: string, start: Option<int>, newClient: Option<string>): Answer {
    if id !in s.table then NotFound
    else
      var b := s.table[id];
      if b.status in {Completed, NoShow} then BadRequest
      else if start.None? || start.value <= s.now || !SlotAllowed(ctx, start.value) then BadRequest
      else if Taken(s.table, Some(id), start.value, End(start.value, b.duration)) then Conflict
      else if newClient.Some? && newClient.value != b.clientId && newClient.value !in ctx.blocked then NotFound
      else Done
  }

  function Rescheduled(b: Booking, start: int, newClient: Option<string>): Booking {
    b.(start := start, end := End(start, b.duration),
       status := if b.status == Cancelled then Confirmed else b.status,
       clientId := if newClient.Some? then newClient.value else b.clientId)
  }

  ghost function AnswerTo(s: State, e: Event): Answer {
    match e
    case Create(ctx, r) => CreateAnswer(s, ctx, r)
    case Cancel(ctx, id, caller) => CancelAnswer(s, ctx, id, caller)
    case Confirm(id) => if id !in s.table then NotFound else if s.table[id].status != Pending then BadRequest else Done
    case Complete(id) => if id !in s.table then NotFound else if s.table[id].status !in {Pending, Confirmed} then BadRequest else Done
    case MarkNoShow(id) => if id !in s.table then NotFound else if s.table[id].status !in {Pending, Confirmed} then BadRequest else Done
    case Remove(id) => if id !in s.table then NotFound else Done
    case Update(ctx, id, newStatus, newService) => UpdateAnswer(s, ctx, id, newStatus, newService)
    case Reschedule(ctx, id, start, newClient) => RescheduleAnswer(s, ctx, id, start, newClient)
    case Restore(id) =>
      if id !in s.table then NotFound
      else if s.table[id].status != Cancelled || s.table[id].start < s.now then BadRequest else Done
    case Accept(id, _) => if id !in s.table then NotFound else Done
    case Tick(_) => Done
  }

  // New ids are not in use.
  predicate Enabled(s: State, e: Event) {
    e.Create? ==> e.request.id !in s.table
  }

  // The row an accepted event writes.
  ghost function RowWritten(s: State, e: Event): (string, Booking)
    requires AnswerTo(s, e) == Done && !e.Remove? && !e.Tick?
  {
    match e
    case Create(ctx, r) => (r.id, BookingOf(ctx, r))
    case Cancel(_, id, _) => (id, s.table[id].(status := Cancelled))
    case Confirm(id) => (id, s.table[id].(status := Confirmed))
    case Complete(id) => (id, s.table[id].(status := Completed))
    case MarkNoShow(id) => (id, s.table[id].(status := NoShow))
    case Update(ctx, id, newStatus, newService) => (id, Updated(s.table[id], ctx, newStatus, newService))
    case Reschedule(_, id, start, newClient) => (id, Rescheduled(s.table[id], start.value, newClient))
    case Restore(id) => (id, s.table[id].(status := Confirmed))
    case Accept(id, start) => (id, s.table[id].(start := start, end := End(start, s.table[id].duration), status := Confirmed))
  }

  ghost function Step(s: State, e: Event): State {
    if AnswerTo(s, e) != Done then s
    else match e
      case Remove(id) => s.(table := s.table - {id})
      case Tick(later) => s.(now := s.now + later)
      case _ => var row := RowWritten(s, e); s.(table := s.table[row.0 := row.1])
  }

  ghost predicate Runnable(s: State, es: seq<Event>)
    decreases |es|
  {
    es == [] || (Enabled(s, es[0]) && Runnable(Step(s, es[0]), es[1..]))
  }

  ghost function Run(s: State, es: seq<Event>): State
    decreases |es|
  {
    if es == [] then s else Run(Step(s, es[0]), es[1..])
  }
}
