/**
 Who gets which answer from the booking service, and what an accepted request writes: told in the fields
 of the request, the table and what the request finds elsewhere.
 */
module BookingsAnswers {
  import opened Wrappers
  import opened Tables
  import opened Zones
  import opened Bookings

  // Nobody else's time: no active booking but `except` shares time with the interval.
  ghost predicate Clear(table: Table, except: Option<string>, start: int, end: int) {
    forall id :: id in table && Some(id) != except && table[id].status != Cancelled ==>
      table[id].end <= start || end <= table[id].start
  }

  lemma ClearIsFree(table: Table, except: Option<string>, start: int, end: int)
    ensures Clear(table, except, start, end) <==> !Taken(table, except, start, end)
  {
    if !Clear(table, except, start, end) {
      var id :| id in table && Some(id) != except && table[id].status != Cancelled && !(table[id].end <= start || end <= table[id].start);
      assert table[id].Active() && table[id].start < end && start < table[id].end;
    }
    if Taken(table, except, start, end) {
      var id :| id in table && except != Some(id) && table[id].Active() && table[id].start < end && start < table[id].end;
      assert Some(id) != except && table[id].status != Cancelled;
    }
  }

  // The service is offered.
  predicate Offered(ctx: Context, id: string) {
    id in ctx.services && ctx.services[id].isActive
  }

  // A slot of its local day, still to come.
  predicate Bookable(ctx: Context, now: int, start: Option<int>) {
    start.Some? && now < start.value && FormatTime(ctx.zone, start.value) in ctx.slotsFor(LocalDay(ctx.zone, start.value))
  }

  /** A refused request changes nothing, an accepted one writes one row at most and leaves all others. */
  lemma OthersKept(s: State, e: Event, id: string)
    requires id in s.table && (e.Tick? || (e.Create? ==> e.request.id != id))
    requires !e.Tick? && !e.Create? ==> e.id != id
    ensures id in Step(s, e).table && Step(s, e).table[id] == s.table[id]
    ensures AnswerTo(s, e) != Done ==> Step(s, e) == s
    ensures Step(s, e).now == s.now + if e.Tick? then e.later else 0
  {
    hide Taken, SlotAllowed;
  }

  // ---------------------------------------------------------------------------
  // Creating
  // ---------------------------------------------------------------------------

  /**
   A booking is created if and only if the client is known and not blocked, the service offered, the start
   a slot still to come, and its time clear. Of several reasons to refuse the first in this order is given.
   */
  lemma CreateExact(s: State, ctx: Context, r: NewBooking)
    ensures var a := AnswerTo(s, Create(ctx, r));
            var named := r.clientId.Some?;
            var known := named && r.clientId.value in ctx.blocked;
            var welcome := known && !ctx.blocked[r.clientId.value];
            var served := welcome && Offered(ctx, r.serviceId);
            var timely := served && Bookable(ctx, s.now, r.start);
            var clear := timely && Clear(s.table, None, r.start.value, r.start.value + ctx.services[r.serviceId].duration * 60_000);
            && (a == Done <==> clear)
            && (a == Conflict <==> timely && !clear)
            && (a == Forbidden <==> known && !welcome)
            && (a == NotFound <==> (named && !known) || (welcome && !served))
            && (a == BadRequest <==> !named || (served && !timely))
  {
    hide Taken, Clear;
    if r.start.Some? && r.serviceId in ctx.services {
      ClearIsFree(s.table, None, r.start.value, r.start.value + ctx.services[r.serviceId].duration * 60_000);
    }
  }

  /** It starts pending, at the start asked for, with the service's length and price as they are now. */
  lemma CreateWrites(s: State, ctx: Context, r: NewBooking)
    requires AnswerTo(s, Create(ctx, r)) == Done
    ensures r.clientId.Some? && r.start.Some? && r.serviceId in ctx.services
    ensures var sv, start := ctx.services[r.serviceId], r.start.value;
            Step(s, Create(ctx, r)).table ==
              s.table[r.id := Booking(r.clientId.value, r.serviceId, start, start + sv.duration * 60_000, sv.duration, sv.price, Pending)]
  {
    hide Taken, SlotAllowed;
  }

  // ---------------------------------------------------------------------------
  // Cancelling
  // ---------------------------------------------------------------------------

  /**
   The master may cancel anything there is. A client may cancel a pending or confirmed booking, not another
   known client's, and no later than the window before its start.
   */
  lemma CancelExact(s: State, ctx: Context, id: string, caller: Caller)
    ensures var a := AnswerTo(s, Cancel(ctx, id, caller));
            var there := id in s.table;
            var byClient := there && caller.Client?;
            var open := byClient && (s.table[id].status == Pending || s.table[id].status == Confirmed);
            var own := open && (caller.clientId == None || caller.clientId == Some(s.table[id].clientId));
            var early := own && s.table[id].start >= s.now + ctx.windowHours * 3_600_000;
            && (a == Done <==> (there && caller.Master?) || early)
            && (a == NotFound <==> !there)
            && (a == BadRequest <==> byClient && !open)
            && (a == Forbidden <==> open && !own)
            && (a == WindowPassed <==> own && !early)
  {}

  lemma CancelWrites(s: State, ctx: Context, id: string, caller: Caller)
    requires AnswerTo(s, Cancel(ctx, id, caller)) == Done
    ensures id in s.table && Step(s, Cancel(ctx, id, caller)).table == s.table[id := s.table[id].(status := Cancelled)]
  {}

  // ---------------------------------------------------------------------------
  // Requests that only change the status, or delete
  // ---------------------------------------------------------------------------

  /** Which statuses each of them accepts, and what it makes of them. */
  lemma StatusRequestsExact(s: State, id: string)
    ensures var there := id in s.table;
            && (AnswerTo(s, Confirm(id)) == Done <==> there && s.table[id].status == Pending)
            && (AnswerTo(s, Complete(id)) == Done <==> there && (s.table[id].status == Pending || s.table[id].status == Confirmed))
            && (AnswerTo(s, MarkNoShow(id)) == Done <==> there && (s.table[id].status == Pending || s.table[id].status == Confirmed))
            && (AnswerTo(s, Restore(id)) == Done <==> there && s.table[id].status == Cancelled && s.now <= s.table[id].start)
            && (AnswerTo(s, Remove(id)) == Done <==> there)
    ensures forall e :: e in {Confirm(id), Complete(id), MarkNoShow(id), Restore(id), Remove(id)} && AnswerTo(s, e) != Done ==>
              AnswerTo(s, e) == if id in s.table then BadRequest else NotFound
  {}

  lemma StatusRequestsWrite(s: State, id: string)
    ensures AnswerTo(s, Confirm(id)) == Done ==> Step(s, Confirm(id)).table == s.table[id := s.table[id].(status := Confirmed)]
    ensures AnswerTo(s, Complete(id)) == Done ==> Step(s, Complete(id)).table == s.table[id := s.table[id].(status := Completed)]
    ensures AnswerTo(s, MarkNoShow(id)) == Done ==> Step(s, MarkNoShow(id)).table == s.table[id := s.table[id].(status := NoShow)]
    ensures AnswerTo(s, Restore(id)) == Done ==> Step(s, Restore(id)).table == s.table[id := s.table[id].(status := Confirmed)]
    ensures AnswerTo(s, Remove(id)) == Done ==> Step(s, Remove(id)).table == s.table - {id}
  {}

  /** Accepting a suggested time in the bot moves any booking there is and confirms it. */
  lemma AcceptExact(s: State, id: string, start: int)
    ensures AnswerTo(s, Accept(id, start)) == (if id in s.table then Done else NotFound)
    ensures id in s.table ==>
              Step(s, Accept(id, start)).table ==
              s.table[id := s.table[id].(start := start, end := start + s.table[id].duration * 60_000, status := Confirmed)]
  {}

  // ---------------------------------------------------------------------------
  // Updating
  // ---------------------------------------------------------------------------

  /**
   An update is accepted if and only if the booking is there, a new status is completed or cancelled, and a
   new service is offered and, at its length, keeps clear of the other bookings.
   */
  lemma UpdateExact(s: State, ctx: Context, id: string, newStatus: Option<Status>, newService: Option<string>)
    ensures var a := AnswerTo(s, Update(ctx, id, newStatus, newService));
            var there := id in s.table;
            var statusOk := there && (newStatus == None || newStatus == Some(s.table[id].status)
                                      || newStatus == Some(Completed) || newStatus == Some(Cancelled));
            var keeps := statusOk && (newService == None || newService == Some(s.table[id].serviceId));
            var offered := statusOk && !keeps && Offered(ctx, newService.value);
            var clear := offered && Clear(s.table, Some(id), s.table[id].start,
                                          s.table[id].start + ctx.services[newService.value].duration * 60_000);
            && (a == Done <==> keeps || clear)
            && (a == NotFound <==> !there || (statusOk && !keeps && !offered))
            && (a == BadRequest <==> there && !statusOk)
            && (a == Conflict <==> offered && !clear)
            && a != Forbidden && a != WindowPassed
  {
    hide Taken, Clear;
    if id in s.table && newService.Some? && newService.value in ctx.services {
      ClearIsFree(s.table, Some(id), s.table[id].start, s.table[id].start + ctx.services[newService.value].duration * 60_000);
    }
  }

  /** It keeps client and start; a new service brings its price and length, and the end that goes with them. */
  lemma UpdateWrites(s: State, ctx: Context, id: string, newStatus: Option<Status>, newService: Option<string>)
    requires AnswerTo(s, Update(ctx, id, newStatus, newService)) == Done
    ensures id in s.table && Step(s, Update(ctx, id, newStatus, newService)).table.Keys == s.table.Keys
    ensures var was, b := s.table[id], Step(s, Update(ctx, id, newStatus, newService)).table[id];
            var changed := newService.Some? && newService.value != was.serviceId;
            && b.clientId == was.clientId && b.start == was.start
            && b.status == (if newStatus.Some? then newStatus.value else was.status)
            && (changed ==>
                  && newService.value in ctx.services && b.serviceId == newService.value
                  && b.price == ctx.services[newService.value].price && b.duration == ctx.services[newService.value].duration
                  && b.end == b.start + b.duration * 60_000)
            && (!changed ==> b.serviceId == was.serviceId && b.price == was.price && b.duration == was.duration && b.end == was.end)
  {
    hide Taken;
  }

  // ---------------------------------------------------------------------------
  // Rescheduling
  // ---------------------------------------------------------------------------

  /**
   A booking moves if and only if it is there and neither completed nor a no-show, the start is a slot still
   to come, its time is clear of the other bookings, and a new client is known.
   */
  lemma RescheduleExact(s: State, ctx: Context, id: string, start: Option<int>, newClient: Option<string>)
    ensures var a := AnswerTo(s, Reschedule(ctx, id, start, newClient));
            var there := id in s.table;
            var open := there && s.table[id].status != Completed && s.table[id].status != NoShow;
            var timely := open && Bookable(ctx, s.now, start);
            var clear := timely && Clear(s.table, Some(id), start.value, start.value + s.table[id].duration * 60_000);
            var known := clear && (newClient == None || newClient == Some(s.table[id].clientId) || newClient.value in ctx.blocked);
            && (a == Done <==> known)
            && (a == NotFound <==> !there || (clear && !known))
            && (a == BadRequest <==> there && !timely)
            && (a == Conflict <==> timely && !clear)
            && a != Forbidden && a != WindowPassed
  {
    hide Taken, Clear;
    if id in s.table && start.Some? {
      ClearIsFree(s.table, Some(id), start.value, start.value + s.table[id].duration * 60_000);
    }
  }

  /** It keeps service, price and length; a cancelled booking comes back confirmed. */
  lemma RescheduleWrites(s: State, ctx: Context, id: string, start: Option<int>, newClient: Option<string>)
    requires AnswerTo(s, Reschedule(ctx, id, start, newClient)) == Done
    ensures id in s.table && start.Some?
    ensures var was := s.table[id];
            Step(s, Reschedule(ctx, id, start, newClient)).table ==
              s.table[id := Booking(if newClient.Some? then newClient.value else was.clientId, was.serviceId, start.value,
                                    start.value + was.duration * 60_000, was.duration, was.price,
                                    if was.status == Cancelled then Confirmed else was.status)]
  {
    hide Taken, SlotAllowed;
  }

  /** A blocked client is turned away whatever else holds. `RescheduleExact` shows that moving a booking to one is not refused. */
  lemma BlockedClients(s: State, ctx: Context, r: NewBooking)
    requires r.clientId.Some? && r.clientId.value in ctx.blocked && ctx.blocked[r.clientId.value]
    ensures AnswerTo(s, Create(ctx, r)) == Forbidden && Step(s, Create(ctx, r)) == s
  {}
}
