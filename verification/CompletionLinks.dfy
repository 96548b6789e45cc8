/** A request that commits what it has just read does what the booking model does in one step. */
module CompletionLinks {
  import opened Wrappers
  import Bookings
  import C = Completion

  // The requests both models have.
  predicate OnOneBooking(e: Bookings.Event) {
    !e.Create? && !e.Tick? && !e.Remove? && !e.Accept?
  }

  // The request as the interleaving model has it.
  function RequestOf(e: Bookings.Event): C.Request
    requires OnOneBooking(e) && (e.Reschedule? ==> e.start.Some?)
  {
    match e
    case Cancel(_, _, caller) => C.Cancel(caller.Master?)
    case Confirm(_) => C.Confirm
    case Complete(_) => C.Complete
    case MarkNoShow(_) => C.MarkNoShow
    case Restore(_) => C.BotRestore
    case Reschedule(_, _, start, newClient) => C.Reschedule(start.value, newClient)
    case Update(ctx, _, newStatus, newService) =>
      C.Update(newStatus,
               if newService.Some? && newService.value in ctx.services then
                 Some(C.Service(newService.value, ctx.services[newService.value].price, ctx.services[newService.value].duration))
               else None)
  }

  /** Without interleaving both models accept the request and write the same row. */
  lemma AtomicCommitIsBookingStep(s: Bookings.State, e: Bookings.Event, txs: seq<C.Tx>)
    requires OnOneBooking(e) && Bookings.AnswerTo(s, e) == Bookings.Done
    ensures e.Reschedule? ==> e.start.Some?
    ensures e.id in s.table
    ensures var id := e.id;
            var b := s.table[id];
            var x := C.Session(RequestOf(e), id, b);
            && C.CanStart(x.request, b) && C.Commits(x, s.table)
            && C.Committed(C.State(s.table, {}, txs, map[]), x).bookings == Bookings.Step(s, e).table
  {
    hide Bookings.Taken, Bookings.SlotAllowed;
  }
}
