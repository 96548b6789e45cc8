/**
 What committing does, request by request, to the row as it stands and to the payment rows: told in the
 fields of the row read and of the row found.
 */
module CompletionEffects {
  import opened Wrappers
  import opened Tables
  import opened Completion

  ghost predicate SessionOf(s: State, n: nat, r: Request) {
    n in s.sessions && s.sessions[n].request == r
  }

  ghost predicate NoPaymentRow(s: State, id: string) {
    forall i :: 0 <= i < |s.txs| ==> s.txs[i].booking != Some(id)
  }

  /**
   Completing commits if and only if the booking, as it stands by then, exists and is pending or confirmed:
   then its status, and nothing else of it, changes, and it gets an income row unless it has a payment row.
   Otherwise bookings and payment rows stay as they were.
   */
  lemma CompleteCommitExact(s: State, n: nat)
    requires SessionOf(s, n, Complete)
    ensures var x, s' := s.sessions[n], Step(s, Commit(n));
            if x.id in s.bookings && (s.bookings[x.id].status == Pending || s.bookings[x.id].status == Confirmed) then
              && s'.bookings == s.bookings[x.id := s.bookings[x.id].(status := Completed)] && s'.bookings != s.bookings
              && s'.txs == if NoPaymentRow(s, x.id)
                           then s.txs + [Tx(Some(x.id), Income, Auto(x.id), x.seen.price, Some(x.seen.clientId))] else s.txs
            else s'.bookings == s.bookings && s'.txs == s.txs
  {
    var x := s.sessions[n];
    if x.id in s.bookings && s.bookings[x.id].status != Completed {
      assert Step(s, Commit(n)).bookings == s.bookings || Step(s, Commit(n)).bookings[x.id].status == Completed;
    }
  }

  /** Money is booked by no other commit than one that completes, and no commit takes any away. */
  lemma PaymentsOnlyByCompleting(s: State, n: nat)
    requires n in s.sessions
    ensures var x, s' := s.sessions[n], Step(s, Commit(n));
            var completes := x.request == Complete
                             || (x.request.Update? && x.request.newStatus == Some(Completed) && x.seen.status != Completed);
            var commits := x.id in s.bookings && (x.request == Complete ==> s.bookings[x.id].status in {Pending, Confirmed});
            s'.txs == if completes && commits && NoPaymentRow(s, x.id)
                      then s.txs + [Tx(Some(x.id), Income, Auto(x.id), x.seen.price, Some(x.seen.clientId))] else s.txs
  {}

  /** Every other commit writes whatever it finds, if it finds anything, and touches no other booking. */
  lemma CommitTouchesOne(s: State, n: nat)
    requires n in s.sessions
    ensures var x, s' := s.sessions[n], Step(s, Commit(n));
            && s'.bookings.Keys == s.bookings.Keys && s'.sessions == s.sessions - {n} && s'.used == s.used
            && (forall id :: id in s.bookings && id != x.id ==> s'.bookings[id] == s.bookings[id])
            && (x.request != Complete && x.id in s.bookings ==>
                  s'.bookings[x.id] == Written(x.request, x.seen, s.bookings[x.id]))
  {}

  // The status a commit leaves; only moves and updates look at the status read.
  function StatusWritten(r: Request, seen: Status, found: Status): Status {
    if r.Complete? then Completed
    else if r.Cancel? || r.BotReject? then Cancelled
    else if r.MarkNoShow? then NoShow
    else if r.Confirm? || r.BotRestore? then Confirmed
    else if r.Reschedule? then (if seen == Cancelled then Confirmed else seen)
    else if r.newStatus.None? || r.newStatus.value == seen then found
    else r.newStatus.value
  }

  /** The row a commit writes, field by field: what is asked, what was read and what is found. */
  lemma WrittenExact(r: Request, seen: Booking, b: Booking)
    ensures var b' := Written(r, seen, b);
            var change := r.Update? && r.newService.Some? && r.newService.value.id != seen.serviceId;
            && b'.status == StatusWritten(r, seen.status, b.status)
            && b'.start == (if r.Reschedule? then r.start else b.start)
            && b'.end == (if r.Reschedule? then r.start + seen.duration * 60_000
                          else if change then seen.start + r.newService.value.duration * 60_000 else b.end)
            && b'.serviceId == (if change then r.newService.value.id else b.serviceId)
            && b'.price == (if change then r.newService.value.price else b.price)
            && b'.duration == (if change then r.newService.value.duration else b.duration)
            && b'.clientId == (if r.Reschedule? && r.newClient.Some? && r.newClient.value != seen.clientId
                               then r.newClient.value else b.clientId)
  {}

  /** Which bookings a request may start on. */
  lemma ReadExact(s: State, n: nat, r: Request, id: string)
    requires n !in s.sessions
    ensures Enabled(s, Read(n, r, id)) <==>
            && id in s.bookings
            && var st := s.bookings[id].status;
               && (r.Complete? || r.MarkNoShow? || (r.Cancel? && !r.byMaster) ==> st == Pending || st == Confirmed)
               && (r.Confirm? || r.BotReject? ==> st == Pending)
               && (r.BotRestore? ==> st == Cancelled)
               && (r.Reschedule? ==> st != Completed && st != NoShow)
               && (r.Update? && r.newStatus.Some? && r.newStatus.value != st ==>
                     r.newStatus.value == Completed || r.newStatus.value == Cancelled)
  {}

  /** Deleting a booking takes the link, and only the link, off its payment rows; every row stays. */
  lemma RemoveExact(s: State, id: string)
    requires id in s.bookings
    ensures var s' := Step(s, Remove(id));
            && s'.bookings == s.bookings - {id} && |s'.txs| == |s.txs| && s'.sessions == s.sessions
            && forall i :: 0 <= i < |s.txs| ==>
                 s'.txs[i] == if s.txs[i].booking == Some(id) then s.txs[i].(booking := None) else s.txs[i]
  {}

  /** Reading and giving up change neither bookings nor payment rows; a payment adds just its row. */
  lemma QuietSteps(s: State, e: Event)
    requires Enabled(s, e)
    ensures e.Read? || e.Abort? ==> Step(s, e).bookings == s.bookings && Step(s, e).txs == s.txs
    ensures e.Create? ==> Step(s, e).bookings == s.bookings[e.id := e.row] && Step(s, e).txs == s.txs
    ensures e.Pay? ==> Step(s, e).bookings == s.bookings && Step(s, e).txs == s.txs + [Tx(e.about, e.kind, e.origin, e.amount, e.clientId)]
    ensures e.Pay? && e.about.Some? ==> e.about.value in s.bookings
    ensures e.Pay? && e.about.Some? ==> forall i :: 0 <= i < |s.txs| ==> !(s.txs[i].booking == e.about && s.txs[i].kind == e.kind)
  {}

  // ---------------------------------------------------------------------------
  // Two races
  // ---------------------------------------------------------------------------

  lemma ReadsThenCommits(id: string, b: Booking, first: Request, second: Request)
    requires b.status == Pending && CanStart(first, b) && CanStart(second, b)
    ensures var s := ReadTwice(id, b, first, second);
            var es := [Create(id, b), Read(0, first, id), Read(1, second, id), Commit(1), Commit(0)];
            && Enabled(s, Commit(1)) && Enabled(Step(s, Commit(1)), Commit(0))
            && Runnable(EMPTY, es) && Run(EMPTY, es) == Step(Step(s, Commit(1)), Commit(0))
  {
    hide CanStart, Committed;
    var es := [Create(id, b), Read(0, first, id), Read(1, second, id), Commit(1), Commit(0)];
    assert es[..3] == [es[0], es[1], es[2]] && es[..4] == es[..3] + [es[3]] && es == es[..4] + [es[4]];
    TwoReads(id, b, first, second);
    CommitTouchesOne(ReadTwice(id, b, first, second), 1);
    assert Enabled(ReadTwice(id, b, first, second), Commit(1));
    assert Enabled(Step(ReadTwice(id, b, first, second), Commit(1)), Commit(0));
    hide Step, Enabled, Run, Runnable;
    RunThen(EMPTY, es[..3], es[3]);
    RunThen(EMPTY, es[..4], es[4]);
  }

  /** From scratch: a booking is cancelled between the read and the commit of its completion. It stays cancelled, unpaid. */
  lemma CancelBeatsCompletion(id: string, b: Booking)
    requires b.status == Pending
    ensures var es := [Create(id, b), Read(0, Complete, id), Read(1, Cancel(true), id), Commit(1), Commit(0)];
            && Runnable(EMPTY, es) && Run(EMPTY, es).txs == []
            && Run(EMPTY, es).bookings == map[id := b.(status := Cancelled)]
  {
    var s := ReadTwice(id, b, Complete, Cancel(true));
    ReadsThenCommits(id, b, Complete, Cancel(true));
    var s1 := Step(s, Commit(1));
    WrittenExact(Cancel(true), b, b);
    assert s1.bookings == map[id := b.(status := Cancelled)] && s1.txs == [];
    hide Step, Committed, Run, Runnable;
    CompleteCommitExact(s1, 0);
  }

  /** From scratch: a move read before a cancellation and committed after it brings the booking back. */
  lemma MoveUndoesCancel(id: string, b: Booking, start: int)
    requires b.status == Pending
    ensures var es := [Create(id, b), Read(0, Reschedule(start, None), id), Read(1, Cancel(true), id), Commit(1), Commit(0)];
            && Runnable(EMPTY, es)
            && id in Run(EMPTY, es).bookings && Run(EMPTY, es).bookings[id].status == Pending
  {
    var s := ReadTwice(id, b, Reschedule(start, None), Cancel(true));
    ReadsThenCommits(id, b, Reschedule(start, None), Cancel(true));
    var s1 := Step(s, Commit(1));
    CommitTouchesOne(s, 1);
    assert SessionOf(s1, 0, Reschedule(start, None)) && s1.sessions[0].seen == b;
    CommitTouchesOne(s1, 0);
    WrittenExact(Reschedule(start, None), b, s1.bookings[id]);
  }
}
