/**
 Requests split in two: each reads a booking and checks what it read, and commits later, when others may
 have committed in between. Committing is one database transaction. What survives is the accounting:
 completed bookings have a payment row, and none gets two automatic ones.
 */
module Completion {
  import opened Durations
  import opened Wrappers
  import opened Tables

  datatype TxKind = Income | Expense

  // An automatic row remembers which booking it was made for, even when the booking is gone.
  datatype Origin = Auto(about: string) | Manual | Online

  datatype Tx = Tx(booking: Option<string>, kind: TxKind, origin: Origin, amount: nat, clientId: Option<string>)

  datatype Service = Service(id: string, price: nat, duration: nat)

  datatype Request =
    | Complete
    | Cancel(byMaster: bool)
    | MarkNoShow
    | Confirm
    | BotReject
    | BotRestore
    | Reschedule(start: int, newClient: Option<string>)
    | Update(newStatus: Option<Status>, newService: Option<Service>)

  // A request that has read its booking and not committed yet.
  datatype Session = Session(request: Request, id: string, seen: Booking)

  datatype State = State(bookings: Table, used: set<string>, txs: seq<Tx>, sessions: map<nat, Session>)

  datatype Event =
    | Create(id: string, row: Booking)
    | Read(session: nat, request: Request, id: string)
    | Commit(session: nat)
    | Abort(session: nat)
    | Remove(id: string)
    | Pay(about: Option<string>, kind: TxKind, origin: Origin, amount: nat, clientId: Option<string>)

  // The checks made on the booking as read.
  predicate CanStart(r: Request, b: Booking) {
    match r
    case Complete => b.status in {Pending, Confirmed}
    case Cancel(byMaster) => byMaster || b.status in {Pending, Confirmed}
    case MarkNoShow => b.status in {Pending, Confirmed}
    case Confirm => b.status == Pending
    case BotReject => b.status == Pending
    case BotRestore => b.status == Cancelled
    case Reschedule(_, _) => b.status !in {Completed, NoShow}
    case Update(newStatus, _) => newStatus.Some? && newStatus.value != b.status ==> newStatus.value in {Completed, Cancelled}
  }

  // The service a request really changes to.
  function ServiceChange(r: Request, seen: Booking): Option<Service> {
    if r.Update? && r.newService.Some? && r.newService.value.id != seen.serviceId then r.newService else None
  }

  // The row a commit writes over `b`, which need not be the row read.
  function Written(r: Request, seen: Booking, b: Booking): Booking {
    match r
    case Complete => b.(status := Completed)
    case Cancel(_) => b.(status := Cancelled)
    case MarkNoShow => b.(status := NoShow)
    case Confirm => b.(status := Confirmed)
    case BotReject => b.(status := Cancelled)
    case BotRestore => b.(status := Confirmed)
    case Reschedule(start, newClient) =>
      b.(start := start, end := start + seen.duration * MINUTE,
         status := if seen.status == Cancelled then Confirmed else seen.status,
         clientId := if newClient.Some? && newClient.value != seen.clientId then newClient.value else b.clientId)
    case Update(newStatus, _) =>
      var b' := if newStatus.Some? && newStatus.value != seen.status then b.(status := newStatus.value) else b;
      match ServiceChange(r, seen)
      case Some(sv) => b'.(serviceId := sv.id, price := sv.price, duration := sv.duration, end := seen.start + sv.duration * MINUTE)
      case None => b'
  }

  // Only completing looks at the row again. A booking that is gone fails every commit.
  predicate Commits(x: Session, bookings: Table) {
    x.id in bookings && (x.request.Complete? ==> bookings[x.id].status in {Pending, Confirmed})
  }

  predicate Completes(x: Session) {
    x.request.Complete? || (x.request.Update? && x.request.newStatus == Some(Completed) && x.seen.status != Completed)
  }

  predicate Linked(txs: seq<Tx>, id: string) {
    exists i :: 0 <= i < |txs| && txs[i].booking == Some(id)
  }

  predicate HasKind(txs: seq<Tx>, id: string, kind: TxKind) {
    exists i :: 0 <= i < |txs| && txs[i].booking == Some(id) && txs[i].kind == kind
  }

  /** The automatic income row, unless the booking has a payment row of any kind. */
  function WithIncome(txs: seq<Tx>, id: string, clientId: string, amount: nat): seq<Tx> {
    if Linked(txs, id) then txs else txs + [Tx(Some(id), Income, Auto(id), amount, Some(clientId))]
  }

  // Payment rows of a deleted booking stay, without the link.
  function Unlink(txs: seq<Tx>, id: string): seq<Tx> {
    seq(|txs|, i requires 0 <= i < |txs| => if txs[i].booking == Some(id) then txs[i].(booking := None) else txs[i])
  }

  predicate Enabled(s: State, e: Event) {
    match e
    case Create(id, b) => id !in s.used && b.status == Pending
    case Read(n, r, id) => n !in s.sessions && id in s.bookings && CanStart(r, s.bookings[id])
    case Commit(n) => n in s.sessions
    case Abort(n) => n in s.sessions
    case Remove(id) => id in s.bookings
    // A booking has at most one row of a kind: the database refuses another.
    case Pay(booking, kind, origin, _, _) =>
      !origin.Auto? && (booking.Some? ==> booking.value in s.bookings && !HasKind(s.txs, booking.value, kind))
  }

  function Committed(s: State, x: Session): State {
    if !Commits(x, s.bookings) then s
    else s.(bookings := s.bookings[x.id := Written(x.request, x.seen, s.bookings[x.id])],
            txs := if Completes(x) then WithIncome(s.txs, x.id, x.seen.clientId, x.seen.price) else s.txs)
  }

  function Step(s: State, e: Event): State
    requires Enabled(s, e)
  {
    match e
    case Create(id, b) => s.(bookings := s.bookings[id := b], used := s.used + {id})
    case Read(n, r, id) => s.(sessions := s.sessions[n := Session(r, id, s.bookings[id])])
    case Commit(n) => Committed(s, s.sessions[n]).(sessions := s.sessions - {n})
    case Abort(n) => s.(sessions := s.sessions - {n})
    case Remove(id) => s.(bookings := s.bookings - {id}, txs := Unlink(s.txs, id))
    case Pay(booking, kind, origin, amount, clientId) => s.(txs := s.txs + [Tx(booking, kind, origin, amount, clientId)])
  }

  ghost predicate Runnable(s: State, es: seq<Event>)
    decreases |es|
  {
    es == [] || (Enabled(s, es[0]) && Runnable(Step(s, es[0]), es[1..]))
  }

  ghost function Run(s: State, es: seq<Event>): State
    requires Runnable(s, es)
    decreases |es|
  {
    if es == [] then s else Run(Step(s, es[0]), es[1..])
  }

  const EMPTY := State(map[], {}, [], map[])

  // ---------------------------------------------------------------------------
  // The invariant
  // ---------------------------------------------------------------------------

  // Automatic rows: income, made for a known booking, linked to it while it exists.
  ghost predicate AutoRows(s: State) {
    forall i {:trigger s.txs[i]} :: 0 <= i < |s.txs| && s.txs[i].origin.Auto? ==>
      && s.txs[i].kind == Income && s.txs[i].origin.about in s.used
      && (s.txs[i].origin.about in s.bookings ==> s.txs[i].booking == Some(s.txs[i].origin.about))
  }

  /** No booking ever gets two automatic rows. */
  ghost predicate OneAuto(txs: seq<Tx>) {
    forall i, j :: 0 <= i < j < |txs| && txs[i].origin.Auto? ==> txs[i].origin != txs[j].origin
  }

  /** No booking has two rows of one kind, which is what the database's unique index demands. */
  ghost predicate OneOfAKind(txs: seq<Tx>) {
    forall i, j :: 0 <= i < j < |txs| && txs[i].booking.Some? ==> txs[i].booking != txs[j].booking || txs[i].kind != txs[j].kind
  }

  /** Every completed booking has a payment row. */
  ghost predicate CompletedPaid(s: State) {
    forall id :: id in s.bookings && s.bookings[id].status == Completed ==> Linked(s.txs, id)
  }

  ghost predicate Referential(s: State) {
    && s.bookings.Keys <= s.used
    && (forall i :: 0 <= i < |s.txs| && s.txs[i].booking.Some? ==> s.txs[i].booking.value in s.bookings)
    && (forall n :: n in s.sessions ==> CanStart(s.sessions[n].request, s.sessions[n].seen) && s.sessions[n].id in s.used)
  }

  ghost predicate Good(s: State) {
    AutoRows(s) && OneAuto(s.txs) && OneOfAKind(s.txs) && CompletedPaid(s) && Referential(s)
  }

  // Which rows a commit can leave completed.
  lemma WrittenStatus(r: Request, seen: Booking, b: Booking)
    requires CanStart(r, seen)
    ensures Written(r, seen, b).status == Completed ==> b.status == Completed || Completes(Session(r, "", seen))
  {}

  // A new row at the end keeps what was linked and links its own booking.
  lemma LinkedAfterAdd(txs: seq<Tx>, tx: Tx, id: string)
    ensures Linked(txs + [tx], id) <==> Linked(txs, id) || tx.booking == Some(id)
  {
    if Linked(txs, id) {
      var i :| 0 <= i < |txs| && txs[i].booking == Some(id);
      assert (txs + [tx])[i] == txs[i];
    }
    assert (txs + [tx])[|txs|] == tx;
  }

  lemma AddedRowGood(s: State, tx: Tx)
    requires Good(s)
    requires tx.booking.Some? ==> tx.booking.value in s.bookings && !HasKind(s.txs, tx.booking.value, tx.kind)
    requires tx.origin.Auto? ==> tx.kind == Income && tx.booking == Some(tx.origin.about)
    ensures Good(s.(txs := s.txs + [tx]))
  {
    var txs := s.txs + [tx];
    assert OneOfAKind(txs);
    forall i, j | 0 <= i < j < |txs| && txs[i].origin.Auto? ensures txs[i].origin != txs[j].origin {
      assert txs[i] == s.txs[i];
    }
    forall id | id in s.bookings && s.bookings[id].status == Completed ensures Linked(txs, id) {
      LinkedAfterAdd(s.txs, tx, id);
    }
  }

  lemma IncomeGood(s: State, id: string, clientId: string, amount: nat)
    requires Good(s) && id in s.bookings
    ensures Good(s.(txs := WithIncome(s.txs, id, clientId, amount)))
    ensures Linked(WithIncome(s.txs, id, clientId, amount), id)
  {
    hide Good;
    if !Linked(s.txs, id) {
      var tx := Tx(Some(id), Income, Auto(id), amount, Some(clientId));
      AddedRowGood(s, tx);
      LinkedAfterAdd(s.txs, tx, id);
    }
  }

  lemma CommitGood(s: State, x: Session)
    requires Good(s) && CanStart(x.request, x.seen)
    ensures Good(Committed(s, x)) && Committed(s, x).sessions == s.sessions
  {
    hide Written, WithIncome, Linked;
    if Commits(x, s.bookings) {
      WrittenStatus(x.request, x.seen, s.bookings[x.id]);
      if Completes(x) {
        IncomeGood(s, x.id, x.seen.clientId, x.seen.price);
      }
    }
  }

  lemma UnlinkedGood(s: State, id: string)
    requires Good(s) && id in s.bookings
    ensures Good(Step(s, Remove(id)))
  {
    var s' := Step(s, Remove(id));
    forall x | x in s'.bookings && s'.bookings[x].status == Completed ensures Linked(s'.txs, x) {
      assert Linked(s.txs, x);
      var i :| 0 <= i < |s.txs| && s.txs[i].booking == Some(x);
      assert s'.txs[i] == s.txs[i];
    }
  }

  lemma StepKeepsGood(s: State, e: Event)
    requires Good(s) && Enabled(s, e)
    ensures Good(Step(s, e))
  {
    hide Linked, HasKind, Committed, OneAuto, OneOfAKind, AutoRows, CompletedPaid;
    match e
    case Create(id, b) => CreatedGood(s, id, b);
    case Read(n, r, id) => SessionsOnly(s, s.sessions[n := Session(r, id, s.bookings[id])]);
    case Commit(n) => CommitGood(s, s.sessions[n]); SessionsOnly(Committed(s, s.sessions[n]), s.sessions - {n});
    case Abort(n) => SessionsOnly(s, s.sessions - {n});
    case Remove(id) => UnlinkedGood(s, id);
    case Pay(booking, kind, origin, amount, clientId) => AddedRowGood(s, Tx(booking, kind, origin, amount, clientId));
  }

  lemma CreatedGood(s: State, id: string, b: Booking)
    requires Good(s) && Enabled(s, Create(id, b))
    ensures Good(Step(s, Create(id, b)))
  {}

  lemma SessionsOnly(s: State, sessions: map<nat, Session>)
    requires Good(s)
    requires forall n :: n in sessions ==> CanStart(sessions[n].request, sessions[n].seen) && sessions[n].id in s.used
    ensures Good(s.(sessions := sessions))
  {}

  /**
   In every interleaving of requests: completed bookings are paid for, no booking gets a second automatic
   row, and the unique index is never violated.
   */
  lemma {:induction false} RunKeepsGood(s: State, es: seq<Event>)
    requires Good(s) && Runnable(s, es)
    ensures Good(Run(s, es))
    decreases |es|
  {
    if es != [] {
      StepKeepsGood(s, es[0]);
      RunKeepsGood(Step(s, es[0]), es[1..]);
    }
  }

  lemma EveryInterleavingGood(es: seq<Event>)
    requires Runnable(EMPTY, es)
    ensures var s := Run(EMPTY, es);
            && (forall id :: id in s.bookings && s.bookings[id].status == Completed ==> Linked(s.txs, id))
            && (forall i, j :: 0 <= i < j < |s.txs| && s.txs[i].origin.Auto? ==> s.txs[i].origin != s.txs[j].origin)
            && OneOfAKind(s.txs)
  {
    RunKeepsGood(EMPTY, es);
  }

  // ---------------------------------------------------------------------------
  // What a completing commit books
  // ---------------------------------------------------------------------------

  /** A completing commit leaves an income row exactly when the booking had one or had no row at all. */
  lemma IncomeExact(s: State, x: Session)
    requires Good(s) && Commits(x, s.bookings) && Completes(x)
    ensures HasKind(Committed(s, x).txs, x.id, Income) <==> HasKind(s.txs, x.id, Income) || !Linked(s.txs, x.id)
  {
    var tx := Tx(Some(x.id), Income, Auto(x.id), x.seen.price, Some(x.seen.clientId));
    assert (s.txs + [tx])[|s.txs|] == tx;
  }

  /** So an expense booked first leaves a completed booking without income. */
  lemma ExpenseBlocksIncome(id: string, b: Booking)
    requires b.status == Pending
    ensures var es := [Create(id, b), Pay(Some(id), Expense, Manual, 100, None), Read(0, Complete, id), Commit(0)];
            && Runnable(EMPTY, es)
            && id in Run(EMPTY, es).bookings && Run(EMPTY, es).bookings[id].status == Completed
            && !HasKind(Run(EMPTY, es).txs, id, Income)
  {
    var es := [Create(id, b), Pay(Some(id), Expense, Manual, 100, None), Read(0, Complete, id), Commit(0)];
    assert es[..1] == [] + [es[0]] && es[..2] == es[..1] + [es[1]] && es[..3] == es[..2] + [es[2]] && es == es[..3] + [es[3]];
    RunThen(EMPTY, [], es[0]);
    RunThen(EMPTY, es[..1], es[1]);
    assert Run(EMPTY, es[..2]).txs == [Tx(Some(id), Expense, Manual, 100, None)];
    RunThen(EMPTY, es[..2], es[2]);
    assert Run(EMPTY, es[..3]).txs[0].booking == Some(id);
    RunThen(EMPTY, es[..3], es[3]);
  }

  // Runs are extended one event at a time.
  lemma {:induction false} RunThen(s: State, es: seq<Event>, e: Event)
    requires Runnable(s, es) && Enabled(Run(s, es), e)
    ensures Runnable(s, es + [e]) && Run(s, es + [e]) == Step(Run(s, es), e)
    decreases |es|
  {
    hide Step, Enabled;
    if es == [] {
      assert ([] + [e])[1..] == [] && Run(s, es) == s;
      assert Run(Step(s, e), []) == Step(s, e);
    } else {
      RunThen(Step(s, es[0]), es[1..], e);
      assert (es + [e])[1..] == es[1..] + [e];
    }
  }

  /** The amount booked is the price read; it is the price kept exactly when the commit does not change it. */
  lemma AmountExact(s: State, x: Session)
    requires Good(s) && Commits(x, s.bookings) && Completes(x) && !Linked(s.txs, x.id)
    ensures var s' := Committed(s, x);
            var tx := s'.txs[|s'.txs| - 1];
            && tx.booking == Some(x.id)
            && (tx.amount == s'.bookings[x.id].price <==>
                x.seen.price == match ServiceChange(x.request, x.seen)
                                case Some(sv) => sv.price
                                case None => s.bookings[x.id].price)
  {}

  // ---------------------------------------------------------------------------
  // What interleaving does break
  // ---------------------------------------------------------------------------

  predicate Fits(b: Booking) { b.end == b.start + b.duration * MINUTE }

  /** A commit over a well-formed row leaves it well-formed exactly when what it relies on has not moved. */
  lemma StaleWriteExact(r: Request, seen: Booking, b: Booking)
    requires Fits(b)
    ensures Fits(Written(r, seen, b)) <==>
            && (r.Reschedule? ==> seen.duration == b.duration)
            && (ServiceChange(r, seen).Some? ==> seen.start == b.start)
  {}

  /** From scratch: a move is read before and committed after a change to a shorter service. */
  lemma StaleMoveReached(id: string, b: Booking, start: int)
    requires b.status == Pending && Fits(b) && b.duration == 60 && b.serviceId != "short"
    ensures var es := [Create(id, b), Read(0, Reschedule(start, None), id),
                       Read(1, Update(None, Some(Service("short", 0, 30))), id), Commit(1), Commit(0)];
            && Runnable(EMPTY, es)
            && id in Run(EMPTY, es).bookings && !Fits(Run(EMPTY, es).bookings[id])
  {
    var es := [Create(id, b), Read(0, Reschedule(start, None), id),
               Read(1, Update(None, Some(Service("short", 0, 30))), id), Commit(1), Commit(0)];
    assert es[..3] == [es[0], es[1], es[2]] && es[..4] == es[..3] + [es[3]] && es == es[..4] + [es[4]];
    TwoReads(id, b, es[1].request, es[2].request);
    StaleMove(es[1].request, es[2].request, id, b);
    hide Step, Enabled, Run, Runnable;
    RunThen(EMPTY, es[..3], es[3]);
    RunThen(EMPTY, es[..4], es[4]);
  }

  // A booking that two requests have read.
  ghost function ReadTwice(id: string, b: Booking, first: Request, second: Request): State {
    State(map[id := b], {id}, [], map[0 := Session(first, id, b), 1 := Session(second, id, b)])
  }

  lemma TwoReads(id: string, b: Booking, first: Request, second: Request)
    requires b.status == Pending && CanStart(first, b) && CanStart(second, b)
    ensures var es := [Create(id, b), Read(0, first, id), Read(1, second, id)];
            Runnable(EMPTY, es) && Run(EMPTY, es) == ReadTwice(id, b, first, second)
  {
    hide CanStart;
    var es := [Create(id, b), Read(0, first, id), Read(1, second, id)];
    assert es[..1] == [] + [es[0]] && es[..2] == es[..1] + [es[1]] && es == es[..2] + [es[2]];
    RunThen(EMPTY, [], es[0]);
    RunThen(EMPTY, es[..1], es[1]);
    RunThen(EMPTY, es[..2], es[2]);
  }

  lemma StaleMove(move: Request, change: Request, id: string, b: Booking)
    requires b.status == Pending && b.duration == 60 && b.serviceId != "short"
    requires move.Reschedule? && change == Update(None, Some(Service("short", 0, 30)))
    ensures var s := ReadTwice(id, b, move, change);
            && Enabled(s, Commit(1)) && Enabled(Step(s, Commit(1)), Commit(0))
            && var s' := Step(Step(s, Commit(1)), Commit(0));
               id in s'.bookings && !Fits(s'.bookings[id])
  {}

  /** From scratch: completing and changing the service in one update books the old price. */
  lemma OldPriceReached(id: string, b: Booking)
    requires b.status == Pending && b.price == 100 && b.serviceId != "dear"
    ensures var es := [Create(id, b), Read(0, Update(Some(Completed), Some(Service("dear", 200, 60))), id), Commit(0)];
            && Runnable(EMPTY, es)
            && id in Run(EMPTY, es).bookings && Run(EMPTY, es).bookings[id].price == 200
            && Run(EMPTY, es).txs == [Tx(Some(id), Income, Auto(id), 100, Some(b.clientId))]
  {
    var es := [Create(id, b), Read(0, Update(Some(Completed), Some(Service("dear", 200, 60))), id), Commit(0)];
    assert es[..1] == [] + [es[0]] && es[..2] == es[..1] + [es[1]] && es == es[..2] + [es[2]];
    RunThen(EMPTY, [], es[0]);
    RunThen(EMPTY, es[..1], es[1]);
    RunThen(EMPTY, es[..2], es[2]);
  }

  // ---------------------------------------------------------------------------
  // The service
  // ---------------------------------------------------------------------------

  class FinanceService {
    var bookings: Table
    var txs: seq<Tx>

    constructor (bookings: Table, txs: seq<Tx>)
      ensures this.bookings == bookings && this.txs == txs
    {
      this.bookings, this.txs := bookings, txs;
    }

    method CreateBookingTransaction(id: string, clientId: string, amount: nat)
      modifies this`txs
      ensures txs == WithIncome(old(txs), id, clientId, amount)
    {
      if exists i :: 0 <= i < |txs| && txs[i].booking == Some(id) {
        return;
      }
      txs := txs + [Tx(Some(id), Income, Auto(id), amount, Some(clientId))];
    }

    /** The transaction half of completing: the row is looked at again before it is written. */
    method CommitCompletion(id: string, seen: Booking) returns (done: bool)
      modifies this
      ensures done == Commits(Session(Complete, id, seen), old(bookings))
      ensures var s := State(old(bookings), {}, old(txs), map[]);
              State(bookings, {}, txs, map[]) == Committed(s, Session(Complete, id, seen))
    {
      if id !in bookings || bookings[id].status !in {Pending, Confirmed} {
        return false;
      }
      bookings := bookings[id := bookings[id].(status := Completed)];
      CreateBookingTransaction(id, seen.clientId, seen.price);
      done := true;
    }
  }
}
