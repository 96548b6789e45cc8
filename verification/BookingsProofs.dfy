/** No double booking: which steps keep the table free of overlaps, and exactly when the others do. */
module BookingsProofs {
  import opened Durations
  import opened Wrappers
  import opened Tables
  import opened Bookings

  // ---------------------------------------------------------------------------
  // One row replaced
  // ---------------------------------------------------------------------------

  /** Writing one row keeps the table free of overlaps exactly when it is inactive or its time is free. */
  lemma WriteExact(table: Table, id: string, b: Booking)
    requires NoOverlap(table)
    ensures NoOverlap(table[id := b]) <==> (b.Active() ==> !Taken(table, Some(id), b.start, b.end))
  {
    var table' := table[id := b];
    if b.Active() && Taken(table, Some(id), b.start, b.end) {
      var k :| k in table && k != id && table[k].Active() && table[k].start < b.end && b.start < table[k].end;
      assert table'[k] == table[k] && Overlap(table'[k], table'[id]);
    }
    if NoOverlap(table') {
    } else {
      var i, j :| i in table' && j in table' && i != j && table'[i].Active() && table'[j].Active() && Overlap(table'[i], table'[j]);
      assert i == id || j == id;
    }
  }

  // Steps that write an active row without looking at the other bookings.
  ghost predicate Unchecked(s: State, e: Event) {
    match e
    case Restore(_) => true
    case Accept(_, _) => true
    case Update(_, id, newStatus, newService) =>
      id in s.table && s.table[id].status == Cancelled && newStatus.Some? && newStatus.value != Cancelled
      && (newService.None? || newService.value == s.table[id].serviceId)
    case _ => false
  }

  ghost predicate Sound(s: State) {
    NoOverlap(s.table) && EndsFit(s.table)
  }

  lemma WrittenRowFits(s: State, e: Event)
    requires EndsFit(s.table) && AnswerTo(s, e) == Done && !e.Remove? && !e.Tick?
    ensures var (_, b) := RowWritten(s, e); b.end == b.start + b.duration * MINUTE
  {}

  lemma WrittenRowFree(s: State, e: Event)
    requires Sound(s) && Enabled(s, e) && AnswerTo(s, e) == Done && !e.Remove? && !e.Tick? && !Unchecked(s, e)
    ensures var (id, b) := RowWritten(s, e); b.Active() ==> !Taken(s.table, Some(id), b.start, b.end)
  {
    var (id, b) := RowWritten(s, e);
    if id in s.table && s.table[id].Active() && b.start == s.table[id].start && b.end == s.table[id].end {
      OldRowFree(s.table, id);
    }
  }

  lemma OldRowFree(table: Table, id: string)
    requires NoOverlap(table) && id in table && table[id].Active()
    ensures !Taken(table, Some(id), table[id].start, table[id].end)
  {
    if Taken(table, Some(id), table[id].start, table[id].end) {
      var k :| k in table && k != id && table[k].Active() && table[k].start < table[id].end && table[id].start < table[k].end;
      assert Overlap(table[k], table[id]);
    }
  }

  /** Every checked step keeps all active bookings apart and every end at start plus duration. */
  lemma StepKeepsSound(s: State, e: Event)
    requires Sound(s) && Enabled(s, e) && !Unchecked(s, e)
    ensures Sound(Step(s, e))
  {
    if AnswerTo(s, e) == Done && !e.Remove? && !e.Tick? {
      hide AnswerTo, RowWritten, Taken, Unchecked;
      var (id, b) := RowWritten(s, e);
      WrittenRowFits(s, e);
      WrittenRowFree(s, e);
      WriteExact(s.table, id, b);
    }
  }

  /** An unchecked step keeps the table free of overlaps exactly when the time it writes is free. */
  lemma UncheckedStepExact(s: State, e: Event)
    requires Sound(s) && Unchecked(s, e) && AnswerTo(s, e) == Done
    ensures var (id, b) := RowWritten(s, e);
            Sound(Step(s, e)) <==> !Taken(s.table, Some(id), b.start, b.end)
  {
    var (id, b) := RowWritten(s, e);
    WrittenRowFits(s, e);
    WriteExact(s.table, id, b);
  }

  ghost predicate CheckedRun(s: State, es: seq<Event>)
    decreases |es|
  {
    es == [] || (Enabled(s, es[0]) && !Unchecked(s, es[0]) && CheckedRun(Step(s, es[0]), es[1..]))
  }

  /** No double booking in any run of checked requests, in any order, under any schedule and services. */
  lemma {:induction false} RunKeepsSound(s: State, es: seq<Event>)
    requires Sound(s) && CheckedRun(s, es)
    ensures Sound(Run(s, es))
    decreases |es|
  {
    if es != [] {
      StepKeepsSound(s, es[0]);
      RunKeepsSound(Step(s, es[0]), es[1..]);
    }
  }

  /** Marking a cancelled booking completed can double-book: its time may long be someone else's. */
  lemma RevivingCanOverlap(ctx: Context)
    ensures var gone := Booking("a", "s", 0, 60 * MINUTE, 60, 0, Cancelled);
            var other := Booking("b", "s", 0, 60 * MINUTE, 60, 0, Pending);
            var s := State(0, map["1" := gone, "2" := other]);
            Sound(s) && !Sound(Step(s, Update(ctx, "1", Some(Completed), None)))
  {
    var gone := Booking("a", "s", 0, 60 * MINUTE, 60, 0, Cancelled);
    var other := Booking("b", "s", 0, 60 * MINUTE, 60, 0, Pending);
    var s := State(0, map["1" := gone, "2" := other]);
    var e := Update(ctx, "1", Some(Completed), None);
    assert AnswerTo(s, e) == Done;
    UncheckedStepExact(s, e);
    assert s.table["2"].start < gone.end && gone.start < s.table["2"].end;
  }

  // ---------------------------------------------------------------------------
  // The table constraint
  // ---------------------------------------------------------------------------

  // A row with no length is an empty range, and an empty range meets nothing.
  predicate RangesMeet(a: Booking, b: Booking) {
    Overlap(a, b) && a.start < a.end && b.start < b.end
  }

  ghost predicate ConstraintHolds(table: Table) {
    forall i, j :: i in table && j in table && i != j && table[i].Active() && table[j].Active() ==> !RangesMeet(table[i], table[j])
  }

  /** For bookings with a duration the database constraint says the same as the service's own checks. */
  lemma ConstraintIsNoOverlap(table: Table)
    requires EndsFit(table) && forall i :: i in table ==> 0 < table[i].duration
    ensures ConstraintHolds(table) <==> NoOverlap(table)
  {
    forall i, j | i in table && j in table ensures Overlap(table[i], table[j]) <==> RangesMeet(table[i], table[j]) {
      assert table[i].end == table[i].start + table[i].duration * MINUTE;
      assert table[j].end == table[j].start + table[j].duration * MINUTE;
    }
    if NoOverlap(table) {
      assert ConstraintHolds(table);
    }
  }

  // ---------------------------------------------------------------------------
  // Contention for one slot
  // ---------------------------------------------------------------------------

  // The answers to create requests served one after the other.
  ghost function Answers(s: State, ctx: Context, rs: seq<NewBooking>): seq<Answer>
    decreases |rs|
  {
    if rs == [] then []
    else [CreateAnswer(s, ctx, rs[0])] + Answers(Step(s, Create(ctx, rs[0])), ctx, rs[1..])
  }

  ghost predicate ContendFor(s: State, ctx: Context, rs: seq<NewBooking>, start: int) {
    && (forall r :: r in rs ==>
          r.start == Some(start) && r.id !in s.table && Screen(ctx, s.now, r) == Done && 0 < ctx.services[r.serviceId].duration)
    && (forall i, j :: 0 <= i < j < |rs| ==> rs[i].id != rs[j].id)
  }

  lemma {:induction false} LateComersConflict(s: State, ctx: Context, rs: seq<NewBooking>, start: int, holder: string)
    requires ContendFor(s, ctx, rs, start)
    requires holder in s.table && s.table[holder].Active() && s.table[holder].start == start < s.table[holder].end
    ensures |Answers(s, ctx, rs)| == |rs|
    ensures forall i :: 0 <= i < |rs| ==> Answers(s, ctx, rs)[i] == Conflict
    decreases |rs|
  {
    if rs != [] {
      var r := rs[0];
      assert r in rs;
      assert s.table[holder].start < End(start, ctx.services[r.serviceId].duration);
      assert CreateAnswer(s, ctx, r) == Conflict;
      assert Step(s, Create(ctx, r)) == s;
      assert forall x :: x in rs[1..] ==> x in rs;
      LateComersConflict(s, ctx, rs[1..], start, holder);
    }
  }

  // The start is free for as long as this request needs it.
  ghost predicate FreeFor(s: State, ctx: Context, r: NewBooking, start: int)
  {
    r.serviceId in ctx.services && !Taken(s.table, None, start, End(start, ctx.services[r.serviceId].duration))
  }

  lemma FirstServed(s: State, ctx: Context, rs: seq<NewBooking>, start: int)
    requires ContendFor(s, ctx, rs, start) && rs != [] && CreateAnswer(s, ctx, rs[0]) == Done
    ensures |Answers(s, ctx, rs)| == |rs| && Answers(s, ctx, rs)[0] == Done
    ensures forall i :: 1 <= i < |rs| ==> Answers(s, ctx, rs)[i] == Conflict
  {
    var r := rs[0];
    assert r in rs;
    var s' := Step(s, Create(ctx, r));
    assert s'.table == s.table[r.id := BookingOf(ctx, r)];
    forall x | x in rs[1..]
      ensures x in rs && x.id != r.id
    {
      var i :| 1 <= i < |rs| && rs[i] == x;
      assert x in rs && rs[0].id != rs[i].id;
    }
    LateComersConflict(s', ctx, rs[1..], start, r.id);
  }

  ghost predicate OneServed(answers: seq<Answer>, winner: nat) {
    winner < |answers| && forall i :: 0 <= i < |answers| ==> answers[i] == if i == winner then Done else Conflict
  }

  /**
   Any number of eligible requests contend for one start. If it is free for some of them, exactly one
   is served and all others are told of a conflict; if for none, none is.
   */
  lemma {:induction false} OneWinner(s: State, ctx: Context, rs: seq<NewBooking>, start: int)
    requires ContendFor(s, ctx, rs, start)
    ensures |Answers(s, ctx, rs)| == |rs|
    ensures if exists r :: r in rs && FreeFor(s, ctx, r, start) then exists w: nat :: OneServed(Answers(s, ctx, rs), w)
            else forall i :: 0 <= i < |rs| ==> Answers(s, ctx, rs)[i] == Conflict
    decreases |rs|
  {
    hide CreateAnswer, Screen, Taken, Step, FreeFor, ContendFor;
    if rs != [] {
      var r := rs[0];
      FirstAnswer(s, ctx, rs, start);
      if FreeFor(s, ctx, r, start) {
        FirstServed(s, ctx, rs, start);
        assert r in rs;
        assert OneServed(Answers(s, ctx, rs), 0);
      } else {
        OneWinner(s, ctx, rs[1..], start);
        LaterWinner(s, ctx, rs, start);
      }
    }
  }

  // A first request that is told of a conflict leaves the others to contend.
  lemma LaterWinner(s: State, ctx: Context, rs: seq<NewBooking>, start: int)
    requires rs != [] && !FreeFor(s, ctx, rs[0], start)
    requires CreateAnswer(s, ctx, rs[0]) == Conflict && Step(s, Create(ctx, rs[0])) == s
    requires |Answers(s, ctx, rs[1..])| == |rs| - 1
    requires if exists r :: r in rs[1..] && FreeFor(s, ctx, r, start) then exists w: nat :: OneServed(Answers(s, ctx, rs[1..]), w)
             else forall i :: 0 <= i < |rs| - 1 ==> Answers(s, ctx, rs[1..])[i] == Conflict
    ensures |Answers(s, ctx, rs)| == |rs|
    ensures if exists r :: r in rs && FreeFor(s, ctx, r, start) then exists w: nat :: OneServed(Answers(s, ctx, rs), w)
            else forall i :: 0 <= i < |rs| ==> Answers(s, ctx, rs)[i] == Conflict
  {
    hide CreateAnswer, Step, FreeFor;
    var all, rest := Answers(s, ctx, rs), Answers(s, ctx, rs[1..]);
    assert all == [Conflict] + rest;
    if x :| x in rs && FreeFor(s, ctx, x, start) {
      assert x in rs[1..];
      var w: nat :| OneServed(rest, w);
      assert OneServed(all, w + 1);
    } else if x :| x in rs[1..] && FreeFor(s, ctx, x, start) {
      assert x in rs;
    }
  }

  lemma FirstAnswer(s: State, ctx: Context, rs: seq<NewBooking>, start: int)
    requires ContendFor(s, ctx, rs, start) && rs != []
    ensures rs[0].serviceId in ctx.services
    ensures CreateAnswer(s, ctx, rs[0]) == if FreeFor(s, ctx, rs[0], start) then Done else Conflict
    ensures !FreeFor(s, ctx, rs[0], start) ==> Step(s, Create(ctx, rs[0])) == s
    ensures ContendFor(s, ctx, rs[1..], start)
  {
    assert rs[0] in rs;
    assert forall x :: x in rs[1..] ==> x in rs;
  }
}
