/**
 What one more booking or client does to the figures. Together with the empty table this fixes every
 figure of every table, as rows only ever come in one by one.
 */
module AnalyticsEffects {
  import opened Tables
  import opened Analytics

  function One(counts: bool): nat { if counts then 1 else 0 }

  /** Without rows every figure is zero. */
  lemma NothingCounted(daily: map<int, Stats>, lo: int, hi: int, day: int)
    ensures Direct(Db([], [], daily), lo, hi) == Stats(0, 0, 0, 0, 0, 0)
    ensures DayStats(Db([], [], daily), day) == Stats(0, 0, 0, 0, 0, 0)
  {}

  // The six queries, whatever the statuses counted in the total.
  lemma QueryAfterInsert(db: Db, row: Booking, counted: set<Status>, lo: int, hi: int)
    ensures var was, now := Query(db, counted, lo, hi), Query(db.(bookings := db.bookings + [row]), counted, lo, hi);
            var inside := lo <= row.start < hi;
            now == Stats(was.total + One(inside && row.status in counted),
                         was.completed + One(inside && row.status == Completed),
                         was.cancelled + One(inside && row.status == Cancelled),
                         was.noShows + One(inside && row.status == NoShow),
                         was.revenue + (if inside && row.status == Completed then row.price else 0),
                         was.newClients)
  {
    CountOneMore(db.bookings, row, counted, lo, hi);
    CountOneMore(db.bookings, row, {Completed}, lo, hi);
    CountOneMore(db.bookings, row, {Cancelled}, lo, hi);
    CountOneMore(db.bookings, row, {NoShow}, lo, hi);
  }

  lemma CountOneMore(rows: seq<Booking>, row: Booking, statuses: set<Status>, lo: int, hi: int)
    ensures Count(rows + [row], statuses, lo, hi) == Count(rows, statuses, lo, hi) + One(lo <= row.start < hi && row.status in statuses)
    ensures Revenue(rows + [row], lo, hi) ==
            Revenue(rows, lo, hi) + if lo <= row.start < hi && row.status == Completed then row.price else 0
  {
    CountConcat(rows, [row], statuses, lo, hi);
  }

  /**
   Direct figures: a booking that starts in the period counts in the total unless it is cancelled, in the
   counter of its status, and with its price as revenue if it is completed. Outside it counts nowhere.
   */
  lemma InsertInDirect(db: Db, row: Booking, lo: int, hi: int)
    ensures var was, now := Direct(db, lo, hi), Direct(Step(db, Insert(row)), lo, hi);
            if lo <= row.start < hi then
              now == Stats(was.total + One(row.status != Cancelled), was.completed + One(row.status == Completed),
                           was.cancelled + One(row.status == Cancelled), was.noShows + One(row.status == NoShow),
                           was.revenue + (if row.status == Completed then row.price else 0), was.newClients)
            else now == was
  {
    hide Query;
    QueryAfterInsert(db, row, ALL - {Cancelled}, lo, hi);
  }

  /** The figures stored for a day: the same of the day's bookings, but with every status in the total. */
  lemma InsertInDay(db: Db, row: Booking, day: int)
    ensures var was, now := DayStats(db, day), DayStats(Step(db, Insert(row)), day);
            if day * 86_400_000 <= row.start < (day + 1) * 86_400_000 then
              now == Stats(was.total + 1, was.completed + One(row.status == Completed),
                           was.cancelled + One(row.status == Cancelled), was.noShows + One(row.status == NoShow),
                           was.revenue + (if row.status == Completed then row.price else 0), was.newClients)
            else now == was
  {
    hide Query;
    QueryAfterInsert(db, row, ALL, day * 86_400_000, (day + 1) * 86_400_000);
  }

  /** A client created in the period is one new client and changes no other figure. */
  lemma JoinInFigures(db: Db, created: int, lo: int, hi: int, day: int)
    ensures var was, now := Direct(db, lo, hi), Direct(Step(db, Join(created)), lo, hi);
            now == was.(newClients := was.newClients + One(lo <= created < hi))
    ensures var was, now := DayStats(db, day), DayStats(Step(db, Join(created)), day);
            now == was.(newClients := was.newClients + One(day * 86_400_000 <= created < (day + 1) * 86_400_000))
  {
    JoinedConcat(db.clients, [created], lo, hi);
    JoinedConcat(db.clients, [created], day * 86_400_000, (day + 1) * 86_400_000);
  }

  /** The nightly job writes the figures of its day, replacing older ones, and changes nothing else. */
  lemma NightlyExact(db: Db, day: int, other: int)
    ensures var db' := Step(db, Nightly(day));
            && db'.bookings == db.bookings && db'.clients == db.clients
            && day in db'.daily && db'.daily[day] == DayStats(db, day)
            && (other != day ==> (other in db'.daily <==> other in db.daily) && (other in db.daily ==> db'.daily[other] == db.daily[other]))
  {}

  /** Figures do not depend on the order of the rows: changing a row is taking it out and putting the new one in. */
  lemma {:induction false} ChangeIsSwap(db: Db, i: nat, row: Booking, lo: int, hi: int)
    requires i < |db.bookings|
    ensures Direct(Step(db, Change(i, row)), lo, hi) == Direct(Step(Step(db, Delete(i)), Insert(row)), lo, hi)
    ensures Direct(db, lo, hi) == Direct(Step(Step(db, Delete(i)), Insert(db.bookings[i])), lo, hi)
  {
    hide Count, Revenue, Joined;
    var a, b := db.bookings[..i], db.bookings[i + 1..];
    assert db.bookings[i := row] == a + [row] + b && db.bookings == a + [db.bookings[i]] + b;
    MiddleLast(a, row, b, lo, hi);
    MiddleLast(a, db.bookings[i], b, lo, hi);
  }

  lemma MiddleLast(a: seq<Booking>, row: Booking, b: seq<Booking>, lo: int, hi: int)
    ensures Count(a + [row] + b, ALL - {Cancelled}, lo, hi) == Count(a + b + [row], ALL - {Cancelled}, lo, hi)
    ensures Count(a + [row] + b, {Completed}, lo, hi) == Count(a + b + [row], {Completed}, lo, hi)
    ensures Count(a + [row] + b, {Cancelled}, lo, hi) == Count(a + b + [row], {Cancelled}, lo, hi)
    ensures Count(a + [row] + b, {NoShow}, lo, hi) == Count(a + b + [row], {NoShow}, lo, hi)
    ensures Revenue(a + [row] + b, lo, hi) == Revenue(a + b + [row], lo, hi)
  {
    hide Count, Revenue;
    MiddleCount(a, row, b, ALL - {Cancelled}, lo, hi);
    MiddleCount(a, row, b, {Completed}, lo, hi);
    MiddleCount(a, row, b, {Cancelled}, lo, hi);
    MiddleCount(a, row, b, {NoShow}, lo, hi);
  }

  lemma MiddleCount(a: seq<Booking>, row: Booking, b: seq<Booking>, statuses: set<Status>, lo: int, hi: int)
    ensures Count(a + [row] + b, statuses, lo, hi) == Count(a + b + [row], statuses, lo, hi)
    ensures Revenue(a + [row] + b, lo, hi) == Revenue(a + b + [row], lo, hi)
  {
    hide Count, Revenue;
    CountConcat(a + [row], b, statuses, lo, hi);
    CountConcat(a, [row], statuses, lo, hi);
    CountConcat(a + b, [row], statuses, lo, hi);
    CountConcat(a, b, statuses, lo, hi);
  }
}
