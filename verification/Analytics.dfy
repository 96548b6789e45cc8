/**
 The daily statistics table as a cache of direct counting. Instants are in milliseconds, days start at
 multiples of DAY on the server's clock, and the booking and client tables are lists of rows.
 */
module Analytics {
  import opened Durations
  import opened Sets
  import opened Tables

  datatype Stats = Stats(total: nat, completed: nat, cancelled: nat, noShows: nat, revenue: nat, newClients: nat)

  const NONE := Stats(0, 0, 0, 0, 0, 0)

  function Plus(a: Stats, b: Stats): Stats {
    Stats(a.total + b.total, a.completed + b.completed, a.cancelled + b.cancelled,
          a.noShows + b.noShows, a.revenue + b.revenue, a.newClients + b.newClients)
  }

  // `clients` holds the creation instants. One row per day, so `daily` is a map from day numbers.
  datatype Db = Db(bookings: seq<Booking>, clients: seq<int>, daily: map<int, Stats>)

  predicate In(lo: int, hi: int, x: int) { lo <= x < hi }

  function Count(rows: seq<Booking>, statuses: set<Status>, lo: int, hi: int): nat {
    if rows == [] then 0
    else Count(rows[1..], statuses, lo, hi) + if In(lo, hi, rows[0].start) && rows[0].status in statuses then 1 else 0
  }

  function Revenue(rows: seq<Booking>, lo: int, hi: int): nat {
    if rows == [] then 0
    else Revenue(rows[1..], lo, hi) + if In(lo, hi, rows[0].start) && rows[0].status == Completed then rows[0].price else 0
  }

  function Joined(clients: seq<int>, lo: int, hi: int): nat {
    if clients == [] then 0 else Joined(clients[1..], lo, hi) + if In(lo, hi, clients[0]) then 1 else 0
  }

  const ALL: set<Status> := {Pending, Confirmed, Completed, Cancelled, NoShow}

  // The six queries, with the statuses that count as a booking.
  function Query(db: Db, counted: set<Status>, lo: int, hi: int): Stats {
    Stats(Count(db.bookings, counted, lo, hi), Count(db.bookings, {Completed}, lo, hi), Count(db.bookings, {Cancelled}, lo, hi),
          Count(db.bookings, {NoShow}, lo, hi), Revenue(db.bookings, lo, hi), Joined(db.clients, lo, hi))
  }

  /** Direct counting over a period. */
  function Direct(db: Db, lo: int, hi: int): Stats {
    Query(db, ALL - {Cancelled}, lo, hi)
  }

  /** What the nightly job stores for a day. Cancelled bookings are part of its total. */
  function DayStats(db: Db, day: int): Stats {
    Query(db, ALL, day * DAY, (day + 1) * DAY)
  }

  function Aggregate(db: Db, day: int): Db {
    db.(daily := db.daily[day := DayStats(db, day)])
  }

  // ---------------------------------------------------------------------------
  // Period statistics
  // ---------------------------------------------------------------------------

  // Rounds half a day up.
  function DiffDays(lo: int, hi: int): nat {
    var days := (2 * (hi - lo) + DAY) / (2 * DAY);
    if days < 0 then 0 else days
  }

  function Covered(daily: map<int, Stats>, lo: int, hi: int): set<int> {
    set day | day in daily && lo <= day * DAY <= hi - DAY
  }

  // The stored rows from day `first` up to, not including, day `last`.
  function StoredSum(daily: map<int, Stats>, first: int, last: int): Stats
    decreases last - first
  {
    if last <= first then NONE
    else Plus(StoredSum(daily, first, last - 1), if last - 1 in daily then daily[last - 1] else NONE)
  }

  function FirstDay(lo: int): int { -((-lo) / DAY) }

  function Aggregated(db: Db, lo: int, hi: int): Stats {
    var expected := DiffDays(lo, hi);
    if expected == 0 then NONE
    else if |Covered(db.daily, lo, hi)| < expected then Direct(db, lo, hi)
    else StoredSum(db.daily, FirstDay(lo), hi / DAY)
  }

  function Midnight(u: int): int { u / DAY * DAY }

  function PeriodStats(db: Db, from: int, to: int): Stats {
    var today := Midnight(to);
    if from >= today then Direct(db, from, to)
    else Plus(Aggregated(db, from, today), Direct(db, today, to))
  }

  // ---------------------------------------------------------------------------
  // Sums over adjoining periods
  // ---------------------------------------------------------------------------

  lemma {:induction false} CountSplits(rows: seq<Booking>, statuses: set<Status>, lo: int, mid: int, hi: int)
    requires lo <= mid <= hi
    ensures Count(rows, statuses, lo, hi) == Count(rows, statuses, lo, mid) + Count(rows, statuses, mid, hi)
  {
    if rows != [] {
      CountSplits(rows[1..], statuses, lo, mid, hi);
    }
  }

  lemma {:induction false} RevenueSplits(rows: seq<Booking>, lo: int, mid: int, hi: int)
    requires lo <= mid <= hi
    ensures Revenue(rows, lo, hi) == Revenue(rows, lo, mid) + Revenue(rows, mid, hi)
  {
    if rows != [] {
      RevenueSplits(rows[1..], lo, mid, hi);
    }
  }

  lemma {:induction false} JoinedSplits(clients: seq<int>, lo: int, mid: int, hi: int)
    requires lo <= mid <= hi
    ensures Joined(clients, lo, hi) == Joined(clients, lo, mid) + Joined(clients, mid, hi)
  {
    if clients != [] {
      JoinedSplits(clients[1..], lo, mid, hi);
    }
  }

  /** Figures for adjoining periods add up. */
  lemma QuerySplits(db: Db, counted: set<Status>, lo: int, mid: int, hi: int)
    requires lo <= mid <= hi
    ensures Query(db, counted, lo, hi) == Plus(Query(db, counted, lo, mid), Query(db, counted, mid, hi))
  {
    hide Count, Revenue, Joined;
    CountSplits(db.bookings, counted, lo, mid, hi);
    CountSplits(db.bookings, {Completed}, lo, mid, hi);
    CountSplits(db.bookings, {Cancelled}, lo, mid, hi);
    CountSplits(db.bookings, {NoShow}, lo, mid, hi);
    RevenueSplits(db.bookings, lo, mid, hi);
    JoinedSplits(db.clients, lo, mid, hi);
  }

  lemma {:induction false} CountEmpty(rows: seq<Booking>, statuses: set<Status>, at: int)
    ensures Count(rows, statuses, at, at) == 0 && Revenue(rows, at, at) == 0
  {
    if rows != [] {
      CountEmpty(rows[1..], statuses, at);
    }
  }

  lemma {:induction false} JoinedEmpty(clients: seq<int>, at: int)
    ensures Joined(clients, at, at) == 0
  {
    if clients != [] {
      JoinedEmpty(clients[1..], at);
    }
  }

  lemma QueryEmpty(db: Db, counted: set<Status>, at: int)
    ensures Query(db, counted, at, at) == NONE
  {
    hide Count, Revenue, Joined;
    CountEmpty(db.bookings, counted, at);
    CountEmpty(db.bookings, {Completed}, at);
    CountEmpty(db.bookings, {Cancelled}, at);
    CountEmpty(db.bookings, {NoShow}, at);
    JoinedEmpty(db.clients, at);
  }

  lemma {:induction false} CountAll(rows: seq<Booking>, lo: int, hi: int)
    ensures Count(rows, ALL, lo, hi) == Count(rows, ALL - {Cancelled}, lo, hi) + Count(rows, {Cancelled}, lo, hi)
  {
    if rows != [] {
      CountAll(rows[1..], lo, hi);
    }
  }

  // Counting every status adds the cancelled bookings and changes nothing else.
  function WithCancelled(s: Stats): Stats { s.(total := s.total + s.cancelled) }

  lemma TotalsDifferByCancelled(db: Db, lo: int, hi: int)
    ensures Query(db, ALL, lo, hi) == WithCancelled(Direct(db, lo, hi))
  {
    CountAll(db.bookings, lo, hi);
  }

  // ---------------------------------------------------------------------------
  // Coverage
  // ---------------------------------------------------------------------------

  function Days(first: int, last: int): (days: set<int>)
    ensures forall d :: d in days <==> first <= d < last
    ensures first <= last ==> |days| == last - first
    decreases last - first
  {
    if last <= first then {} else Days(first, last - 1) + {last - 1}
  }

  /** As many day rows as days means every day has one. */
  lemma CoverageMeansEveryDay(daily: map<int, Stats>, first: int, last: int)
    requires first <= last
    ensures |Covered(daily, first * DAY, last * DAY)| >= last - first <==> forall d :: first <= d < last ==> d in daily
  {
    var covered, days := Covered(daily, first * DAY, last * DAY), Days(first, last);
    assert covered <= days;
    SubsetSmaller(covered, days);
    if forall d :: first <= d < last ==> d in daily {
      assert covered == days;
    }
    if |covered| >= last - first {
      forall d | first <= d < last ensures d in daily {
        assert d in days && days == covered;
      }
    }
  }

  // ---------------------------------------------------------------------------
  // The stored figures
  // ---------------------------------------------------------------------------

  ghost predicate Fresh(db: Db, day: int) {
    day in db.daily && db.daily[day] == DayStats(db, day)
  }

  lemma {:induction false} StoredSumIsQuery(db: Db, first: int, last: int)
    requires first <= last
    requires forall d :: first <= d < last ==> Fresh(db, d)
    ensures StoredSum(db.daily, first, last) == Query(db, ALL, first * DAY, last * DAY)
    decreases last - first
  {
    hide Query;
    if first == last {
      QueryEmpty(db, ALL, first * DAY);
    } else {
      StoredSumIsQuery(db, first, last - 1);
      assert Fresh(db, last - 1);
      QuerySplits(db, ALL, first * DAY, (last - 1) * DAY, last * DAY);
    }
  }

  lemma DiffWholeDays(first: int, last: int)
    requires first <= last
    ensures DiffDays(first * DAY, last * DAY) == last - first
    ensures FirstDay(first * DAY) == first && last * DAY / DAY == last
  {}

  // The stored rows answer for the past part of the period.
  ghost predicate FromStore(db: Db, from: int, to: int) {
    from < Midnight(to) && forall d :: from <= d * DAY < Midnight(to) ==> d in db.daily
  }

  /** Aggregated figures are the direct ones, with cancelled bookings in the total when the store answers. */
  lemma AggregatedExact(db: Db, first: int, last: int)
    requires first < last
    requires forall d :: first <= d < last && d in db.daily ==> Fresh(db, d)
    ensures Aggregated(db, first * DAY, last * DAY) ==
            if forall d :: first <= d < last ==> d in db.daily then WithCancelled(Direct(db, first * DAY, last * DAY))
            else Direct(db, first * DAY, last * DAY)
  {
    hide Query, Covered, DiffDays, StoredSum, DayStats, FirstDay;
    DiffWholeDays(first, last);
    CoverageMeansEveryDay(db.daily, first, last);
    if forall d :: first <= d < last ==> d in db.daily {
      StoredSumIsQuery(db, first, last);
      TotalsDifferByCancelled(db, first * DAY, last * DAY);
    }
  }

  /**
   Over any period that starts at a midnight, reading through a fresh table is direct counting, except
   that the total also holds the cancelled bookings of the days the table answered for.
   */
  lemma PeriodStatsExact(db: Db, from: int, to: int)
    requires from % DAY == 0
    requires forall d :: from <= d * DAY < Midnight(to) && d in db.daily ==> Fresh(db, d)
    ensures var r, direct := PeriodStats(db, from, to), Direct(db, from, to);
            && r.completed == direct.completed && r.cancelled == direct.cancelled && r.noShows == direct.noShows
            && r.revenue == direct.revenue && r.newClients == direct.newClients
            && r.total == direct.total + if FromStore(db, from, to) then Direct(db, from, Midnight(to)).cancelled else 0
  {
    hide Query, Fresh, Aggregated;
    var first, last := from / DAY, to / DAY;
    assert from == first * DAY && Midnight(to) == last * DAY;
    if first < last {
      AggregatedExact(db, first, last);
      QuerySplits(db, ALL - {Cancelled}, from, last * DAY, to);
      assert FromStore(db, from, to) <==> forall d :: first <= d < last ==> d in db.daily;
    }
  }

  // By how much the next midnight lies ahead; nothing at a midnight.
  function UntilMidnight(u: int): int { (-u) % DAY }

  lemma DiffFromInside(from: int, last: int)
    requires from < last * DAY
    ensures var first := FirstDay(from);
            && from + UntilMidnight(from) == first * DAY && first <= last && UntilMidnight(from) < DAY
            && DiffDays(from, last * DAY) == last - first + if UntilMidnight(from) >= 43_200_000 then 1 else 0
  {
    var first := FirstDay(from);
    assert from == first * DAY - UntilMidnight(from);
  }

  lemma CoveredFromInside(daily: map<int, Stats>, from: int, last: int)
    ensures Covered(daily, from, last * DAY) == Covered(daily, FirstDay(from) * DAY, last * DAY)
  {
    forall day ensures from <= day * DAY <==> FirstDay(from) * DAY <= day * DAY {
      assert from + UntilMidnight(from) == FirstDay(from) * DAY && UntilMidnight(from) < DAY;
    }
  }

  /**
   Over any period at all that reaches back before today: from half a day or more before a midnight the table
   never answers. Later in the day it answers if every whole day has a row, and what remains of the first day is lost.
   */
  lemma AnyStartExact(db: Db, from: int, to: int)
    requires from < Midnight(to)
    requires forall d :: from <= d * DAY < Midnight(to) && d in db.daily ==> Fresh(db, d)
    ensures var start := from + UntilMidnight(from);
            PeriodStats(db, from, to) ==
              if UntilMidnight(from) < 43_200_000 && forall d :: from <= d * DAY < Midnight(to) ==> d in db.daily
              then Plus(WithCancelled(Direct(db, start, Midnight(to))), Direct(db, Midnight(to), to))
              else Direct(db, from, to)
  {
    hide Query, Covered, DiffDays, StoredSum, DayStats, FirstDay;
    var first, last := FirstDay(from), to / DAY;
    DiffFromInside(from, last);
    CoveredFromInside(db.daily, from, last);
    CoverageMeansEveryDay(db.daily, first, last);
    assert forall d :: from <= d * DAY < last * DAY <==> first <= d < last;
    CoverageBound(db.daily, first, last);
    QuerySplits(db, ALL - {Cancelled}, from, last * DAY, to);
    if forall d :: first <= d < last ==> d in db.daily {
      StoredSumIsQuery(db, first, last);
      TotalsDifferByCancelled(db, first * DAY, last * DAY);
      QueryEmpty(db, ALL - {Cancelled}, first * DAY);
    }
  }

  lemma CoverageBound(daily: map<int, Stats>, first: int, last: int)
    requires first <= last
    ensures |Covered(daily, first * DAY, last * DAY)| <= last - first
  {
    assert Covered(daily, first * DAY, last * DAY) <= Days(first, last);
    SubsetSmaller(Covered(daily, first * DAY, last * DAY), Days(first, last));
  }

  /** The dashboard asks up to the coming midnight, so even today is read from the table when it can be. */
  lemma DashboardReadsToday(db: Db, from: int, today: int)
    requires from <= today * DAY
    ensures PeriodStats(db, from, (today + 1) * DAY) == Aggregated(db, from, (today + 1) * DAY)
  {
    hide Query, Aggregated;
    QueryEmpty(db, ALL - {Cancelled}, (today + 1) * DAY);
  }

  // ---------------------------------------------------------------------------
  // Freshness over runs
  // ---------------------------------------------------------------------------

  datatype Event =
    | Insert(row: Booking)
    | Change(index: nat, row: Booking)
    | Delete(index: nat)
    | Join(created: int)
    | Nightly(day: int)

  predicate Enabled(db: Db, e: Event) {
    (e.Change? || e.Delete?) ==> e.index < |db.bookings|
  }

  function Step(db: Db, e: Event): Db
    requires Enabled(db, e)
  {
    match e
    case Insert(row) => db.(bookings := db.bookings + [row])
    case Change(i, row) => db.(bookings := db.bookings[i := row])
    case Delete(i) => db.(bookings := db.bookings[..i] + db.bookings[i + 1..])
    case Join(created) => db.(clients := db.clients + [created])
    case Nightly(day) => Aggregate(db, day)
  }

  // The step changes something the figures of the day are about.
  predicate Touches(db: Db, e: Event, day: int)
    requires Enabled(db, e)
  {
    match e
    case Insert(row) => row.start / DAY == day
    case Change(i, row) => row.start / DAY == day || db.bookings[i].start / DAY == day
    case Delete(i) => db.bookings[i].start / DAY == day
    case Join(created) => created / DAY == day
    case Nightly(_) => false
  }

  lemma {:induction false} CountConcat(a: seq<Booking>, b: seq<Booking>, statuses: set<Status>, lo: int, hi: int)
    ensures Count(a + b, statuses, lo, hi) == Count(a, statuses, lo, hi) + Count(b, statuses, lo, hi)
    ensures Revenue(a + b, lo, hi) == Revenue(a, lo, hi) + Revenue(b, lo, hi)
  {
    if a == [] {
      assert a + b == b;
    } else {
      assert (a + b)[1..] == a[1..] + b;
      CountConcat(a[1..], b, statuses, lo, hi);
    }
  }

  lemma {:induction false} JoinedConcat(a: seq<int>, b: seq<int>, lo: int, hi: int)
    ensures Joined(a + b, lo, hi) == Joined(a, lo, hi) + Joined(b, lo, hi)
  {
    if a == [] {
      assert a + b == b;
    } else {
      assert (a + b)[1..] == a[1..] + b;
      JoinedConcat(a[1..], b, lo, hi);
    }
  }

  // Rows that lie outside a period, put anywhere, change none of its figures.
  lemma ForeignRows(db: Db, a: seq<Booking>, mid: seq<Booking>, mid': seq<Booking>, b: seq<Booking>, day: int)
    requires db.bookings == a + mid + b && |mid| <= 1 && |mid'| <= 1
    requires forall r :: r in mid || r in mid' ==> r.start / DAY != day
    ensures DayStats(db.(bookings := a + mid' + b), day) == DayStats(db, day)
  {
    ForeignSwap(a, mid, mid', b, ALL, day);
    ForeignSwap(a, mid, mid', b, {Completed}, day);
    ForeignSwap(a, mid, mid', b, {Cancelled}, day);
    ForeignSwap(a, mid, mid', b, {NoShow}, day);
  }

  lemma ForeignSwap(a: seq<Booking>, mid: seq<Booking>, mid': seq<Booking>, b: seq<Booking>, statuses: set<Status>, day: int)
    requires |mid| <= 1 && |mid'| <= 1 && forall r :: r in mid || r in mid' ==> r.start / DAY != day
    ensures Count(a + mid + b, statuses, day * DAY, (day + 1) * DAY) == Count(a + mid' + b, statuses, day * DAY, (day + 1) * DAY)
    ensures Revenue(a + mid + b, day * DAY, (day + 1) * DAY) == Revenue(a + mid' + b, day * DAY, (day + 1) * DAY)
  {
    ForeignCount(a, mid, b, statuses, day);
    ForeignCount(a, mid', b, statuses, day);
  }

  lemma ForeignCount(a: seq<Booking>, mid: seq<Booking>, b: seq<Booking>, statuses: set<Status>, day: int)
    requires |mid| <= 1 && forall r :: r in mid ==> r.start / DAY != day
    ensures Count(a + mid + b, statuses, day * DAY, (day + 1) * DAY) == Count(a + b, statuses, day * DAY, (day + 1) * DAY)
    ensures Revenue(a + mid + b, day * DAY, (day + 1) * DAY) == Revenue(a + b, day * DAY, (day + 1) * DAY)
  {
    var lo, hi := day * DAY, (day + 1) * DAY;
    CountConcat(a + mid, b, statuses, lo, hi);
    CountConcat(a, mid, statuses, lo, hi);
    CountConcat(a, b, statuses, lo, hi);
  }

  /** A step that does not touch a day leaves its stored row as fresh as it was. */
  lemma StepKeepsFresh(db: Db, e: Event, day: int)
    requires Fresh(db, day) && Enabled(db, e) && !Touches(db, e, day)
    ensures Fresh(Step(db, e), day)
  {
    hide DayStats;
    match e
    case Insert(row) =>
      assert db.bookings == db.bookings + [] + [] && db.bookings + [row] == db.bookings + [row] + [];
      ForeignRows(db, db.bookings, [], [row], [], day);
    case Change(i, row) =>
      var a, b := db.bookings[..i], db.bookings[i + 1..];
      assert db.bookings == a + [db.bookings[i]] + b && db.bookings[i := row] == a + [row] + b;
      ForeignRows(db, a, [db.bookings[i]], [row], b, day);
    case Delete(i) =>
      var a, b := db.bookings[..i], db.bookings[i + 1..];
      assert db.bookings == a + [db.bookings[i]] + b && a + b == a + [] + b;
      ForeignRows(db, a, [db.bookings[i]], [], b, day);
    case Join(created) => NewClientElsewhere(db, created, day);
    case Nightly(d) => StatsIgnoreStore(db, db.daily[d := DayStats(db, d)], day);
  }

  lemma NewClientElsewhere(db: Db, created: int, day: int)
    requires created / DAY != day
    ensures DayStats(db.(clients := db.clients + [created]), day) == DayStats(db, day)
  {
    JoinedConcat(db.clients, [created], day * DAY, (day + 1) * DAY);
  }

  lemma StatsIgnoreStore(db: Db, daily: map<int, Stats>, day: int)
    ensures DayStats(db.(daily := daily), day) == DayStats(db, day)
  {}

  ghost predicate Runnable(db: Db, es: seq<Event>)
    decreases |es|
  {
    es == [] || (Enabled(db, es[0]) && Runnable(Step(db, es[0]), es[1..]))
  }

  ghost function Run(db: Db, es: seq<Event>): Db
    requires Runnable(db, es)
    decreases |es|
  {
    if es == [] then db else Run(Step(db, es[0]), es[1..])
  }

  ghost predicate Untouched(db: Db, es: seq<Event>, day: int)
    requires Runnable(db, es)
    decreases |es|
  {
    es == [] || (!Touches(db, es[0], day) && Untouched(Step(db, es[0]), es[1..], day))
  }

  /** A day stays fresh from its aggregation on, through any run that leaves the day itself alone. */
  lemma FreshSinceAggregation(db: Db, es: seq<Event>, day: int)
    requires Runnable(Aggregate(db, day), es) && Untouched(Aggregate(db, day), es, day)
    ensures Fresh(Run(Aggregate(db, day), es), day)
  {
    StatsIgnoreStore(db, Aggregate(db, day).daily, day);
    StaysFresh(Aggregate(db, day), es, day);
  }

  lemma {:induction false} StaysFresh(db: Db, es: seq<Event>, day: int)
    requires Fresh(db, day) && Runnable(db, es) && Untouched(db, es, day)
    ensures Fresh(Run(db, es), day)
    decreases |es|
  {
    if es != [] {
      StepKeepsFresh(db, es[0], day);
      StaysFresh(Step(db, es[0]), es[1..], day);
    }
  }

  // ---------------------------------------------------------------------------
  // The service
  // ---------------------------------------------------------------------------

  class AnalyticsService {
    var bookings: seq<Booking>
    var clients: seq<int>
    var daily: map<int, Stats>

    ghost function State(): Db
      reads this
    {
      Db(bookings, clients, daily)
    }

    constructor (bookings: seq<Booking>, clients: seq<int>)
      ensures State() == Db(bookings, clients, map[])
    {
      this.bookings, this.clients, daily := bookings, clients, map[];
    }

    method AggregateDaily(date: int)
      modifies this`daily
      ensures State() == Aggregate(old(State()), date / DAY)
      ensures Fresh(State(), date / DAY)
    {
      var day := date / DAY;
      var dayStart := day * DAY;
      var dayEnd := dayStart + DAY;
      var total := Count(bookings, ALL, dayStart, dayEnd);
      var completed := Count(bookings, {Completed}, dayStart, dayEnd);
      var cancelled := Count(bookings, {Cancelled}, dayStart, dayEnd);
      var noShow := Count(bookings, {NoShow}, dayStart, dayEnd);
      var revenue := Revenue(bookings, dayStart, dayEnd);
      var newClients := Joined(clients, dayStart, dayEnd);
      daily := daily[day := Stats(total, completed, cancelled, noShow, revenue, newClients)];
    }
  }
}
