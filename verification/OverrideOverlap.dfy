/**
 Date overrides and double booking: the checks compare times of day only, so an accepted request can
 leave bookings that overlap. When it does, and when the table constraint lets the save through.
 */
module OverrideOverlap {
  import opened Wrappers
  import opened Durations
  import opened SlotTimes
  import opened Tables
  import opened Moves
  import opened Zones
  import opened DateOverride
  import Bookings
  import BookingsProofs
  import opened Schedule

  // ---------------------------------------------------------------------------
  // The whole request
  // ---------------------------------------------------------------------------

  // Active and not about to be cancelled.
  predicate Stays(table: Table, z: Zone, day: int, req: Request, id: string) {
    id in table && table[id].Active() && !(id in CancelIds(req) && InDay(z, day, table[id].start))
  }

  predicate Reassigned(req: Request, id: string) {
    id in MovedIds(req.reassignments)
  }

  // When a booking will start: at its last target, if it has a valid one.
  function StartAfter(table: Table, z: Zone, day: int, req: Request, id: string): int
    requires id in table
  {
    var t := LastFor(req.reassignments, id);
    if t.Some? && IsSlotTime(t.value) then Build(z, day, Minutes(t.value)) else table[id].start
  }

  function EndAfter(table: Table, z: Zone, day: int, req: Request, id: string): int
    requires id in table
  {
    if Reassigned(req, id) then StartAfter(table, z, day, req, id) + table[id].duration * MINUTE else table[id].end
  }

  /** Every reassigned booking that stays lands clear of every other booking that stays, on any date. */
  ghost predicate LandsClear(table: Table, z: Zone, day: int, req: Request) {
    forall i, j :: Stays(table, z, day, req, i) && Reassigned(req, i) && Stays(table, z, day, req, j) && i != j ==>
      StartAfter(table, z, day, req, j) >= EndAfter(table, z, day, req, i) ||
      StartAfter(table, z, day, req, i) >= EndAfter(table, z, day, req, j)
  }

  lemma RowLands(table: Table, z: Zone, date: string, day: int, req: Request, id: string)
    requires Verdict(table, z, date, day, req) == Saved && id in table
    ensures id in NewTable(table, z, date, day, req)
    ensures var b := NewTable(table, z, date, day, req)[id];
            && (b.Active() <==> Stays(table, z, day, req, id))
            && b.start == StartAfter(table, z, day, req, id) && b.end == EndAfter(table, z, day, req, id)
  {
    hide NewTable, Verdict, IsSlotTime, Build, Minutes, InDay, NextSlots;
    NewTableRow(table, z, date, day, req, id);
    LastForFound(req.reassignments, id);
  }

  /** An accepted request keeps the table free of overlaps if and only if its reassigned bookings land clear. */
  lemma OverrideOverlapExact(table: Table, z: Zone, date: string, day: int, req: Request)
    requires Verdict(table, z, date, day, req) == Saved && NoOverlap(table)
    ensures NoOverlap(NewTable(table, z, date, day, req)) <==> LandsClear(table, z, day, req)
  {
    hide NewTable, Verdict, StartAfter, EndAfter, Stays;
    var t' := NewTable(table, z, date, day, req);
    SameIds(table, z, date, day, req);
    forall id | id in table
      ensures id in t' && (t'[id].Active() <==> Stays(table, z, day, req, id))
      ensures t'[id].start == StartAfter(table, z, day, req, id) && t'[id].end == EndAfter(table, z, day, req, id)
    {
      RowLands(table, z, date, day, req, id);
    }
    forall id | Stays(table, z, day, req, id)
      ensures id in table && table[id].Active()
      ensures !Reassigned(req, id) ==>
                StartAfter(table, z, day, req, id) == table[id].start && EndAfter(table, z, day, req, id) == table[id].end
    {
      NotReassigned(table, z, day, req, id);
    }
    if LandsClear(table, z, day, req) {
      forall i, j | i in t' && j in t' && i != j && t'[i].Active() && t'[j].Active() ensures !Overlap(t'[i], t'[j]) {
        if !Reassigned(req, i) && !Reassigned(req, j) {
          assert !Overlap(table[i], table[j]);
        }
      }
    }
    if NoOverlap(t') {
      forall i, j | Stays(table, z, day, req, i) && Reassigned(req, i) && Stays(table, z, day, req, j) && i != j
        ensures StartAfter(table, z, day, req, j) >= EndAfter(table, z, day, req, i) ||
                StartAfter(table, z, day, req, i) >= EndAfter(table, z, day, req, j)
      {
        assert !Overlap(t'[i], t'[j]);
      }
    }
  }

  lemma SameIds(table: Table, z: Zone, date: string, day: int, req: Request)
    requires Verdict(table, z, date, day, req) == Saved
    ensures NewTable(table, z, date, day, req).Keys == table.Keys
  {
    SavedMeans(table, z, date, day, req);
  }

  lemma NotReassigned(table: Table, z: Zone, day: int, req: Request, id: string)
    requires Stays(table, z, day, req, id)
    ensures id in table && table[id].Active()
    ensures !Reassigned(req, id) ==>
              StartAfter(table, z, day, req, id) == table[id].start && EndAfter(table, z, day, req, id) == table[id].end
  {
    LastForFound(req.reassignments, id);
  }

  // ---------------------------------------------------------------------------
  // Row by row
  // ---------------------------------------------------------------------------

  /** The database checks its constraint after every row written, so no prefix of the moves may overlap. */
  ghost predicate RowsAccepted(table: Table, moves: seq<Move<int>>)
    requires forall m :: m in moves ==> m.id in table
  {
    forall n :: 0 <= n <= |moves| ==> NoOverlap(MovedTable(table, moves[..n]))
  }

  predicate Targets(table: Table, rs: seq<Reassignment>) {
    forall r :: r in rs ==> r.id in table && IsSlotTime(r.to)
  }

  ghost predicate SaveAccepted(table: Table, z: Zone, day: int, rs: seq<Reassignment>) {
    Targets(table, rs) && RowsAccepted(table, Starts(z, day, rs))
  }

  // Each move finds its time free of all other bookings as they are by then, those still to be moved or cancelled included.
  ghost predicate EachFindsRoom(table: Table, moves: seq<Move<int>>)
    requires forall m :: m in moves ==> m.id in table
  {
    forall n :: 0 <= n < |moves| ==> FindsRoom(MovedTable(table, moves[..n]), moves[n])
  }

  ghost predicate FindsRoom(table: Table, m: Move<int>) {
    m.id in table && (table[m.id].Active() ==>
      !Bookings.Taken(table, Some(m.id), m.to, m.to + table[m.id].duration * MINUTE))
  }

  /** All rows are accepted if and only if each move, in turn, finds its time free. */
  lemma {:induction false} RowsAcceptedExact(table: Table, moves: seq<Move<int>>)
    requires NoOverlap(table) && forall m :: m in moves ==> m.id in table
    ensures RowsAccepted(table, moves) <==> EachFindsRoom(table, moves)
    decreases |moves|
  {
    hide FindsRoom, NoOverlap, MovedTable, RowsAccepted, EachFindsRoom;
    if moves == [] {
      NoMoves(table, moves);
    } else {
      var earlier := moves[..|moves| - 1];
      RowsAcceptedExact(table, earlier);
      RowsAcceptedSnoc(table, moves);
      EachFindsRoomSnoc(table, moves);
      if NoOverlap(MovedTable(table, earlier)) {
        OneMoveExact(table, moves);
      }
    }
  }

  lemma NoMoves(table: Table, moves: seq<Move<int>>)
    requires moves == [] && NoOverlap(table)
    ensures RowsAccepted(table, moves) && EachFindsRoom(table, moves)
  {
    hide NoOverlap;
  }

  lemma RowsAcceptedSnoc(table: Table, moves: seq<Move<int>>)
    requires moves != [] && forall m :: m in moves ==> m.id in table
    ensures RowsAccepted(table, moves) <==> RowsAccepted(table, moves[..|moves| - 1]) && NoOverlap(MovedTable(table, moves))
    ensures RowsAccepted(table, moves[..|moves| - 1]) ==> NoOverlap(MovedTable(table, moves[..|moves| - 1]))
  {
    hide NoOverlap, MovedTable;
    var n := |moves| - 1;
    var earlier := moves[..n];
    assert earlier[..n] == earlier && moves[..n + 1] == moves;
    forall k | 0 <= k <= n ensures earlier[..k] == moves[..k] {}
  }

  lemma EachFindsRoomSnoc(table: Table, moves: seq<Move<int>>)
    requires moves != [] && forall m :: m in moves ==> m.id in table
    ensures moves[|moves| - 1] in moves
    ensures EachFindsRoom(table, moves) <==>
            EachFindsRoom(table, moves[..|moves| - 1]) && FindsRoom(MovedTable(table, moves[..|moves| - 1]), moves[|moves| - 1])
  {
    hide FindsRoom, MovedTable;
    var n := |moves| - 1;
    var earlier := moves[..n];
    forall k | 0 <= k < n ensures earlier[..k] == moves[..k] && earlier[k] == moves[k] {}
  }

  lemma OneMoveExact(table: Table, moves: seq<Move<int>>)
    requires moves != [] && forall m :: m in moves ==> m.id in table
    requires NoOverlap(MovedTable(table, moves[..|moves| - 1]))
    ensures moves[|moves| - 1] in moves
    ensures NoOverlap(MovedTable(table, moves)) <==> FindsRoom(MovedTable(table, moves[..|moves| - 1]), moves[|moves| - 1])
  {
    hide NoOverlap, FindsRoom;
    var m := moves[|moves| - 1];
    assert m in moves;
    var before := MovedTable(table, moves[..|moves| - 1]);
    assert MovedTable(table, moves) == before[m.id := MovedTo(before[m.id], m.to)];
    hide MovedTable;
    WriteFindsRoom(before, m);
  }

  lemma WriteFindsRoom(table: Table, m: Move<int>)
    requires NoOverlap(table) && m.id in table
    ensures NoOverlap(table[m.id := MovedTo(table[m.id], m.to)]) <==> FindsRoom(table, m)
  {
    hide NoOverlap, Bookings.Taken;
    BookingsProofs.WriteExact(table, m.id, MovedTo(table[m.id], m.to));
  }

  // ---------------------------------------------------------------------------
  // Two requests
  // ---------------------------------------------------------------------------

  const UTC: Zone := (u: int) => 0

  function Hours(from: nat, to: nat): Booking
    requires from <= to
  {
    Booking("c", "s", from * HOUR, to * HOUR, (to - from) * 60, 0, Confirmed)
  }

  lemma UtcTimes(h: nat)
    requires h < 24
    ensures FormatTime(UTC, h * HOUR) == TimeText(60 * h) && InDay(UTC, 0, h * HOUR) && Build(UTC, 0, 60 * h) == h * HOUR
  {
    hide TimeText;
    assert h * HOUR == Wall(0, 60 * h);
    SplitWall(0, 60 * h, 0);
  }

  lemma ClockTexts()
    ensures TimeText(540) == "09:00" && TimeText(660) == "11:00" && TimeText(720) == "12:00"
    ensures IsSlotTime("09:00") && IsSlotTime("11:00") && IsSlotTime("12:00")
    ensures Minutes("09:00") == 540 && Minutes("11:00") == 660 && Minutes("12:00") == 720
  {
    SlotTexts();
    hide TimeText, IsSlotTime, Minutes;
    TextOfMinutes("09:00");
    TextOfMinutes("11:00");
    TextOfMinutes("12:00");
  }

  lemma SlotTexts()
    ensures IsSlotTime("09:00") && IsSlotTime("11:00") && IsSlotTime("12:00")
    ensures Minutes("09:00") == 540 && Minutes("11:00") == 660 && Minutes("12:00") == 720
  {}

  lemma KeyIsDate()
    ensures IsDateKey("2026-01-01")
  {}

  // Two bookings of the first day of 2026, numbered 0 here.
  function Two(a: Booking, b: Booking): Table { map["a" := a, "b" := b] }

  function Ask(slots: seq<string>, rs: seq<Reassignment>): Request {
    Request("", false, slots, rs, [])
  }

  // When such a request passes all checks.
  lemma Passes(table: Table, slots: seq<string>, rs: seq<Reassignment>)
    requires IsNormal(slots) && forall r :: r in rs ==> r.id in DayBookings(table, UTC, 0) && r.to in slots
    requires forall i, j :: 0 <= i < j < |rs| ==> rs[i].to != rs[j].to
    requires forall id :: id in DayBookings(table, UTC, 0) && id !in MovedIds(rs) ==>
               FormatTime(UTC, table[id].start) in slots && forall r :: r in rs ==> r.to != FormatTime(UTC, table[id].start)
    ensures Verdict(table, UTC, "2026-01-01", 0, Ask(slots, rs)) == Saved
  {
    hide FormatTime, IsDateKey, IsNormal, NormalSlots, CheckTargets, CheckFree;
    var req := Ask(slots, rs);
    var d := DayBookings(table, UTC, 0);
    KeyIsDate();
    NormalSlotsFixed(slots);
    assert UnresolvedIds(d, UTC, req) == {};
    TargetsOk(d, slots, rs);
    FreeOk(RetainedTimes(d, UTC, req), rs);
    forall i | 0 <= i < |rs| ensures rs[i].to !in RetainedTimes(d, UTC, req) {
      assert rs[i] in rs;
    }
  }

  lemma TwoOfTheDay(from: nat, to: nat, from': nat, to': nat)
    requires from < to <= from' < to' <= 24
    ensures var table := Two(Hours(from, to), Hours(from', to'));
            && DayBookings(table, UTC, 0) == table && NoOverlap(table)
            && FormatTime(UTC, table["a"].start) == TimeText(60 * from) && FormatTime(UTC, table["b"].start) == TimeText(60 * from')
  {
    hide FormatTime, InDay, TimeText;
    UtcTimes(from);
    UtcTimes(from');
  }

  const LONG := Two(Hours(9, 11), Hours(12, 13))
  const TO_ELEVEN: seq<Reassignment> := [Move("a", "11:00")]

  lemma ToElevenPasses()
    ensures NoOverlap(LONG) && Verdict(LONG, UTC, "2026-01-01", 0, Ask(["11:00", "12:00"], TO_ELEVEN)) == Saved
  {
    hide Verdict, FormatTime, InDay, TimeText, DayBookings, NoOverlap;
    ClockTexts();
    TwoOfTheDay(9, 11, 12, 13);
    Passes(LONG, ["11:00", "12:00"], TO_ELEVEN);
  }

  lemma ToElevenLands()
    ensures var req := Ask(["11:00", "12:00"], TO_ELEVEN);
            && Stays(LONG, UTC, 0, req, "a") && Stays(LONG, UTC, 0, req, "b") && Reassigned(req, "a")
            && EndAfter(LONG, UTC, 0, req, "a") == 13 * HOUR && StartAfter(LONG, UTC, 0, req, "a") == 11 * HOUR
            && EndAfter(LONG, UTC, 0, req, "b") == 13 * HOUR && StartAfter(LONG, UTC, 0, req, "b") == 12 * HOUR
  {
    hide FormatTime, InDay, TimeText, IsSlotTime, Minutes, Build;
    ClockTexts();
    UtcTimes(11);
    assert TO_ELEVEN[0] in TO_ELEVEN && LastFor(TO_ELEVEN, "a") == Some("11:00");
    assert TO_ELEVEN[..0] == [] && LastFor(TO_ELEVEN, "b") == None;
  }

  /** A two-hour booking sent to 11:00 runs into the one at 12:00, and every check passes. */
  lemma OverrideCanOverlap()
    ensures var req := Ask(["11:00", "12:00"], TO_ELEVEN);
            && NoOverlap(LONG) && Verdict(LONG, UTC, "2026-01-01", 0, req) == Saved
            && !NoOverlap(NewTable(LONG, UTC, "2026-01-01", 0, req))
  {
    hide Verdict, NewTable, NoOverlap, Stays, Reassigned, StartAfter, EndAfter;
    ToElevenPasses();
    ToElevenLands();
    OverrideOverlapExact(LONG, UTC, "2026-01-01", 0, Ask(["11:00", "12:00"], TO_ELEVEN));
  }

  const SHORT := Two(Hours(9, 10), Hours(12, 13))
  const SWAP: seq<Reassignment> := [Move("a", "12:00"), Move("b", "09:00")]

  lemma SwapPasses()
    ensures NoOverlap(SHORT) && Verdict(SHORT, UTC, "2026-01-01", 0, Ask(["09:00", "12:00"], SWAP)) == Saved
  {
    hide Verdict, FormatTime, InDay, TimeText, DayBookings, NoOverlap;
    ClockTexts();
    TwoOfTheDay(9, 10, 12, 13);
    assert SWAP[0] in SWAP && SWAP[1] in SWAP;
    Passes(SHORT, ["09:00", "12:00"], SWAP);
  }

  lemma SwapLands()
    ensures LandsClear(SHORT, UTC, 0, Ask(["09:00", "12:00"], SWAP))
  {
    hide FormatTime, InDay, TimeText, IsSlotTime, Minutes, Build;
    ClockTexts();
    UtcTimes(9);
    UtcTimes(12);
    assert SWAP[..1] == [SWAP[0]];
    assert LastFor(SWAP, "a") == Some("12:00") && LastFor(SWAP, "b") == Some("09:00");
  }

  lemma SwapMeets()
    ensures forall r :: r in SWAP ==> r.id in SHORT && IsSlotTime(r.to)
    ensures !FindsRoom(MovedTable(SHORT, Starts(UTC, 0, SWAP)[..0]), Starts(UTC, 0, SWAP)[0])
  {
    hide IsSlotTime, Minutes, Build, TimeText, FormatTime, InDay;
    ClockTexts();
    UtcTimes(12);
    var moves := Starts(UTC, 0, SWAP);
    assert moves[..0] == [] && moves[0] == Move("a", 12 * HOUR);
    assert "b" in SHORT && SHORT["b"].Active() && SHORT["b"].start == 12 * HOUR && SHORT["b"].end == 13 * HOUR;
  }

  /** Two bookings that change places end up apart, but the first row written meets the second booking. */
  lemma SwapIsRefused()
    ensures var req := Ask(["09:00", "12:00"], SWAP);
            && NoOverlap(SHORT) && Verdict(SHORT, UTC, "2026-01-01", 0, req) == Saved
            && NoOverlap(NewTable(SHORT, UTC, "2026-01-01", 0, req))
            && Targets(SHORT, SWAP) && !SaveAccepted(SHORT, UTC, 0, SWAP)
  {
    hide Verdict, NewTable, NoOverlap, LandsClear, RowsAccepted, FindsRoom, MovedTable, IsSlotTime, Starts;
    SwapPasses();
    SwapLands();
    SwapMeets();
    OverrideOverlapExact(SHORT, UTC, "2026-01-01", 0, Ask(["09:00", "12:00"], SWAP));
    RowsAcceptedExact(SHORT, Starts(UTC, 0, SWAP));
  }
}
