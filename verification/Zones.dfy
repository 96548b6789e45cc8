/**
 Local time in a zone. A zone gives its offset from UTC, in milliseconds, at every instant; a day is
 numbered by how many days its midnight lies after the epoch, read as UTC.
 */
module Zones {
  import opened Durations
  import opened SlotTimes

  type Zone = int -> int

  ghost predicate WholeMinutes(z: Zone) {
    forall u :: z(u) % MINUTE == 0
  }

  // The wall clock reading, taken as if it were UTC.
  function Wall(day: int, minute: nat): int {
    day * DAY + minute * MINUTE
  }

  /** The instant of a local date and time: the offset is looked up at the wall time read as UTC. */
  function Build(z: Zone, day: int, minute: nat): int {
    Wall(day, minute) - z(Wall(day, minute))
  }

  function LocalDay(z: Zone, u: int): int {
    (u + z(u)) / DAY
  }

  function LocalMinute(z: Zone, u: int): (m: nat)
    ensures m < 1440
  {
    (u + z(u)) % DAY / MINUTE
  }

  function FormatTime(z: Zone, u: int): string {
    TimeText(LocalMinute(z, u))
  }

  lemma SplitWall(day: int, minute: nat, rest: nat)
    requires minute < 1440 && rest < MINUTE
    ensures (Wall(day, minute) + rest) / DAY == day
    ensures (Wall(day, minute) + rest) % DAY / MINUTE == minute
  {}

  lemma JoinWall(w: int)
    ensures w % DAY / MINUTE < 1440 && w % MINUTE < MINUTE
    ensures w == Wall(w / DAY, w % DAY / MINUTE) + w % MINUTE
  {}

  /** The local date and time of an instant: its offset is taken at the instant itself, seconds are dropped. */
  lemma LocalTimeExact(z: Zone, u: int, day: int, minute: nat)
    requires minute < 1440
    ensures (LocalDay(z, u) == day && LocalMinute(z, u) == minute) <==>
            day * 86_400_000 + minute * 60_000 <= u + z(u) < day * 86_400_000 + minute * 60_000 + 60_000
  {
    hide Wall;
    WallExact(day, minute);
    JoinWall(u + z(u));
    var rest := u + z(u) - Wall(day, minute);
    if 0 <= rest < MINUTE {
      SplitWall(day, minute, rest);
    }
  }

  lemma WallExact(day: int, minute: nat)
    ensures Wall(day, minute) == day * 86_400_000 + minute * 60_000
  {}

  /** Formatting undoes building exactly when both look-ups of the offset agree. */
  lemma BuildThenFormat(z: Zone, day: int, minute: nat)
    requires WholeMinutes(z) && minute < 1440
    ensures (LocalDay(z, Build(z, day, minute)) == day && LocalMinute(z, Build(z, day, minute)) == minute)
            <==> z(Wall(day, minute)) == z(Build(z, day, minute))
  {
    hide Wall;
    var u := Build(z, day, minute);
    SplitWall(day, minute, 0);
    WallWholeMinutes(day, minute, z(Wall(day, minute)), z(u));
    JoinWall(u + z(u));
  }

  lemma WallWholeMinutes(day: int, minute: nat, a: int, b: int)
    requires a % MINUTE == 0 && b % MINUTE == 0
    ensures (Wall(day, minute) - a + b) % MINUTE == 0
  {
    assert Wall(day, minute) % MINUTE == 0;
  }

  // A zone that moves its clocks from two to three hours ahead one hour after the epoch.
  const SPRING_FORWARD: Zone := (u: int) => if u < 60 * MINUTE then 120 * MINUTE else 180 * MINUTE

  /** On a day the clocks change a built time can show as another: 03:30 comes out as 02:30. */
  lemma ClockChangeShiftsTime()
    ensures LocalMinute(SPRING_FORWARD, Build(SPRING_FORWARD, 0, 210)) == 150
  {}

  // ---------------------------------------------------------------------------
  // Days without a change of offset
  // ---------------------------------------------------------------------------

  ghost predicate Regular(z: Zone, day: int) {
    var c := z(Wall(day, 0));
    forall u :: (Wall(day, 0) <= u < Wall(day + 1, 0) || Wall(day, 0) <= u + c < Wall(day + 1, 0)) ==> z(u) == c
  }

  lemma RegularBuild(z: Zone, day: int, minute: nat)
    requires Regular(z, day) && minute < 1440
    ensures Build(z, day, minute) == Wall(day, minute) - z(Wall(day, 0))
    ensures LocalDay(z, Build(z, day, minute)) == day && LocalMinute(z, Build(z, day, minute)) == minute
  {
    SplitWall(day, minute, 0);
    assert z(Wall(day, minute)) == z(Wall(day, 0));
    assert z(Build(z, day, minute)) == z(Wall(day, 0));
  }

  // The window both services query for the bookings of a date, from 00:00 to 23:59.
  predicate InDay(z: Zone, day: int, u: int) {
    Build(z, day, 0) <= u <= Build(z, day, 1439)
  }

  /** The window in milliseconds: from local midnight to the start of the last minute, each found with its own offset. */
  lemma WindowExact(z: Zone, day: int, u: int)
    ensures InDay(z, day, u) <==>
            day * 86_400_000 - z(day * 86_400_000) <= u <= day * 86_400_000 + 86_340_000 - z(day * 86_400_000 + 86_340_000)
  {
    assert Wall(day, 0) == day * 86_400_000 && Wall(day, 1439) == day * 86_400_000 + 86_340_000;
  }

  /** Inside the window the local time of an instant is its built time rounded down to the minute. */
  lemma LocalTimeInDay(z: Zone, day: int, u: int)
    requires Regular(z, day) && InDay(z, day, u)
    ensures LocalDay(z, u) == day
    ensures Build(z, day, LocalMinute(z, u)) <= u < Build(z, day, LocalMinute(z, u)) + MINUTE
  {
    var c := z(Wall(day, 0));
    RegularBuild(z, day, 0);
    RegularBuild(z, day, 1439);
    assert z(u) == c;
    JoinWall(u + c);
    assert Wall(day, 0) <= u + c <= Wall(day, 1439);
    RegularBuild(z, day, LocalMinute(z, u));
  }
}
