/** The booking table shared by the booking, schedule and reminder models. Instants are in milliseconds. */
module Tables {
  import opened Durations

  datatype Status = Pending | Confirmed | Completed | Cancelled | NoShow

  datatype Booking = Booking(clientId: string, serviceId: string, start: int, end: int, duration: nat, price: nat, status: Status)
  {
    predicate Active() { status != Cancelled }
  }

  type Table = map<string, Booking>

  /** Two bookings share time; each runs up to, not including, its end. */
  predicate Overlap(a: Booking, b: Booking) {
    a.start < b.end && b.start < a.end
  }

  ghost predicate NoOverlap(table: Table) {
    forall i, j :: i in table && j in table && i != j && table[i].Active() && table[j].Active() ==> !Overlap(table[i], table[j])
  }

  ghost predicate EndsFit(table: Table) {
    forall i :: i in table ==> table[i].end == table[i].start + table[i].duration * MINUTE
  }
}
