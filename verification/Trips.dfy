/** What the region nodes mean by a trip, a clash and a booking's status:
    Archive/database/db.py, lines 139-151, and models/booking.py. */
module Trips {
  type City = string
  type Id = nat

  /** 0.0208 days in microseconds: the window of check_conflict. */
  const CONFLICT_WINDOW: int := 1_797_120_000

  datatype Trip = Trip(origin: City, dest: City, departure: int)

  predicate Clash(a: Trip, b: Trip) {
    && a.origin == b.origin && a.dest == b.dest
    && -CONFLICT_WINDOW < a.departure - b.departure < CONFLICT_WINDOW
  }

  datatype Status = Held | Confirmed | Cancelled

  function Rank(status: Status): nat {
    match status
    case Held => 0
    case Confirmed => 1
    case Cancelled => 2
  }

  const HALF_HOUR: int := 30 * 60 * 1_000_000

  /** The documented window is half an hour; two trips 1798 seconds apart do not clash. */
  lemma WindowIsShort()
    ensures var a, b := Trip("Lyon", "Nice", 0), Trip("Lyon", "Nice", 1_798_000_000);
            b.departure - a.departure < HALF_HOUR && !Clash(a, b)
  {}

  /** Trips of one origin and destination that the documented window keeps apart are kept apart by
      the code if and only if they are not in the last 2.88 seconds of it. */
  lemma MissedByWindowIff(a: Trip, b: Trip)
    requires a.origin == b.origin && a.dest == b.dest && 0 <= b.departure - a.departure < HALF_HOUR
    ensures Clash(a, b) <==> b.departure - a.departure < HALF_HOUR - 2_880_000
  {}
}
