/** A run in which a COMMIT revives a booking that a user has cancelled after the COMMIT's handler
    had read it HELD, and with which another booking of the trip has been made meanwhile:
    confirm_held_booking reads and writes without a lock. No check overtakes an insert. */
module Revival {
  import opened Trips
  import opened RegionTables
  import opened RegionThreads
  import opened RegionThreadsProof
  import opened RegionRaces
  import opened RegionSerial

  const TRIP: Trip := Trip("Lyon", "Rome", 0)
  const ROUTE: seq<City> := ["Lyon"]

  const JOBS: Jobs := map[
    0 := Add(10, TRIP, ROUTE, Held), 1 := Settle(10), 2 := Remove(10, false), 3 := Add(11, TRIP, ROUTE, Held)]

  const NO_ROADS: map<Edge, Road> := map[]

  const SCHEDULE: seq<Handler> := seq(3, _ => 0) + [1] + [2, 2] + seq(3, _ => 3) + [1]

  const OLD_HELD: Booking := Booking(TRIP, Held, ROUTE, 1)
  const OLD_CANCELLED: Booking := Booking(TRIP, Cancelled, ROUTE, 2)
  const OLD_CONFIRMED: Booking := Booking(TRIP, Confirmed, ROUTE, 3)
  const NEW_HELD: Booking := Booking(TRIP, Held, ROUTE, 1)

  const PREPARED: State := State(NO_ROADS, map[10 := OLD_HELD], map[0 := Finished])
  const READ: State := State(NO_ROADS, map[10 := OLD_HELD], map[0 := Finished, 1 := Confirming])
  const CANCELLED: State :=
    State(NO_ROADS, map[10 := OLD_CANCELLED], map[0 := Finished, 1 := Confirming, 2 := Finished])
  const PREPARED_AGAIN: State :=
    State(NO_ROADS, map[10 := OLD_CANCELLED, 11 := NEW_HELD],
          map[0 := Finished, 1 := Confirming, 2 := Finished, 3 := Finished])
  const REVIVED: State :=
    State(NO_ROADS, map[10 := OLD_CONFIRMED, 11 := NEW_HELD],
          map[0 := Finished, 1 := Finished, 2 := Finished, 3 := Finished])

  lemma NoLegs()
    ensures Legs(ROUTE) == []
    ensures forall roads: map<Edge, Road> :: HasRoom(roads, Legs(ROUTE)) && Reserve(roads, Legs(ROUTE)) == roads
  {}

  lemma FirstPrepared()
    ensures Alone(JOBS, Init(NO_ROADS), 0, 3) == PREPARED
  {
    NoLegs();
    BookedAlone(JOBS, Init(NO_ROADS), 0);
    hide Alone;
    assert WithRow(Init(NO_ROADS), 0, JOBS[0]) == PREPARED;
  }

  lemma CommitReads()
    ensures Next(JOBS, PREPARED, 1) == READ
  {}

  lemma UserCancels()
    ensures Next(JOBS, Next(JOBS, READ, 2), 2) == CANCELLED
  {
    NoLegs();
    var reading := READ.(stage := READ.stage[2 := Freeing(ROUTE, 0)]);
    assert Next(JOBS, READ, 2) == reading;
  }

  lemma SecondPrepared()
    ensures Alone(JOBS, CANCELLED, 3, 3) == PREPARED_AGAIN
  {
    NoLegs();
    BookedAlone(JOBS, CANCELLED, 3);
    hide Alone;
    assert WithRow(CANCELLED, 3, JOBS[3]) == PREPARED_AGAIN;
  }

  lemma CommitWrites()
    ensures Next(JOBS, PREPARED_AGAIN, 1) == REVIVED
  {}

  lemma ScheduleEnds()
    ensures After(JOBS, NO_ROADS, SCHEDULE[..9]) == PREPARED_AGAIN && After(JOBS, NO_ROADS, SCHEDULE) == REVIVED
  {
    hide Next;
    hide Alone;
    assert After(JOBS, NO_ROADS, []) == Init(NO_ROADS);
    hide After;
    var s0, s3 := seq(3, _ => 0), seq(3, _ => 3);
    AloneIsAfter(JOBS, NO_ROADS, [], 0, 3);
    assert [] + s0 == s0;
    FirstPrepared();
    OneStep(JOBS, NO_ROADS, s0, 1);
    CommitReads();
    TwoSteps(JOBS, NO_ROADS, s0 + [1], 2, 2);
    UserCancels();
    AloneIsAfter(JOBS, NO_ROADS, s0 + [1] + [2, 2], 3, 3);
    SecondPrepared();
    OneStep(JOBS, NO_ROADS, s0 + [1] + [2, 2] + s3, 1);
    CommitWrites();
    assert SCHEDULE[..9] == s0 + [1] + [2, 2] + s3;
  }

  /** Two live bookings of one trip at one time, made by a confirmation of a cancelled row. */
  lemma CancelledBookingRevived()
    ensures Valid(JOBS) && FreshRoads(NO_ROADS)
    ensures var s := After(JOBS, NO_ROADS, SCHEDULE);
            && AllFinished(JOBS, s) && Claims(JOBS, s, 0) && Claims(JOBS, s, 3)
            && Clash(JOBS[0].trip, JOBS[3].trip)
    ensures var t := After(JOBS, NO_ROADS, SCHEDULE[..9]);
            Revives(JOBS, t, SCHEDULE[9], 0) && Claims(JOBS, t, 3)
  {
    ScheduleEnds();
    hide After;
  }
}
