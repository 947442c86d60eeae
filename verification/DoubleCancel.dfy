/** A run in which two cancellations of one booking overlap: cancel_booking reads, releases and
    marks without a lock. The road ends free for the counter and in use for a live booking. */
module DoubleCancel {
  import opened Trips
  import opened RegionTables
  import opened RegionThreads
  import opened RegionThreadsProof
  import opened RegionSerial

  const ROUTE: seq<City> := ["Lyon", "Nice"]
  const ROAD: Edge := {"Lyon", "Nice"}
  const EARLY: Trip := Trip("Lyon", "Nice", 0)
  const LATE: Trip := Trip("Lyon", "Nice", CONFLICT_WINDOW)

  const JOBS: Jobs := map[
    0 := Add(10, EARLY, ROUTE, Confirmed), 1 := Add(11, LATE, ROUTE, Confirmed),
    2 := Remove(10, false), 3 := Remove(10, false)]

  const EMPTY_ROADS: map<Edge, Road> := map[ROAD := Road(5, 0)]

  const SCHEDULE: seq<Handler> := seq(5, _ => 0) + seq(5, _ => 1) + [2, 3, 2, 3, 2, 3]

  function Roads(bookings: int): map<Edge, Road> {
    map[ROAD := Road(5, bookings)]
  }

  lemma OneLeg()
    ensures Legs(ROUTE) == [ROAD]
  {
    assert Leg(ROUTE, 0) == ROAD;
  }

  lemma OneReserved(n: int)
    ensures Reserve(Roads(n), Legs(ROUTE)) == Roads(n + 1)
  {
    OneLeg();
    assert [ROAD][..0] == [];
    assert Reserve(Roads(n), [ROAD]) == ReserveOne(Reserve(Roads(n), []), ROAD);
  }

  const FIRST: Booking := Booking(EARLY, Confirmed, ROUTE, 1)
  const SECOND: Booking := Booking(LATE, Confirmed, ROUTE, 1)

  const BOOKED: State := State(Roads(2), map[10 := FIRST, 11 := SECOND], map[0 := Finished, 1 := Finished])

  const ONE_BOOKED: State := State(Roads(1), map[10 := FIRST], map[0 := Finished])

  lemma FirstBooked()
    ensures After(JOBS, EMPTY_ROADS, seq(5, _ => 0)) == ONE_BOOKED
  {
    OneLeg();
    BookedAlone(JOBS, Init(EMPTY_ROADS), 0);
    AloneIsAfter(JOBS, EMPTY_ROADS, [], 0, 5);
    assert [] + seq(5, _ => 0) == seq(5, _ => 0);
    hide Alone;
    hide After;
    OneReserved(0);
    assert WithRow(Init(EMPTY_ROADS), 0, JOBS[0]) == ONE_BOOKED;
  }

  lemma BothBooked()
    ensures After(JOBS, EMPTY_ROADS, seq(5, _ => 0) + seq(5, _ => 1)) == BOOKED
  {
    OneLeg();
    FirstBooked();
    BookedAlone(JOBS, ONE_BOOKED, 1);
    AloneIsAfter(JOBS, EMPTY_ROADS, seq(5, _ => 0), 1, 5);
    hide Alone;
    hide After;
    OneReserved(1);
    assert WithRow(ONE_BOOKED, 1, JOBS[1]) == BOOKED;
  }

  const GONE: Booking := Booking(EARLY, Cancelled, ROUTE, 2)
  const GONE_TWICE: Booking := Booking(EARLY, Cancelled, ROUTE, 3)

  /** Both cancellations are at work, handlers 2 and 3 with m and n legs released. */
  function Cancelling(bookings: int, m: nat, n: nat): State {
    State(Roads(bookings), BOOKED.bookings,
          map[0 := Finished, 1 := Finished, 2 := Freeing(ROUTE, m), 3 := Freeing(ROUTE, n)])
  }

  const MARKED: State :=
    State(Roads(0), map[10 := GONE, 11 := SECOND],
          map[0 := Finished, 1 := Finished, 2 := Finished, 3 := Freeing(ROUTE, 1)])

  const ENDED: State :=
    State(Roads(0), map[10 := GONE_TWICE, 11 := SECOND],
          map[0 := Finished, 1 := Finished, 2 := Finished, 3 := Finished])

  lemma BothRead()
    ensures Next(JOBS, Next(JOBS, BOOKED, 2), 3) == Cancelling(2, 0, 0)
  {}

  lemma BothRelease()
    ensures Next(JOBS, Next(JOBS, Cancelling(2, 0, 0), 2), 3) == Cancelling(0, 1, 1)
  {
    OneLeg();
    assert Next(JOBS, Cancelling(2, 0, 0), 2) == Cancelling(1, 1, 0);
  }

  lemma FirstMarks()
    ensures Next(JOBS, Cancelling(0, 1, 1), 2) == MARKED
  {
    OneLeg();
  }

  lemma SecondMarks()
    ensures Next(JOBS, MARKED, 3) == ENDED
  {
    OneLeg();
  }

  lemma ScheduleEnds()
    ensures After(JOBS, EMPTY_ROADS, SCHEDULE) == ENDED
  {
    hide Next;
    hide After;
    var booked := seq(5, _ => 0) + seq(5, _ => 1);
    BothBooked();
    TwoSteps(JOBS, EMPTY_ROADS, booked, 2, 3);
    BothRead();
    TwoSteps(JOBS, EMPTY_ROADS, booked + [2, 3], 2, 3);
    BothRelease();
    TwoSteps(JOBS, EMPTY_ROADS, booked + [2, 3] + [2, 3], 2, 3);
    FirstMarks();
    SecondMarks();
    assert SCHEDULE == booked + [2, 3] + [2, 3] + [2, 3];
  }

  lemma JobsValid()
    ensures Valid(JOBS) && FreshRoads(EMPTY_ROADS)
  {}

  /** All handlers have finished, a live booking uses the road, and the counter shows none. */
  lemma LiveBookingUncounted()
    ensures Valid(JOBS) && FreshRoads(EMPTY_ROADS)
    ensures var s := After(JOBS, EMPTY_ROADS, SCHEDULE);
            && AllFinished(JOBS, s) && 11 in Users(s.bookings, ROAD)
            && ROAD in s.roads && s.roads[ROAD].bookings == 0 && !Settled(JOBS, s)
  {
    OneLeg();
    JobsValid();
    ScheduleEnds();
    hide After;
    hide Valid;
    var s := ENDED;
    assert Takers(JOBS, s, ROAD) == {} && Freers(JOBS, s, ROAD) == {};
    assert Uses(s.bookings[11], ROAD);
    assert 11 in Users(s.bookings, ROAD);
  }
}
