/** A run in which two PREPAREs both find room on a road and take it past its capacity:
    create_held_booking looks and reserves without a lock. */
module Overflow {
  import opened Trips
  import opened RegionTables
  import opened RegionThreads
  import opened RegionThreadsProof
  import opened RegionRaces
  import opened RegionSerial

  const ROAD: Edge := {"Lyon", "Nice"}
  const THERE: seq<City> := ["Lyon", "Nice"]
  const BACK: seq<City> := ["Nice", "Lyon"]

  const JOBS: Jobs := map[
    0 := Add(10, Trip("Lyon", "Nice", 0), THERE, Held), 1 := Add(11, Trip("Nice", "Lyon", 0), BACK, Held)]

  const SCHEDULE: seq<Handler> := [0, 1] + [0, 1] + [0, 1] + [0, 1]

  function Roads(bookings: int): map<Edge, Road> {
    map[ROAD := Road(1, bookings)]
  }

  function Both(bookings: int, stage: Stage): State {
    State(Roads(bookings), map[], map[0 := stage, 1 := stage])
  }

  lemma OneLeg()
    ensures Legs(THERE) == [ROAD] && Legs(BACK) == [ROAD]
  {
    assert Leg(THERE, 0) == ROAD && Leg(BACK, 0) == ROAD;
  }

  lemma BothPass()
    ensures Next(JOBS, Next(JOBS, Init(Roads(0)), 0), 1) == Both(0, Looking(0))
  {}

  lemma BothFindRoom()
    ensures Next(JOBS, Next(JOBS, Both(0, Looking(0)), 0), 1) == Both(0, Looking(1))
  {
    OneLeg();
  }

  lemma BothGoOn()
    ensures Next(JOBS, Next(JOBS, Both(0, Looking(1)), 0), 1) == Both(0, Taking(0))
  {
    OneLeg();
  }

  lemma BothTake()
    ensures Next(JOBS, Next(JOBS, Both(0, Taking(0)), 0), 1) == Both(2, Taking(1))
  {
    OneLeg();
  }

  lemma ScheduleEnds()
    ensures After(JOBS, Roads(0), SCHEDULE) == Both(2, Taking(1))
  {
    hide Next;
    assert After(JOBS, Roads(0), []) == Init(Roads(0));
    hide After;
    TwoSteps(JOBS, Roads(0), [], 0, 1);
    assert [] + [0, 1] == [0, 1];
    BothPass();
    TwoSteps(JOBS, Roads(0), [0, 1], 0, 1);
    BothFindRoom();
    TwoSteps(JOBS, Roads(0), [0, 1] + [0, 1], 0, 1);
    BothGoOn();
    TwoSteps(JOBS, Roads(0), [0, 1] + [0, 1] + [0, 1], 0, 1);
    BothTake();
  }

  lemma JobsValid()
    ensures Valid(JOBS) && FreshRoads(Roads(0))
  {}

  /** Two reservations on a road with room for one. */
  lemma RoadOverbooked()
    ensures Valid(JOBS) && FreshRoads(Roads(0))
    ensures var s := After(JOBS, Roads(0), SCHEDULE);
            ROAD in s.roads && s.roads[ROAD] == Road(1, 2) && !Within(s)
  {
    JobsValid();
    ScheduleEnds();
    hide After;
    hide Valid;
    hide FreshRoads;
  }
}
