/** A run in which two PREPAREs of one trip race on the one region that owns both cities:
    create_held_booking takes no lock around its check and its insert. */
module TwoPhaseRace {
  import opened Trips
  import opened TwoPhase

  const TRIP: Trip := Trip("Lyon", "Nice", 0)
  const FRANCE: Config :=
    Config(map["Lyon" := "France", "Nice" := "France"], map[Cross(0) := TRIP, Cross(1) := TRIP], map[])
  const P0: Place := Place("France", Cross(0))
  const P1: Place := Place("France", Cross(1))

  const EVENTS: seq<Event> := [
    EBegin(0), EAsk(0, "France"), EBegin(1), EAsk(1, "France"),
    EPass(P0), EPass(P1), EInsert(P0), EInsert(P1),
    ERecord(P0), ERecord(P1), ETakeAnswer(P0, true), ETakeAnswer(P1, true),
    EDecide(0), EDecide(1)]

  const STATES: seq<State> := [
    State(map[], {}, map[], {}, {}, map[], {}, {}, {}, {}),
    State(map[0 := Voting], {}, map[], {}, {}, map[], {}, {}, {}, {}),
    State(map[0 := Voting], {P0}, map[], {Prepare(P0)}, {}, map[], {}, {}, {}, {}),
    State(map[0 := Voting, 1 := Voting], {P0}, map[], {Prepare(P0)}, {}, map[], {}, {}, {}, {}),
    State(map[0 := Voting, 1 := Voting], {P0, P1}, map[], {Prepare(P0), Prepare(P1)}, {}, map[], {}, {}, {}, {}),
    State(map[0 := Voting, 1 := Voting], {P0, P1}, map[], {Prepare(P1)}, {P0}, map[], {}, {}, {}, {}),
    State(map[0 := Voting, 1 := Voting], {P0, P1}, map[], {}, {P0, P1}, map[], {}, {}, {}, {}),
    State(map[0 := Voting, 1 := Voting], {P0, P1}, map[], {}, {P1}, map[P0 := Held], {}, {}, {}, {}),
    State(map[0 := Voting, 1 := Voting], {P0, P1}, map[], {}, {}, map[P0 := Held, P1 := Held], {}, {}, {}, {}),
    State(map[0 := Voting, 1 := Voting], {P0, P1}, map[], {Answer(P0, true)}, {},
          map[P0 := Held, P1 := Held], {P0}, {}, {}, {}),
    State(map[0 := Voting, 1 := Voting], {P0, P1}, map[], {Answer(P0, true), Answer(P1, true)}, {},
          map[P0 := Held, P1 := Held], {P0, P1}, {}, {}, {}),
    State(map[0 := Voting, 1 := Voting], {P0, P1}, map[P0 := true], {Answer(P1, true)}, {},
          map[P0 := Held, P1 := Held], {P0, P1}, {}, {}, {}),
    State(map[0 := Voting, 1 := Voting], {P0, P1}, map[P0 := true, P1 := true], {}, {},
          map[P0 := Held, P1 := Held], {P0, P1}, {}, {}, {}),
    State(map[0 := Committed, 1 := Voting], {P0, P1}, map[P0 := true, P1 := true], {}, {},
          map[P0 := Held, P1 := Held], {P0, P1}, {}, {}, {}),
    State(map[0 := Committed, 1 := Committed], {P0, P1}, map[P0 := true, P1 := true], {}, {},
          map[P0 := Held, P1 := Held], {P0, P1}, {}, {}, {})]

  lemma OnlyFrance(t: Id)
    requires t == 0 || t == 1
    ensures FRANCE.Resolved(t) && FRANCE.Required(t) == {"France"}
  {}

  lemma FirstAskSteps()
    ensures forall i :: 0 <= i < 2 ==> Step(FRANCE, STATES[i], EVENTS[i], STATES[i + 1])
  {
    OnlyFrance(0);
    assert Step(FRANCE, STATES[0], EVENTS[0], STATES[1]);
    assert Step(FRANCE, STATES[1], EVENTS[1], STATES[2]);
  }

  lemma SecondAskSteps()
    ensures forall i :: 2 <= i < 4 ==> Step(FRANCE, STATES[i], EVENTS[i], STATES[i + 1])
  {
    OnlyFrance(1);
    assert Step(FRANCE, STATES[2], EVENTS[2], STATES[3]);
    assert Step(FRANCE, STATES[3], EVENTS[3], STATES[4]);
  }

  lemma PassSteps()
    ensures forall i :: 4 <= i < 6 ==> Step(FRANCE, STATES[i], EVENTS[i], STATES[i + 1])
  {
    assert Step(FRANCE, STATES[4], EVENTS[4], STATES[5]);
    assert Step(FRANCE, STATES[5], EVENTS[5], STATES[6]);
  }

  lemma HoldSteps()
    ensures forall i :: 6 <= i < 8 ==> Step(FRANCE, STATES[i], EVENTS[i], STATES[i + 1])
  {
    assert Step(FRANCE, STATES[6], EVENTS[6], STATES[7]);
    assert Step(FRANCE, STATES[7], EVENTS[7], STATES[8]);
  }

  lemma RecordSteps()
    ensures forall i :: 8 <= i < 10 ==> Step(FRANCE, STATES[i], EVENTS[i], STATES[i + 1])
  {
    assert Step(FRANCE, STATES[8], EVENTS[8], STATES[9]);
    assert Step(FRANCE, STATES[9], EVENTS[9], STATES[10]);
  }

  lemma DecideSteps()
    ensures forall i :: 10 <= i < 14 ==> Step(FRANCE, STATES[i], EVENTS[i], STATES[i + 1])
  {
    OnlyFrance(0);
    OnlyFrance(1);
    assert Step(FRANCE, STATES[10], EVENTS[10], STATES[11]);
    assert Step(FRANCE, STATES[11], EVENTS[11], STATES[12]);
    assert AllYes(FRANCE, STATES[12], 0) && AllVoted(FRANCE, STATES[12], 0);
    assert Step(FRANCE, STATES[12], EVENTS[12], STATES[13]);
    assert AllYes(FRANCE, STATES[13], 1) && AllVoted(FRANCE, STATES[13], 1);
    assert Step(FRANCE, STATES[13], EVENTS[13], STATES[14]);
  }

  /** Two transactions of the same trip at the same time both commit. */
  lemma RaceDoubleBooks()
    ensures IsRun(FRANCE, STATES, EVENTS) && NoUserCancel(EVENTS, |EVENTS|)
    ensures PhaseOf(STATES[14], 0) == Committed && PhaseOf(STATES[14], 1) == Committed
    ensures Clash(FRANCE.trips[Cross(0)], FRANCE.trips[Cross(1)])
  {
    FirstAskSteps();
    SecondAskSteps();
    PassSteps();
    HoldSteps();
    RecordSteps();
    DecideSteps();
  }
}
