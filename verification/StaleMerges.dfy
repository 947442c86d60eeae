/** Runs of replication that go wrong: deliveries that overlap on one row, and one in which a
    replica leaves out a version without any overlap. */
module StaleMerges {
  import opened Trips
  import opened VersionMerge

  ghost predicate Reachable(s: System) {
    exists ss, es :: IsRun(ss, es) && ss[|es|] == s
  }

  lemma StartReachable()
    ensures Reachable(INIT)
  {
    assert IsRun([INIT], []);
  }

  lemma NextReachable(s: System, e: Event)
    requires Reachable(s) && Enabled(s, e)
    ensures Reachable(Next(s, e))
  {
    var ss, es :| IsRun(ss, es) && ss[|es|] == s;
    assert IsRun(ss + [Next(s, e)], es + [e]);
  }

  const R1: Row := Row(1, Held)
  const R2: Row := Row(2, Confirmed)
  const R3: Row := Row(3, Cancelled)

  /** One delivery with nothing in between. */
  lemma DeliverAlone(s: System, n: nat, m: Row)
    requires Reachable(s) && m in s.sent && s.work == map[]
    ensures Reachable(s.(rows := s.rows[n := if n in s.rows then Merge(s.rows[n], m) else m]))
  {
    UninterruptedIsMerge(s, 0, n, m);
    var read := Next(s, Read(0, n, m));
    NextReachable(s, Read(0, n, m));
    if 0 in read.work {
      NextReachable(read, Finish(0));
    }
  }

  /** The writer and two replicas hold the booking as first written. */
  const STARTED: System := System([Held], map[0 := R1, 1 := R1, 2 := R1], {R1}, map[])

  lemma StartedReachable()
    ensures Reachable(STARTED)
  {
    StartReachable();
    NextReachable(INIT, Write(Held));
    var written := System([Held], map[0 := R1], {}, map[]);
    assert Next(INIT, Write(Held)) == written;
    NextReachable(written, Send(0));
    var sent := written.(sent := {R1});
    assert Next(written, Send(0)) == sent;
    DeliverAlone(sent, 1, R1);
    DeliverAlone(sent.(rows := map[0 := R1, 1 := R1]), 2, R1);
    assert map[0 := R1, 1 := R1][2 := R1] == STARTED.rows;
    assert map[0 := R1][1 := R1] == map[0 := R1, 1 := R1];
  }

  const CONFIRMED: System := System([Held, Confirmed], map[0 := R2, 1 := R1, 2 := R1], {R1, R2}, map[])

  lemma ConfirmedReachable()
    ensures Reachable(CONFIRMED)
  {
    StartedReachable();
    NextReachable(STARTED, Write(Confirmed));
    var written := System([Held, Confirmed], map[0 := R2, 1 := R1, 2 := R1], {R1}, map[]);
    assert Next(STARTED, Write(Confirmed)) == written;
    NextReachable(written, Send(0));
    assert Next(written, Send(0)) == CONFIRMED;
  }

  /** The writer cancels and sends, from a state of the other rows. */
  lemma CancelSent(s: System)
    requires Reachable(s) && s.history == [Held, Confirmed] && 0 in s.rows && s.rows[0] == R2
    ensures Reachable(System([Held, Confirmed, Cancelled], s.rows[0 := R3], s.sent + {R3}, s.work))
  {
    NextReachable(s, Write(Cancelled));
    var written := System([Held, Confirmed, Cancelled], s.rows[0 := R3], s.sent, s.work);
    assert Next(s, Write(Cancelled)) == written;
    NextReachable(written, Send(0));
    assert Next(written, Send(0)) == written.(sent := s.sent + {R3});
  }

  /** Two replicas at one version with different statuses, without any overlap: one was there when
      the booking was confirmed, the other hears only of its cancellation. */
  lemma EqualVersionsCanDiffer() returns (s: System)
    ensures Reachable(s) && 1 in s.rows && 2 in s.rows
    ensures s.rows[1] == Row(2, Confirmed) && s.rows[2] == Row(2, Cancelled)
  {
    ConfirmedReachable();
    DeliverAlone(CONFIRMED, 1, R2);
    var t := CONFIRMED.(rows := CONFIRMED.rows[1 := R2]);
    CancelSent(t);
    var u := System([Held, Confirmed, Cancelled], t.rows[0 := R3], t.sent + {R3}, map[]);
    DeliverAlone(u, 2, R3);
    s := u.(rows := u.rows[2 := Row(2, Cancelled)]);
  }

  /** Handlers 0 and 1 of node 1 have both compared the confirmation with the first row. */
  const BOTH_READ: System := CONFIRMED.(work := map[0 := Work(1, R2, false), 1 := Work(1, R2, false)])

  lemma BothReadReachable()
    ensures Reachable(BOTH_READ)
  {
    ConfirmedReachable();
    var one := CONFIRMED.(work := map[0 := Work(1, R2, false)]);
    NextReachable(CONFIRMED, Read(0, 1, R2));
    assert Next(CONFIRMED, Read(0, 1, R2)) == one;
    NextReachable(one, Read(1, 1, R2));
    assert Next(one, Read(1, 1, R2)) == BOTH_READ;
  }

  /** Two deliveries of one snapshot overlap: the replica passes the writer, and sends the writer a
      version it takes for newer. */
  lemma WriterOverwritten() returns (s: System, t: System)
    ensures Reachable(s) && s.history == [Held, Confirmed] && 1 in s.rows && s.rows[1] == Row(3, Confirmed)
    ensures Reachable(t) && t.history == [Held, Confirmed] && WRITER in t.rows && t.rows[WRITER] == Row(3, Confirmed)
  {
    BothReadReachable();
    var one := System(CONFIRMED.history, CONFIRMED.rows[1 := R2], CONFIRMED.sent, map[1 := Work(1, R2, false)]);
    NextReachable(BOTH_READ, Finish(0));
    assert Next(BOTH_READ, Finish(0)) == one by {
      assert BOTH_READ.work - {0} == map[1 := Work(1, R2, false)];
    }
    assert Stale(one, Finish(1)) && Passes(one, Finish(1));
    s := System(CONFIRMED.history, CONFIRMED.rows[1 := Row(3, Confirmed)], CONFIRMED.sent, map[]);
    NextReachable(one, Finish(1));
    assert Next(one, Finish(1)) == s by {
      assert one.rows[1 := Row(3, Confirmed)] == s.rows;
      assert one.work - {1} == map[];
    }
    var sent := s.(sent := s.sent + {Row(3, Confirmed)});
    NextReachable(s, Send(1));
    DeliverAlone(sent, WRITER, Row(3, Confirmed));
    t := sent.(rows := sent.rows[WRITER := Row(3, Confirmed)]);
  }

  /** The writer only advances, but confirmation and cancellation overlap on a replica: CANCELLED
      goes back to CONFIRMED, at the writer's version, and no later delivery corrects it. */
  lemma StatusGoesBack() returns (s: System, e: Event)
    ensures Reachable(s) && Enabled(s, e) && Stale(s, e) && Advances(Next(s, e).history)
    ensures 1 in s.rows && s.rows[1] == Row(2, Cancelled)
    ensures Next(s, e).history == [Held, Confirmed, Cancelled] && Next(s, e).rows[1] == Row(3, Confirmed)
    ensures Latest(Next(s, e)) == Row(3, Cancelled)
    ensures Merge(Next(s, e).rows[1], Latest(Next(s, e))) == Row(3, Confirmed)
  {
    ConfirmedReachable();
    var one := CONFIRMED.(work := map[0 := Work(1, R2, false)]);
    NextReachable(CONFIRMED, Read(0, 1, R2));
    assert Next(CONFIRMED, Read(0, 1, R2)) == one;
    CancelSent(one);
    var two := System([Held, Confirmed, Cancelled], one.rows[0 := R3], one.sent + {R3}, one.work);
    var three := two.(work := map[0 := Work(1, R2, false), 1 := Work(1, R3, false)]);
    NextReachable(two, Read(1, 1, R3));
    assert Next(two, Read(1, 1, R3)) == three;
    e := Finish(0);
    s := System(three.history, three.rows[1 := Row(2, Cancelled)], three.sent, map[0 := Work(1, R2, false)]);
    NextReachable(three, Finish(1));
    assert Next(three, Finish(1)) == s by {
      assert three.work - {1} == s.work;
    }
  }

  lemma WriteAgain(s: System, h: nat, version: int)
    requires Reachable(s) && h in s.work && s.work[h] == Work(1, R2, false) && 1 in s.rows
    requires s.rows[1].version == version
    ensures Reachable(s.(rows := s.rows[1 := Row(version + 1, Confirmed)], work := s.work - {h}))
  {
    NextReachable(s, Finish(h));
  }

  /** Three overlapping deliveries take the replica two versions past the writer, and what it sends
      then revives the booking that the writer has cancelled. */
  lemma WriterRevived() returns (s: System)
    ensures Reachable(s) && s.history == [Held, Confirmed, Cancelled]
    ensures WRITER in s.rows && s.rows[WRITER] == Row(4, Confirmed)
  {
    BothReadReachable();
    var three := BOTH_READ.(work := BOTH_READ.work[2 := Work(1, R2, false)]);
    NextReachable(BOTH_READ, Read(2, 1, R2));
    assert Next(BOTH_READ, Read(2, 1, R2)) == three;
    WriteAgain(three, 0, 1);
    var two := three.(rows := three.rows[1 := R2], work := three.work - {0});
    WriteAgain(two, 1, 2);
    var one := two.(rows := two.rows[1 := Row(3, Confirmed)], work := two.work - {1});
    WriteAgain(one, 2, 3);
    var none := one.(rows := one.rows[1 := Row(4, Confirmed)], work := one.work - {2});
    assert none.work == map[];
    NextReachable(none, Send(1));
    var sent := none.(sent := none.sent + {Row(4, Confirmed)});
    assert Next(none, Send(1)) == sent;
    CancelSent(sent);
    var cancelled := System([Held, Confirmed, Cancelled], sent.rows[0 := R3], sent.sent + {R3}, map[]);
    DeliverAlone(cancelled, WRITER, Row(4, Confirmed));
    s := cancelled.(rows := cancelled.rows[WRITER := Row(4, Confirmed)]);
  }
}
