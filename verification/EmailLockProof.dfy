/** At most one account per address, whatever the interleaving. */
module EmailLockProof {
  import opened Collections
  import opened EmailLock

  lemma TargetsDistinct(c: Config, p: Pid)
    requires c.Mesh() && p in c.requests
    ensures NoRepeats(c.Targets(p))
    ensures forall n :: n in c.Targets(p) <==> n in c.nodes
  {
    assert forall i :: 0 <= i < |c.Peers(p)| ==> c.Targets(p)[i + 1] == c.Peers(p)[i] && c.Peers(p)[i] in c.Peers(p);
  }

  lemma SliceGrows(targets: seq<Node>, to: nat)
    requires to < |targets|
    ensures Slice(targets, 0, to + 1) == Slice(targets, 0, to) + {targets[to]}
  {}

  lemma SliceShrinks(targets: seq<Node>, from: nat, to: nat)
    requires from < to <= |targets| && NoRepeats(targets)
    ensures Slice(targets, from + 1, to) == Slice(targets, from, to) - {targets[from]}
    ensures targets[from] in Slice(targets, from, to)
  {}

  ghost predicate LocksOk(c: Config, s: State)
    requires c.Valid()
  {
    PhasesOk(c, s) && KeysOwned(c, s)
  }

  /** Setting a free key for p. */
  lemma SetKey(emails: map<Pid, Email>, held: map<Pid, set<Node>>, keys: map<Lock, Pid>, p: Pid, n: Node)
    requires Exact(emails, held, keys) && p in held && Lock(n, emails[p]) !in keys
    ensures Exact(emails, held[p := held[p] + {n}], keys[Lock(n, emails[p]) := p])
  {
    var held', keys' := held[p := held[p] + {n}], keys[Lock(n, emails[p]) := p];
    forall q, m | q in held' ensures OwnsKey(keys', Lock(m, emails[q]), q) <==> m in held'[q] {
      assert OwnsKey(keys, Lock(m, emails[q]), q) <==> m in held[q];
    }
  }

  /** Deleting a key that p holds removes p's own key and no other. */
  lemma DeleteKey(emails: map<Pid, Email>, held: map<Pid, set<Node>>, keys: map<Lock, Pid>, p: Pid, n: Node)
    requires Exact(emails, held, keys) && p in held && n in held[p]
    ensures Exact(emails, held[p := held[p] - {n}], keys - {Lock(n, emails[p])})
    ensures OwnsKey(keys, Lock(n, emails[p]), p)
  {
    var held', keys' := held[p := held[p] - {n}], keys - {Lock(n, emails[p])};
    assert OwnsKey(keys, Lock(n, emails[p]), p);
    forall q, m | q in held' ensures OwnsKey(keys', Lock(m, emails[q]), q) <==> m in held'[q] {
      assert OwnsKey(keys, Lock(m, emails[q]), q) <==> m in held[q];
    }
  }

  lemma HeldAfterMove(c: Config, phase: map<Pid, Phase>, p: Pid, to: Phase)
    requires c.Valid() && phase.Keys == c.requests.Keys && p in c.requests
    ensures AllHeld(c, phase[p := to]) == AllHeld(c, phase)[p := Held(c, to, p)]
  {}

  lemma TakeKey(c: Config, s: State, p: Pid, s': State, n: Node, to: Phase)
    requires c.Valid() && LocksOk(c, s) && p in c.requests && InRange(c, to, p)
    requires Held(c, to, p) == Held(c, s.phase[p], p) + {n}
    requires Lock(n, c.Address(p)) !in s.keys
    requires s'.phase == s.phase[p := to] && s'.keys == s.keys[Lock(n, c.Address(p)) := p]
    ensures LocksOk(c, s')
  {
    var emails, held := Addresses(c), AllHeld(c, s.phase);
    HeldAfterMove(c, s.phase, p, to);
    SetKey(emails, held, s.keys, p, n);
    assert held[p] == Held(c, s.phase[p], p);
    assert Exact(emails, AllHeld(c, s'.phase), s'.keys);
  }

  lemma FreeKey(c: Config, s: State, p: Pid, s': State, n: Node, to: Phase)
    requires c.Valid() && LocksOk(c, s) && p in c.requests && InRange(c, to, p)
    requires n in Held(c, s.phase[p], p) && Held(c, to, p) == Held(c, s.phase[p], p) - {n}
    requires s'.phase == s.phase[p := to] && s'.keys == s.keys - {Lock(n, c.Address(p))}
    ensures LocksOk(c, s') && OwnsKey(s.keys, Lock(n, c.Address(p)), p)
  {
    var emails, held := Addresses(c), AllHeld(c, s.phase);
    HeldAfterMove(c, s.phase, p, to);
    DeleteKey(emails, held, s.keys, p, n);
    assert held[p] == Held(c, s.phase[p], p);
    assert Exact(emails, AllHeld(c, s'.phase), s'.keys);
  }

  lemma KeepKeys(c: Config, s: State, p: Pid, s': State, to: Phase)
    requires c.Valid() && LocksOk(c, s) && p in c.requests && InRange(c, to, p)
    requires Held(c, to, p) == Held(c, s.phase[p], p)
    requires s'.phase == s.phase[p := to] && s'.keys == s.keys
    ensures LocksOk(c, s')
  {
    var held := AllHeld(c, s.phase);
    HeldAfterMove(c, s.phase, p, to);
    assert held[p := held[p]] == held;
  }

  lemma FreeNext(c: Config, s: State, p: Pid, s': State, i: nat, to: Phase)
    requires c.Valid() && p in c.requests && NoRepeats(c.Targets(p)) && LocksOk(c, s) && InRange(c, to, p)
    requires HeldFrom(s.phase[p]) == i < HeldTo(c, s.phase[p], p) <= |c.Targets(p)|
    requires if HeldTo(c, s.phase[p], p) == i + 1 then to == Done
             else HeldFrom(to) == i + 1 && HeldTo(c, to, p) == HeldTo(c, s.phase[p], p)
    requires s'.phase == s.phase[p := to] && s'.keys == s.keys - {Lock(c.Targets(p)[i], c.Address(p))}
    ensures LocksOk(c, s') && OwnsKey(s.keys, Lock(c.Targets(p)[i], c.Address(p)), p)
  {
    SliceShrinks(c.Targets(p), i, HeldTo(c, s.phase[p], p));
    if to == Done {
      assert Slice(c.Targets(p), i + 1, i + 1) == {};
    }
    FreeKey(c, s, p, s', c.Targets(p)[i], to);
  }

  lemma TakeLocalLocks(c: Config, s: State, p: Pid, s': State)
    requires c.Valid() && p in c.requests && NoRepeats(c.Targets(p)) && LocksOk(c, s)
    requires TakeLocal(c, s, p, s')
    ensures LocksOk(c, s')
  {
    if s'.phase[p] == Done {
      KeepKeys(c, s, p, s', Done);
    } else {
      SliceGrows(c.Targets(p), 0);
      TakeKey(c, s, p, s', c.Targets(p)[0], Locking(0));
    }
  }

  lemma PeerSetLocks(c: Config, s: State, p: Pid, s': State)
    requires c.Valid() && p in c.requests && NoRepeats(c.Targets(p)) && LocksOk(c, s)
    requires PeerSet(c, s, p, s')
    ensures LocksOk(c, s')
  {
    var i := s.phase[p].asked;
    if s'.phase[p].RollingBack? {
      KeepKeys(c, s, p, s', s'.phase[p]);
    } else {
      SliceGrows(c.Targets(p), i + 1);
      TakeKey(c, s, p, s', c.Targets(p)[i + 1], s'.phase[p]);
    }
  }

  /** Every delete, in a rollback or a release, removes a key of the deleting request. */
  lemma DeletesOwnKey(c: Config, s: State, p: Pid, s': State)
    requires c.Valid() && p in c.requests && NoRepeats(c.Targets(p)) && LocksOk(c, s)
    requires RollBackOne(c, s, p, s') || ReleaseOne(c, s, p, s')
    ensures LocksOk(c, s')
    ensures var key := Lock(c.Targets(p)[s.phase[p].freed], c.Address(p));
            OwnsKey(s.keys, key, p) && s'.keys == s.keys - {key}
  {
    FreeNext(c, s, p, s', s.phase[p].freed, s'.phase[p]);
  }

  lemma LocksKept(c: Config, s: State, p: Pid, s': State)
    requires c.Valid() && p in c.requests && NoRepeats(c.Targets(p)) && LocksOk(c, s)
    requires RequestStep(c, s, p, s')
    ensures LocksOk(c, s')
  {
    if TakeLocal(c, s, p, s') {
      TakeLocalLocks(c, s, p, s');
    } else if PeerSet(c, s, p, s') {
      PeerSetLocks(c, s, p, s');
    } else if RollBackOne(c, s, p, s') || ReleaseOne(c, s, p, s') {
      DeletesOwnKey(c, s, p, s');
    } else {
      KeepKeys(c, s, p, s', s'.phase[p]);
    }
  }

  /** A request that has the whole lock owns the key on every node. */
  lemma HolderOwnsEveryKey(c: Config, s: State, p: Pid, n: Node)
    requires c.Mesh() && p in c.requests && LocksOk(c, s) && n in c.nodes
    requires HoldsLock(c, s, p) || s.phase[p] == Releasing(0)
    ensures OwnsKey(s.keys, Lock(n, c.Address(p)), p)
  {
    TargetsDistinct(c, p);
    assert n in c.Targets(p);
    assert n in Held(c, s.phase[p], p);
    assert n in AllHeld(c, s.phase)[p];
  }

  /** A request that is collecting keys owns the key of its own node. */
  lemma CollectorOwnsHome(c: Config, s: State, p: Pid)
    requires c.Valid() && p in c.requests && LocksOk(c, s)
    requires s.phase[p].Locking? || s.phase[p].Checked?
    ensures OwnsKey(s.keys, Lock(c.Home(p), c.Address(p)), p)
  {
    assert c.Targets(p)[0] == c.Home(p);
    assert c.Home(p) in Held(c, s.phase[p], p);
    assert c.Home(p) in AllHeld(c, s.phase)[p];
  }

  // ---- one origin per address ----------------------------------------------------------

  /** Only a commit touches the user tables, and a request that has committed only releases. */
  lemma QuietStep(c: Config, s: State, p: Pid, s': State)
    requires c.Valid() && p in c.requests && p in s.phase
    requires RequestStep(c, s, p, s') && !Commit(c, s, p, s')
    ensures s'.users == s.users && s'.committed == s.committed
    ensures s'.phase == s.phase[p := s'.phase[p]]
    ensures s.phase[p].Releasing? || s.phase[p].Done? ==> s'.phase[p].Releasing? || s'.phase[p].Done?
  {
    if TakeLocal(c, s, p, s') {
    } else if PeerCheck(c, s, p, s') {
    } else if PeerSet(c, s, p, s') {
    } else if Refuse(c, s, p, s') {
    } else if RollBackOne(c, s, p, s') {
    } else {
    }
  }

  /** A check lets a request past a peer only while the address is unknown there. */
  lemma ChecksPassed(c: Config, s: State, p: Pid, s': State)
    requires c.Valid() && p in c.requests && PhasesOk(c, s)
    requires RequestStep(c, s, p, s')
    ensures PassedChecks(s'.phase[p]) <= PassedChecks(s.phase[p])
         || (PassedChecks(s'.phase[p]) == PassedChecks(s.phase[p]) + 1 <= |c.Peers(p)|
             && Lock(c.Peers(p)[PassedChecks(s.phase[p])], c.Address(p)) !in s.users)
  {}

  lemma RowsKept(c: Config, s: State, p: Pid, s': State)
    requires c.Valid() && p in c.requests && PhasesOk(c, s) && PhasesOk(c, s') && RowsTraced(c, s)
    requires RequestStep(c, s, p, s')
    ensures RowsTraced(c, s')
  {
    if Commit(c, s, p, s') {
      CommitKeepsRows(c, s, p, s');
    } else {
      QuietStep(c, s, p, s');
      QuietKeepsRows(c, s, p, s');
    }
  }

  lemma CommitKeepsRows(c: Config, s: State, p: Pid, s': State)
    requires c.Valid() && p in c.requests && PhasesOk(c, s) && PhasesOk(c, s') && RowsTraced(c, s)
    requires Commit(c, s, p, s')
    ensures RowsTraced(c, s')
  {
    var own := Lock(c.Home(p), c.Address(p));
    assert s'.phase == s.phase[p := Releasing(0)];
    assert s'.users == s.users[own := p] && s'.committed == s.committed + {p};
    forall q | q in s'.committed
      ensures s'.phase[q].Releasing? || s'.phase[q].Done?
      ensures OwnsKey(s'.users, Lock(c.Home(q), c.Address(q)), q)
    {
      assert q != p ==> OwnsKey(s.users, Lock(c.Home(q), c.Address(q)), q);
    }
  }

  lemma QuietKeepsRows(c: Config, s: State, p: Pid, s': State)
    requires c.Valid() && p in c.requests && PhasesOk(c, s) && PhasesOk(c, s') && RowsTraced(c, s)
    requires s'.users == s.users && s'.committed == s.committed
    requires s'.phase == s.phase[p := s'.phase[p]]
    requires s.phase[p].Releasing? || s.phase[p].Done? ==> s'.phase[p].Releasing? || s'.phase[p].Done?
    ensures RowsTraced(c, s')
  {}

  /** The request that commits has seen no origin, and no rival is collecting keys. */
  lemma CommitIsFirst(c: Config, s: State, p: Pid, q: Pid)
    requires c.Mesh() && Inv(c, s) && p in c.requests && HoldsLock(c, s, p)
    requires Lock(c.Home(p), c.Address(p)) !in s.users
    requires q in s.phase && q != p && c.Address(q) == c.Address(p)
    ensures q !in s.committed && PassedChecks(s.phase[q]) == 0
  {
    if q in s.committed {
      assert StoppedAtOrigin(c, s, q, p);
      TargetsDistinct(c, q);
      TargetsDistinct(c, p);
      assert false;
    }
    if s.phase[q].Locking? || s.phase[q].Checked? {
      TargetsDistinct(c, q);
      assert c.Targets(q)[0] == c.Home(q);
      HolderOwnsEveryKey(c, s, p, c.Home(q));
      CollectorOwnsHome(c, s, q);
      assert false;
    }
  }

  lemma CommitKeepsOrigin(c: Config, s: State, p: Pid, s': State)
    requires c.Mesh() && Inv(c, s) && p in c.requests && Commit(c, s, p, s')
    requires PhasesOk(c, s') && RowsTraced(c, s')
    ensures OneOrigin(c, s')
  {
    forall q | q in s.phase && q != p && c.Address(q) == c.Address(p)
      ensures q !in s.committed && PassedChecks(s.phase[q]) == 0
    {
      CommitIsFirst(c, s, p, q);
    }
    FirstOriginAdded(c, s, p, s');
  }

  lemma FirstOriginAdded(c: Config, s: State, p: Pid, s': State)
    requires c.Valid() && PhasesOk(c, s) && RowsTraced(c, s) && OneOrigin(c, s)
    requires PhasesOk(c, s') && RowsTraced(c, s') && p in c.requests
    requires s'.committed == s.committed + {p} && s'.phase == s.phase[p := Releasing(0)]
    requires forall q :: q in s.phase && q != p && c.Address(q) == c.Address(p) ==>
               q !in s.committed && PassedChecks(s.phase[q]) == 0
    ensures OneOrigin(c, s')
  {
    forall o, q | o in s'.committed && q in s'.phase && q != o && c.Address(o) == c.Address(q)
      ensures StoppedAtOrigin(c, s', o, q)
    {
      if o != p {
        assert StoppedAtOrigin(c, s, o, q);
      }
    }
  }

  lemma QuietKeepsOrigin(c: Config, s: State, p: Pid, s': State)
    requires c.Valid() && Inv(c, s) && p in c.requests && RequestStep(c, s, p, s') && !Commit(c, s, p, s')
    requires PhasesOk(c, s') && RowsTraced(c, s')
    ensures OneOrigin(c, s')
  {
    QuietStep(c, s, p, s');
    ChecksPassed(c, s, p, s');
    forall o, q | o in s'.committed && q in s'.phase && q != o && c.Address(o) == c.Address(q)
      ensures StoppedAtOrigin(c, s', o, q)
    {
      assert StoppedAtOrigin(c, s, o, q);
      assert Lock(c.Home(o), c.Address(o)) in s.users;
    }
  }

  lemma CopyKeepsRows(c: Config, s: State, from: Node, to: Node, email: Email, s': State)
    requires c.Valid() && PhasesOk(c, s) && RowsTraced(c, s) && CopyUser(c, s, from, to, email, s')
    ensures PhasesOk(c, s') && RowsTraced(c, s')
  {
    var row := s.users[Lock(from, email)];
    assert row in s.committed && c.Address(row) == email;
  }

  /** After a copy the receiver knows the address: with the account it had before if it had one,
      otherwise with the sender's. No other row of any node differs, and no lock. */
  lemma CopySpreads(c: Config, s: State, from: Node, to: Node, email: Email, s': State)
    requires CopyUser(c, s, from, to, email, s')
    ensures Lock(to, email) in s'.users
    ensures Lock(to, email) in s.users ==> s'.users[Lock(to, email)] == s.users[Lock(to, email)]
    ensures Lock(to, email) !in s.users ==> s'.users[Lock(to, email)] == s.users[Lock(from, email)]
    ensures s'.users.Keys == s.users.Keys + {Lock(to, email)}
    ensures forall k :: k in s.users ==> s'.users[k] == s.users[k]
    ensures s'.keys == s.keys && s'.phase == s.phase && s'.committed == s.committed
  {}

  /** A row pushed to one node after another is known to all of them in the end: with the account a
      node had before if it had one, otherwise with the sender's. No other row differs. */
  lemma {:induction false} CopiesSpread(c: Config, ss: seq<State>, from: Node, email: Email, targets: seq<Node>)
    requires |ss| == |targets| + 1 && Lock(from, email) in ss[0].users
    requires forall i :: 0 <= i < |targets| ==> CopyUser(c, ss[i], from, targets[i], email, ss[i + 1])
    ensures var before, after := ss[0].users, ss[|targets|].users;
            && after.Keys == before.Keys + (set n | n in targets :: Lock(n, email))
            && (forall k :: k in before ==> after[k] == before[k])
            && (forall k :: k in after && k !in before ==> after[k] == before[Lock(from, email)])
    ensures ss[|targets|].keys == ss[0].keys && ss[|targets|].committed == ss[0].committed
  {
    var n := |targets|;
    if n > 0 {
      CopiesSpread(c, ss[..n], from, email, targets[..n - 1]);
      assert targets == targets[..n - 1] + [targets[n - 1]];
      CopySpreads(c, ss[n - 1], from, targets[n - 1], email, ss[n]);
      hide CopyUser;
    }
  }

  lemma CopyKeepsOrigin(c: Config, s: State, s': State)
    requires c.Valid() && PhasesOk(c, s) && RowsTraced(c, s) && OneOrigin(c, s)
    requires PhasesOk(c, s') && RowsTraced(c, s')
    requires s'.phase == s.phase && s'.committed == s.committed
    ensures OneOrigin(c, s')
  {
    forall o, q | o in s'.committed && q in s'.phase && q != o && c.Address(o) == c.Address(q)
      ensures StoppedAtOrigin(c, s', o, q)
    {
      assert StoppedAtOrigin(c, s, o, q);
    }
  }

  lemma CopyKeeps(c: Config, s: State, from: Node, to: Node, email: Email, s': State)
    requires c.Valid() && Inv(c, s) && CopyUser(c, s, from, to, email, s')
    ensures Inv(c, s')
  {
    CopyKeepsRows(c, s, from, to, email, s');
    CopyKeepsOrigin(c, s, s');
    assert s'.keys == s.keys && s'.phase == s.phase;
  }

  lemma RequestKeepsInv(c: Config, s: State, p: Pid, s': State)
    requires c.Mesh() && Inv(c, s) && p in c.requests && RequestStep(c, s, p, s')
    ensures Inv(c, s')
  {
    TargetsDistinct(c, p);
    LocksKept(c, s, p, s');
    RowsKept(c, s, p, s');
    if Commit(c, s, p, s') {
      CommitKeepsOrigin(c, s, p, s');
    } else {
      QuietKeepsOrigin(c, s, p, s');
    }
  }

  lemma NextKeepsInv(c: Config, s: State, s': State)
    requires c.Mesh() && Inv(c, s) && Next(c, s, s')
    ensures Inv(c, s')
  {
    if p :| p in c.requests && p in s.phase && RequestStep(c, s, p, s') {
      RequestKeepsInv(c, s, p, s');
    } else {
      var from, to, email :| CopyUser(c, s, from, to, email, s');
      CopyKeeps(c, s, from, to, email, s');
    }
  }

  lemma InitHoldsInv(c: Config, s: State)
    requires c.Valid() && Init(c, s)
    ensures Inv(c, s)
  {
    forall p, n | p in s.phase ensures n !in Held(c, s.phase[p], p) {}
  }

  lemma {:induction false} RunHoldsInv(c: Config, run: seq<State>, i: nat)
    requires c.Mesh() && IsRun(c, run) && i < |run|
    ensures Inv(c, run[i])
  {
    if i == 0 {
      InitHoldsInv(c, run[0]);
    } else {
      RunHoldsInv(c, run, i - 1);
      assert Next(c, run[i - 1], run[i - 1 + 1]);
      NextKeepsInv(c, run[i - 1], run[i]);
    }
  }

  /** In every interleaving, at most one request ever registers an address. */
  lemma OneRegistrationPerAddress(c: Config, run: seq<State>, i: nat, p: Pid, q: Pid)
    requires c.Mesh() && IsRun(c, run) && i < |run|
    requires p in run[i].committed && q in run[i].committed
    requires p in c.requests && q in c.requests && c.Address(p) == c.Address(q)
    ensures p == q
  {
    RunHoldsInv(c, run, i);
  }

  /** And so all nodes that know an address know the same account for it. */
  lemma NodesAgreeOnAccount(c: Config, run: seq<State>, i: nat, m: Node, n: Node, email: Email)
    requires c.Mesh() && IsRun(c, run) && i < |run|
    requires Lock(m, email) in run[i].users && Lock(n, email) in run[i].users
    ensures run[i].users[Lock(m, email)] == run[i].users[Lock(n, email)]
  {
    RunHoldsInv(c, run, i);
  }
}
