/** The nodes' lock tables and user tables as mutable state. The small methods are the atomic
    accesses; Register strings them together as routes.py, lines 62-114, does when no other
    request comes in between. */
module EmailNodes {
  import opened EmailLock
  import opened EmailLockProof

  ghost predicate KeyFree(c: Config, keys: map<Lock, Pid>, p: Pid, i: nat)
    requires p in c.requests && c.Home(p) in c.peers && i < |c.Targets(p)|
  {
    Lock(c.Targets(p)[i], c.Address(p)) !in keys
  }

  ghost predicate Unknown(c: Config, users: map<Lock, Pid>, p: Pid, i: nat)
    requires p in c.requests && c.Home(p) in c.peers && i < |c.Targets(p)|
  {
    Lock(c.Targets(p)[i], c.Address(p)) !in users
  }

  /** What a request has to find: every key free, and the address unknown to every peer. */
  ghost predicate Lockable(c: Config, s: State, p: Pid)
    requires p in c.requests && c.Home(p) in c.peers
  {
    && (forall i :: 0 <= i < |c.Targets(p)| ==> KeyFree(c, s.keys, p, i))
    && (forall i :: 1 <= i < |c.Targets(p)| ==> Unknown(c, s.users, p, i))
  }

  /** None of the nodes has the address in its table. */
  ghost predicate NoRow(nodes: set<Node>, email: Email, table: map<Lock, Pid>) {
    forall n :: n in nodes ==> Lock(n, email) !in table
  }

  lemma OneNodeMore(nodes: set<Node>, home: Node, email: Email, table: map<Lock, Pid>)
    requires home in nodes
    ensures NoRow(nodes, email, table) <==> NoRow(nodes - {home}, email, table) && Lock(home, email) !in table
  {}

  lemma LockableMeans(c: Config, s: State, p: Pid)
    requires c.Mesh() && p in c.requests
    ensures Lockable(c, s, p) <==>
      && NoRow(c.nodes, c.requests[p].email, s.keys)
      && NoRow(c.nodes - {c.requests[p].home}, c.requests[p].email, s.users)
  {
    TargetsDistinct(c, p);
    var targets := c.Targets(p);
    assert targets[0] == c.Home(p);
    if Lockable(c, s, p) {
      forall n | n in c.nodes
        ensures Lock(n, c.Address(p)) !in s.keys && (n != c.Home(p) ==> Lock(n, c.Address(p)) !in s.users)
      {
        var i :| 0 <= i < |targets| && targets[i] == n;
        assert KeyFree(c, s.keys, p, i) && (i >= 1 ==> Unknown(c, s.users, p, i));
      }
    } else {
      var i: nat :| i < |targets| && (!KeyFree(c, s.keys, p, i) || (i >= 1 && !Unknown(c, s.users, p, i)));
      assert targets[i] in targets;
    }
  }

  /** The keys of the first n targets. */
  ghost function LockSet(c: Config, p: Pid, n: nat): set<Lock>
    requires p in c.requests && c.Home(p) in c.peers && n <= |c.Targets(p)|
  {
    set i | 0 <= i < n :: Lock(c.Targets(p)[i], c.Address(p))
  }

  lemma LockSetGrows(c: Config, p: Pid, n: nat)
    requires c.Mesh() && p in c.requests && n < |c.Targets(p)|
    ensures LockSet(c, p, n + 1) == LockSet(c, p, n) + {Lock(c.Targets(p)[n], c.Address(p))}
    ensures Lock(c.Targets(p)[n], c.Address(p)) !in LockSet(c, p, n)
  {
    TargetsDistinct(c, p);
  }

  /** now is before with the first n of p's keys, free before, added. */
  ghost predicate TookFirst(c: Config, p: Pid, n: nat, before: map<Lock, Pid>, now: map<Lock, Pid>)
    requires p in c.requests && c.Home(p) in c.peers && n <= |c.Targets(p)|
  {
    && now.Keys == before.Keys + LockSet(c, p, n)
    && before.Keys !! LockSet(c, p, n)
    && forall k :: k in before ==> now[k] == before[k]
  }

  lemma TakeNext(c: Config, p: Pid, n: nat, before: map<Lock, Pid>, now: map<Lock, Pid>)
    requires c.Mesh() && p in c.requests && n < |c.Targets(p)| && TookFirst(c, p, n, before, now)
    ensures KeyFree(c, now, p, n) <==> KeyFree(c, before, p, n)
    ensures KeyFree(c, now, p, n) ==> TookFirst(c, p, n + 1, before, now[Lock(c.Targets(p)[n], c.Address(p)) := p])
  {
    LockSetGrows(c, p, n);
  }

  /** p's key is on every node, and nothing else has changed. */
  ghost predicate KeyEverywhere(c: Config, p: Pid, before: map<Lock, Pid>, now: map<Lock, Pid>)
    requires p in c.requests
  {
    && (forall n :: n in c.nodes ==> OwnsKey(now, Lock(n, c.requests[p].email), p))
    && (forall k :: k in before ==> k in now && now[k] == before[k])
    && (forall k :: k in now && k !in before ==> k.node in c.nodes && k.email == c.requests[p].email)
  }

  lemma TookAll(c: Config, s: State, p: Pid, before: map<Lock, Pid>)
    requires c.Mesh() && Inv(c, s) && p in c.requests && HoldsLock(c, s, p)
    requires TookFirst(c, p, |c.Targets(p)|, before, s.keys)
    ensures KeyEverywhere(c, p, before, s.keys)
  {
    forall n | n in c.nodes ensures OwnsKey(s.keys, Lock(n, c.Address(p)), p) {
      HolderOwnsEveryKey(c, s, p, n);
    }
    forall k | k in s.keys && k !in before ensures k.node in c.nodes && k.email == c.Address(p) {
      LockSetMember(c, p, k);
    }
  }

  lemma LockSetMember(c: Config, p: Pid, k: Lock)
    requires c.Mesh() && p in c.requests && k in LockSet(c, p, |c.Targets(p)|)
    ensures k.node in c.nodes && k.email == c.Address(p)
  {
    TargetsDistinct(c, p);
    var i :| 0 <= i < |c.Targets(p)| && k == Lock(c.Targets(p)[i], c.Address(p));
    assert c.Targets(p)[i] in c.Targets(p);
  }

  lemma TookNone(c: Config, p: Pid, before: map<Lock, Pid>)
    requires p in c.requests && c.Home(p) in c.peers
    ensures LockSet(c, p, 0) == {} && TookFirst(c, p, 0, before, before)
  {}

  lemma GivingBackRestores(c: Config, p: Pid, n: nat, before: map<Lock, Pid>, now: map<Lock, Pid>)
    requires p in c.requests && c.Home(p) in c.peers && n <= |c.Targets(p)|
    requires TookFirst(c, p, n, before, now)
    ensures now - LockSet(c, p, n) == before
  {}

  lemma OverwrittenTwice(phase: map<Pid, Phase>, p: Pid, first: Phase, second: Phase)
    ensures phase[p := first][p := second] == phase[p := second]
  {}

  class Nodes {
    const config: Config
    var phase: map<Pid, Phase>
    var keys: map<Lock, Pid>
    var users: map<Lock, Pid>
    var committed: set<Pid>

    ghost function Now(): State
      reads this
    {
      State(phase, keys, users, committed)
    }

    ghost predicate Valid()
      reads this
    {
      && config.Valid() && config.Mesh()
      && phase.Keys == config.requests.Keys && PhasesOk(config, Now()) && Inv(config, Now())
    }

    constructor (config: Config)
      requires config.Mesh()
      ensures Valid() && Init(config, Now()) && this.config == config
    {
      this.config := config;
      phase := map p | p in config.requests :: Idle;
      keys, users, committed := map[], map[], {};
      new;
      InitHoldsInv(config, Now());
    }

    /** SET NX on the request's own node. */
    method SetLocalKey(p: Pid) returns (acquired: bool)
      requires Valid() && p in config.requests && phase[p] == Idle
      modifies this
      ensures Valid() && TakeLocal(config, old(Now()), p, Now())
      ensures acquired <==> phase[p] == Locking(0)
    {
      var own := Lock(config.Home(p), config.Address(p));
      acquired := own !in keys;
      if acquired {
        keys := keys[own := p];
        phase := phase[p := Locking(0)];
      } else {
        phase := phase[p := Done];
      }
      RequestKeepsInv(config, old(Now()), p, Now());
    }

    /** The peer looks the address up in its user table. */
    method LookUpAtPeer(p: Pid) returns (exists_: bool)
      requires Valid() && p in config.requests && phase[p].Locking? && phase[p].asked < |config.Peers(p)|
      modifies this
      ensures Valid() && PeerCheck(config, old(Now()), p, Now())
      ensures exists_ <==> phase[p].RollingBack?
    {
      var i := phase[p].asked;
      exists_ := Lock(config.Peers(p)[i], config.Address(p)) in users;
      phase := phase[p := if exists_ then RollingBack(i, 0) else Checked(i)];
      RequestKeepsInv(config, old(Now()), p, Now());
    }

    /** SET NX on the peer. */
    method SetPeerKey(p: Pid) returns (acquired: bool)
      requires Valid() && p in config.requests && phase[p].Checked?
      modifies this
      ensures Valid() && PeerSet(config, old(Now()), p, Now())
      ensures acquired <==> phase[p].Locking?
    {
      hide Inv;
      hide Config.Mesh;
      var i := phase[p].asked;
      var key := Lock(config.Peers(p)[i], config.Address(p));
      acquired := key !in keys;
      if acquired {
        keys := keys[key := p];
        phase := phase[p := Locking(i + 1)];
      } else {
        phase := phase[p := RollingBack(i, 0)];
      }
      assert PeerSet(config, old(Now()), p, Now());
      RequestKeepsInv(config, old(Now()), p, Now());
    }

    method DeleteInRollback(p: Pid)
      requires Valid() && p in config.requests && phase[p].RollingBack?
      modifies this
      ensures Valid() && RollBackOne(config, old(Now()), p, Now())
    {
      hide Inv;
      hide Config.Mesh;
      var RollingBack(m, i) := phase[p];
      keys := keys - {Lock(config.Targets(p)[i], config.Address(p))};
      phase := phase[p := if i == m then Done else RollingBack(m, i + 1)];
      RequestKeepsInv(config, old(Now()), p, Now());
    }

    method DeleteInRelease(p: Pid)
      requires Valid() && p in config.requests && phase[p].Releasing?
      modifies this
      ensures Valid() && ReleaseOne(config, old(Now()), p, Now())
    {
      hide Inv;
      hide Config.Mesh;
      var i := phase[p].freed;
      keys := keys - {Lock(config.Targets(p)[i], config.Address(p))};
      phase := phase[p := if i == |config.Peers(p)| then Done else Releasing(i + 1)];
      RequestKeepsInv(config, old(Now()), p, Now());
    }

    /** The transaction on the own database; licenceFree is the outcome of the licence query. */
    method RegisterLocally(p: Pid, licenceFree: bool) returns (registered: bool)
      requires Valid() && p in config.requests && HoldsLock(config, Now(), p)
      modifies this
      ensures Valid()
      ensures registered <==> licenceFree && Lock(config.Home(p), config.Address(p)) !in old(users)
      ensures if registered then Commit(config, old(Now()), p, Now()) else Refuse(config, old(Now()), p, Now())
      ensures phase == old(phase)[p := Releasing(0)] && keys == old(keys)
      ensures var own := Lock(config.requests[p].home, config.requests[p].email);
              users == if registered then old(users)[own := p] else old(users)
      ensures committed == if registered then old(committed) + {p} else old(committed)
    {
      var own := Lock(config.Home(p), config.Address(p));
      registered := own !in users && licenceFree;
      if registered {
        users := users[own := p];
        committed := committed + {p};
      }
      phase := phase[p := Releasing(0)];
      RequestKeepsInv(config, old(Now()), p, Now());
    }

    /** A replicated row arrives from another node. */
    method ReceiveUser(from: Node, to: Node, email: Email) returns (applied: bool)
      requires Valid() && from in config.nodes && to in config.nodes && Lock(from, email) in users
      modifies this
      ensures Valid() && CopyUser(config, old(Now()), from, to, email, Now())
      ensures applied <==> Lock(to, email) !in old(users)
      ensures users == if applied then old(users)[Lock(to, email) := old(users)[Lock(from, email)]] else old(users)
      ensures keys == old(keys) && phase == old(phase) && committed == old(committed)
    {
      applied := Lock(to, email) !in users;
      if applied {
        users := users[Lock(to, email) := users[Lock(from, email)]];
      }
      CopyKeeps(config, old(Now()), from, to, email, Now());
    }

    /** One peer's answer to a lock request. */
    method AskPeer(p: Pid) returns (acquired: bool)
      requires Valid() && p in config.requests && phase[p].Locking? && phase[p].asked < |config.Peers(p)|
      modifies this
      ensures Valid() && users == old(users) && committed == old(committed)
      ensures var i := old(phase[p]).asked;
              var key := Lock(config.Peers(p)[i], config.Address(p));
              && (acquired <==> key !in old(users) && key !in old(keys))
              && phase == old(phase)[p := if acquired then Locking(i + 1) else RollingBack(i, 0)]
              && keys == if acquired then old(keys)[key := p] else old(keys)
    {
      hide Inv;
      hide Config.Mesh;
      hide PhasesOk;
      var known := LookUpAtPeer(p);
      if known {
        return false;
      }
      acquired := SetPeerKey(p);
    }

    /** Succeeds exactly when every key is free and no peer knows the address. On success the
        request owns all keys; on failure every lock table is as it was. */
    method AcquireDistributedLock(p: Pid) returns (acquired: bool)
      requires Valid() && p in config.requests && phase[p] == Idle
      modifies this
      ensures Valid() && users == old(users) && committed == old(committed)
      ensures acquired <==> Lockable(config, old(Now()), p)
      ensures var Request(home, email) := config.requests[p];
              acquired <==> NoRow(config.nodes, email, old(keys)) && NoRow(config.nodes - {home}, email, old(users))
      ensures acquired ==> HoldsLock(config, Now(), p) && TookFirst(config, p, |config.Targets(p)|, old(keys), keys)
      ensures acquired ==> KeyEverywhere(config, p, old(keys), keys)
      ensures !acquired ==> phase[p] == Done && keys == old(keys)
      ensures phase == old(phase)[p := phase[p]]
    {
      hide Inv;
      hide Config.Mesh;
      hide PhasesOk;
      hide TookFirst;
      hide KeyEverywhere;
      hide NoRow;
      TookNone(config, p, keys);
      TakeNext(config, p, 0, keys, keys);
      LockableMeans(config, Now(), p);
      acquired := SetLocalKey(p);
      if acquired {
        assert phase == old(phase)[p := Locking(0)];
        hide Moved;
        hide TakeLocal;
        acquired := AskAllPeers(p, old(keys));
        OverwrittenTwice(old(phase), p, Locking(0), phase[p]);
        OverwrittenTwice(old(phase), p, phase[p], Done);
        if acquired {
          TookAll(config, Now(), p, old(keys));
        } else {
          RollBack(p, old(keys));
        }
      } else {
        assert !KeyFree(config, old(keys), p, 0);
      }
    }

    method AskAllPeers(p: Pid, ghost before: map<Lock, Pid>) returns (acquired: bool)
      requires Valid() && p in config.requests && phase[p] == Locking(0)
      requires TookFirst(config, p, 1, before, keys) && KeyFree(config, before, p, 0)
      modifies this
      ensures Valid() && users == old(users) && committed == old(committed)
      ensures acquired <==>
        && (forall j :: 0 <= j < |config.Targets(p)| ==> KeyFree(config, before, p, j))
        && (forall j :: 1 <= j < |config.Targets(p)| ==> Unknown(config, old(users), p, j))
      ensures acquired ==> HoldsLock(config, Now(), p) && TookFirst(config, p, |config.Targets(p)|, before, keys)
      ensures !acquired ==>
        && phase[p].RollingBack? && phase[p].freed == 0 && phase[p].taken < |config.Peers(p)|
        && TookFirst(config, p, phase[p].taken + 1, before, keys)
      ensures phase == old(phase)[p := phase[p]]
    {
      hide Inv;
      hide Config.Mesh;
      hide PhasesOk;
      hide TookFirst;
      var i, failed := 0, false;
      while i < |config.Peers(p)| && !failed
        invariant Valid() && users == old(users) && committed == old(committed)
        invariant i <= |config.Peers(p)| && TookFirst(config, p, i + 1, before, keys)
        invariant phase == old(phase)[p := if failed then RollingBack(i, 0) else Locking(i)]
        invariant forall j :: 0 <= j <= i ==> KeyFree(config, before, p, j)
        invariant forall j :: 1 <= j <= i ==> Unknown(config, old(users), p, j)
        invariant failed ==> i < |config.Peers(p)|
        invariant failed ==> !(KeyFree(config, before, p, i + 1) && Unknown(config, old(users), p, i + 1))
        decreases |config.Peers(p)| - i, !failed
      {
        TakeNext(config, p, i + 1, before, keys);
        assert config.Targets(p)[i + 1] == config.Peers(p)[i];
        var answer := AskPeer(p);
        if answer {
          i := i + 1;
        } else {
          failed := true;
        }
      }
      acquired := !failed;
    }

    /** Own key first, then the keys of the peers that had accepted. */
    method RollBack(p: Pid, ghost before: map<Lock, Pid>)
      requires Valid() && p in config.requests && phase[p].RollingBack? && phase[p].freed == 0
      requires phase[p].taken < |config.Peers(p)| && TookFirst(config, p, phase[p].taken + 1, before, keys)
      modifies this
      ensures Valid() && users == old(users) && committed == old(committed)
      ensures keys == before && phase == old(phase)[p := Done]
    {
      hide Inv;
      hide Config.Mesh;
      hide PhasesOk;
      hide TookFirst;
      hide LockSet;
      ghost var m := phase[p].taken;
      GivingBackRestores(config, p, m + 1, before, keys);
      TookNone(config, p, keys);
      while phase[p] != Done
        invariant Valid() && users == old(users) && committed == old(committed)
        invariant phase == old(phase)[p := phase[p]]
        invariant phase[p] == Done || (phase[p].RollingBack? && phase[p].taken == m && phase[p].freed <= m)
        invariant keys == old(keys) - LockSet(config, p, if phase[p] == Done then m + 1 else phase[p].freed)
        decreases if phase[p] == Done then 0 else m + 1 - phase[p].freed
      {
        LockSetGrows(config, p, phase[p].freed);
        DeleteInRollback(p);
      }
    }

    /** Own key first, then the key of every peer. */
    method ReleaseDistributedLock(p: Pid, ghost before: map<Lock, Pid>)
      requires Valid() && p in config.requests && phase[p] == Releasing(0)
      requires TookFirst(config, p, |config.Targets(p)|, before, keys)
      modifies this
      ensures Valid() && users == old(users) && committed == old(committed)
      ensures keys == before && phase == old(phase)[p := Done]
    {
      hide Inv;
      hide Config.Mesh;
      hide PhasesOk;
      hide TookFirst;
      hide LockSet;
      ghost var n := |config.Targets(p)|;
      GivingBackRestores(config, p, n, before, keys);
      TookNone(config, p, keys);
      while phase[p] != Done
        invariant Valid() && users == old(users) && committed == old(committed)
        invariant phase == old(phase)[p := phase[p]]
        invariant phase[p] == Done || (phase[p].Releasing? && phase[p].freed < n)
        invariant keys == old(keys) - LockSet(config, p, if phase[p] == Done then n else phase[p].freed)
        decreases if phase[p] == Done then 0 else n - phase[p].freed
      {
        LockSetGrows(config, p, phase[p].freed);
        DeleteInRelease(p);
      }
    }

    /** A registration that nothing interrupts succeeds exactly when the keys are free, no node
        knows the address and the licence is new; either way it gives every key back. */
    method Register(p: Pid, licenceFree: bool) returns (registered: bool)
      requires Valid() && p in config.requests && phase[p] == Idle
      modifies this
      ensures Valid() && keys == old(keys) && phase == old(phase)[p := Done]
      ensures var Request(home, email) := config.requests[p];
              && (registered <==>
                    licenceFree && NoRow(config.nodes, email, old(keys)) && NoRow(config.nodes, email, old(users)))
              && users == if registered then old(users)[Lock(home, email) := p] else old(users)
      ensures committed == if registered then old(committed) + {p} else old(committed)
    {
      assert config.Home(p) == config.requests[p].home && config.Home(p) in config.nodes;
      assert config.Address(p) == config.requests[p].email;
      OneNodeMore(config.nodes, config.Home(p), config.Address(p), users);
      hide *;
      var acquired := AcquireDistributedLock(p);
      if !acquired {
        return false;
      }
      OverwrittenTwice(old(phase), p, phase[p], Releasing(0));
      OverwrittenTwice(old(phase), p, Releasing(0), Done);
      registered := RegisterLocally(p, licenceFree);
      ReleaseDistributedLock(p, old(keys));
    }
  }
}
