/** The counters agree with the slots: laws of single transactions. */
module AllocatorLaws {
  import opened Collections
  import opened Grid
  import opened PathShape
  import opened Clock
  import opened Allocator

  // ---- keys ------------------------------------------------------------------------

  lemma CellsForPath(routes: Routes, s: Slot)
    ensures var cells := CellsFor(routes, s.origin, s.dest, s.routeId);
            cells != [] && NoRepeats(cells) && OnGrid(cells)
  {
    PathEnds(s.origin, s.dest);
    PathOnGrid(s.origin, s.dest);
    WaypointPath(WaypointsOf(routes, s.routeId));
  }

  /** A slot passes at least one (cell, half-hour) pair and no pair twice. */
  lemma KeysOncePerSlot(routes: Routes, s: Slot)
    ensures SlotKeys(routes, s) != [] && NoRepeats(SlotKeys(routes, s))
    ensures forall key :: key in SlotKeys(routes, s) ==>
              key.start % SLOT == 0 && RoundGrid(key.lat) == key.lat && RoundGrid(key.lng) == key.lng
  {
    CellsForPath(routes, s);
    var cells := CellsFor(routes, s.origin, s.dest, s.routeId);
    var keys := SlotKeys(routes, s);
    forall i, j | 0 <= i < j < |keys| ensures keys[i] != keys[j] {
      assert cells[i] != cells[j];
    }
    forall key | key in keys
      ensures key.start % SLOT == 0 && RoundGrid(key.lat) == key.lat && RoundGrid(key.lng) == key.lng
    {
      var i :| 0 <= i < |keys| && keys[i] == key;
      SlotContains(CellTime(s.departure, s.arrival, i, |cells|), key.start);
      assert cells[i] in cells;
    }
  }

  /** Said without the list of keys: some cell of the slot's path lies at the key's place and is
      reached within the key's half-hour. */
  ghost predicate PassedBy(routes: Routes, s: Slot, key: Key) {
    var cells := CellsFor(routes, s.origin, s.dest, s.routeId);
    exists i, t ::
      && 0 <= i < |cells| && ReachedAt(s.departure, s.arrival, i, |cells|, t)
      && key.lat == cells[i].lat && key.lng == cells[i].lng
      && key.start % 1_800_000_000_000 == 0 && key.start <= t < key.start + 1_800_000_000_000
  }

  lemma KeyIsWhen(cells: seq<Cell>, departure: int, arrival: int, i: nat, t: int, key: Key)
    requires i < |cells| && ReachedAt(departure, arrival, i, |cells|, t)
    ensures key == KeyAt(cells, departure, arrival, i) <==>
      && key.lat == cells[i].lat && key.lng == cells[i].lng
      && key.start % 1_800_000_000_000 == 0 && key.start <= t < key.start + 1_800_000_000_000
  {
    hide ReachedAt;
    CellTimeIff(departure, arrival, i, |cells|, t);
    SlotContains(t, key.start);
    hide SlotStart;
    hide CellTime;
  }

  /** The keys of a slot are exactly the pairs it passes. */
  lemma KeysIffPassed(routes: Routes, s: Slot, key: Key)
    ensures key in SlotKeys(routes, s) <==> PassedBy(routes, s, key)
  {
    hide CellsFor;
    hide ReachedAt;
    hide CellTime;
    hide SlotStart;
    var cells, keys := CellsFor(routes, s.origin, s.dest, s.routeId), SlotKeys(routes, s);
    if i :| 0 <= i < |keys| && keys[i] == key {
      var t := CellTime(s.departure, s.arrival, i, |cells|);
      CellTimeIff(s.departure, s.arrival, i, |cells|, t);
      KeyIsWhen(cells, s.departure, s.arrival, i, t, key);
    }
    if i: int, t :|
      && 0 <= i < |cells| && ReachedAt(s.departure, s.arrival, i, |cells|, t)
      && key.lat == cells[i].lat && key.lng == cells[i].lng
      && key.start % 1_800_000_000_000 == 0 && key.start <= t < key.start + 1_800_000_000_000
    {
      KeyIsWhen(cells, s.departure, s.arrival, i, t, key);
      assert keys[i] == key;
    }
  }

  // ---- counting ----------------------------------------------------------------------

  lemma UsesAppend(routes: Routes, slots: seq<Slot>, s: Slot, key: Key)
    ensures Uses(routes, slots + [s], key)
         == Uses(routes, slots, key) + if Passes(routes, s, key) then 1 else 0
  {
    assert (slots + [s])[..|slots|] == slots;
  }

  /** Uses counts positions of the table, so it is the size of a set. */
  lemma {:induction false} UsesIsSetSize(routes: Routes, slots: seq<Slot>, key: Key, n: nat, passing: int -> bool)
    requires n <= |slots|
    requires forall i :: 0 <= i < |slots| ==> (passing(i) <==> Passes(routes, slots[i], key))
    ensures Uses(routes, slots[..n], key) == |Positions(n, passing)|
  {
    hide Passes;
    hide Positions;
    if n == 0 {
      NoPositions(passing);
    } else {
      UsesIsSetSize(routes, slots, key, n - 1, passing);
      assert slots[..n] == slots[..n - 1] + [slots[n - 1]];
      UsesAppend(routes, slots[..n - 1], slots[n - 1], key);
      OnePositionMore(n - 1, passing);
    }
  }

  lemma {:induction false} UsesPositive(routes: Routes, slots: seq<Slot>, k: nat, key: Key)
    requires k < |slots| && Passes(routes, slots[k], key)
    ensures Uses(routes, slots, key) >= 1
  {
    if k < |slots| - 1 {
      UsesPositive(routes, slots[..|slots| - 1], k, key);
    }
  }

  lemma {:induction false} IncrementAllCurrent(capacity: Capacity, keys: seq<Key>, key: Key)
    requires NoRepeats(keys)
    ensures Current(IncrementAll(capacity, keys), key) == Current(capacity, key) + if key in keys then 1 else 0
  {
    if keys != [] {
      var front := keys[..|keys| - 1];
      assert keys == front + [keys[|keys| - 1]];
      IncrementAllCurrent(capacity, front, key);
    }
  }

  lemma {:induction false} IncrementAllShape(capacity: Capacity, keys: seq<Key>)
    requires Shaped(capacity) && forall key :: key in keys ==> key.start % SLOT == 0
    ensures Shaped(IncrementAll(capacity, keys))
  {
    if keys != [] {
      IncrementAllShape(capacity, keys[..|keys| - 1]);
    }
  }

  /** GREATEST(0, n - 1) makes a difference only where the counter is zero. */
  lemma {:induction false} DecrementAllCurrent(capacity: Capacity, keys: seq<Key>, key: Key)
    requires NoRepeats(keys) && Current(capacity, key) >= 0
    ensures Current(DecrementAll(capacity, keys), key)
         == if key in keys && Current(capacity, key) > 0 then Current(capacity, key) - 1 else Current(capacity, key)
  {
    if keys != [] {
      var front := keys[..|keys| - 1];
      assert keys == front + [keys[|keys| - 1]];
      DecrementAllCurrent(capacity, front, key);
    }
  }

  lemma {:induction false} DecrementAllShape(capacity: Capacity, keys: seq<Key>)
    requires Shaped(capacity)
    ensures Shaped(DecrementAll(capacity, keys))
    ensures DecrementAll(capacity, keys).Keys == capacity.Keys
  {
    if keys != [] {
      DecrementAllShape(capacity, keys[..|keys| - 1]);
    }
  }

  // ---- booking -------------------------------------------------------------------------

  /** Storing a slot and raising the counters along its keys keeps the index exact. */
  lemma BookedConserves(routes: Routes, t: Tables, s: Slot)
    requires Conserved(routes, t) && Shaped(t.capacity) && s.active
    ensures Conserved(routes, Booked(routes, t, s)) && Shaped(Booked(routes, t, s).capacity)
  {
    var keys := SlotKeys(routes, s);
    KeysOncePerSlot(routes, s);
    IncrementAllShape(t.capacity, keys);
    forall key ensures Current(Booked(routes, t, s).capacity, key) == Uses(routes, t.slots + [s], key) {
      IncrementAllCurrent(t.capacity, keys, key);
      UsesAppend(routes, t.slots, s, key);
    }
  }

  /** A slot is only accepted where every counter on its way is below the maximum. */
  lemma BookedBounded(routes: Routes, t: Tables, s: Slot)
    requires Shaped(t.capacity) && Bounded(t.capacity) && CountersBelowMax(routes, t.capacity, s)
    ensures Shaped(Booked(routes, t, s).capacity) && Bounded(Booked(routes, t, s).capacity)
  {
    var keys := SlotKeys(routes, s);
    KeysOncePerSlot(routes, s);
    IncrementAllShape(t.capacity, keys);
    var after := Booked(routes, t, s).capacity;
    forall key | key in after ensures after[key].current <= after[key].max {
      IncrementAllCurrent(t.capacity, keys, key);
    }
  }

  lemma {:induction false} DecrementAllBounded(capacity: Capacity, keys: seq<Key>)
    requires Shaped(capacity) && Bounded(capacity)
    ensures Bounded(DecrementAll(capacity, keys))
  {
    if keys != [] {
      DecrementAllBounded(capacity, keys[..|keys| - 1]);
      DecrementAllShape(capacity, keys[..|keys| - 1]);
    }
  }

  // ---- cancelling ------------------------------------------------------------------------

  /** Active slots of one journey that pass the key. */
  function UsesOf(routes: Routes, slots: seq<Slot>, journeyId: string, key: Key): nat {
    if slots == [] then 0
    else
      var last := slots[|slots| - 1];
      UsesOf(routes, slots[..|slots| - 1], journeyId, key)
      + if last.journeyId == journeyId && Passes(routes, last, key) then 1 else 0
  }

  lemma {:induction false} UsesDeactivate(routes: Routes, slots: seq<Slot>, journeyId: string, key: Key)
    ensures Uses(routes, slots, key)
         == Uses(routes, Deactivate(slots, journeyId), key) + UsesOf(routes, slots, journeyId, key)
  {
    if slots != [] {
      var n := |slots| - 1;
      UsesDeactivate(routes, slots[..n], journeyId, key);
      assert Deactivate(slots, journeyId)[..n] == Deactivate(slots[..n], journeyId);
      assert SlotKeys(routes, slots[n].(active := false)) == SlotKeys(routes, slots[n]);
    }
  }

  lemma {:induction false} UsesOfNone(routes: Routes, slots: seq<Slot>, journeyId: string, key: Key)
    requires !HasActive(slots, journeyId)
    ensures UsesOf(routes, slots, journeyId, key) == 0
  {
    if slots != [] {
      var n := |slots| - 1;
      assert !ActiveAt(slots, journeyId, n);
      forall k ensures !ActiveAt(slots[..n], journeyId, k) {
        assert !ActiveAt(slots, journeyId, k);
      }
      UsesOfNone(routes, slots[..n], journeyId, key);
    }
  }

  ghost predicate OnlyActive(slots: seq<Slot>, journeyId: string, k: int) {
    ActiveAt(slots, journeyId, k) && forall j :: ActiveAt(slots, journeyId, j) ==> j == k
  }

  lemma {:induction false} UsesOfOnly(routes: Routes, slots: seq<Slot>, journeyId: string, k: int, key: Key)
    requires OnlyActive(slots, journeyId, k)
    ensures UsesOf(routes, slots, journeyId, key) == if key in SlotKeys(routes, slots[k]) then 1 else 0
  {
    var n := |slots| - 1;
    if k == n {
      forall j ensures !ActiveAt(slots[..n], journeyId, j) {
        assert ActiveAt(slots[..n], journeyId, j) ==> ActiveAt(slots, journeyId, j);
      }
      UsesOfNone(routes, slots[..n], journeyId, key);
    } else {
      assert !ActiveAt(slots, journeyId, n);
      assert ActiveAt(slots[..n], journeyId, k);
      forall j | ActiveAt(slots[..n], journeyId, j) ensures j == k {
        assert ActiveAt(slots, journeyId, j);
      }
      UsesOfOnly(routes, slots[..n], journeyId, k, key);
    }
  }

  lemma {:induction false} UsesOfAtLeast(routes: Routes, slots: seq<Slot>, journeyId: string, j: int, k: int, key: Key)
    requires ActiveAt(slots, journeyId, j) && ActiveAt(slots, journeyId, k) && j < k
    ensures UsesOf(routes, slots, journeyId, key)
         >= (if key in SlotKeys(routes, slots[j]) then 1 else 0) + (if key in SlotKeys(routes, slots[k]) then 1 else 0)
  {
    var n := |slots| - 1;
    if k < n {
      UsesOfAtLeast(routes, slots[..n], journeyId, j, k, key);
    } else {
      UsesOfAtLeastOne(routes, slots[..n], journeyId, j, key);
    }
  }

  lemma {:induction false} UsesOfAtLeastOne(routes: Routes, slots: seq<Slot>, journeyId: string, j: int, key: Key)
    requires ActiveAt(slots, journeyId, j)
    ensures UsesOf(routes, slots, journeyId, key) >= if key in SlotKeys(routes, slots[j]) then 1 else 0
  {
    var n := |slots| - 1;
    if j < n {
      UsesOfAtLeastOne(routes, slots[..n], journeyId, j, key);
    }
  }

  /** The clamp never fires: whatever a cancel decrements has been counted. */
  lemma ClampNeverFires(routes: Routes, t: Tables, journeyId: string, k: int, key: Key)
    requires Conserved(routes, t) && ActiveAt(t.slots, journeyId, k) && key in SlotKeys(routes, t.slots[k])
    ensures key in t.capacity && t.capacity[key].current >= 1
  {
    UsesPositive(routes, t.slots, k, key);
    assert Current(t.capacity, key) == Uses(routes, t.slots, key);
  }

  /** Cancelling keeps the index exact if and only if the journey has just one active row:
      every further row loses its slot and keeps its road. */
  lemma CancelConservesIff(routes: Routes, t: Tables, journeyId: string, k: int)
    requires Conserved(routes, t) && Shaped(t.capacity) && ActiveAt(t.slots, journeyId, k)
    ensures Conserved(routes, Cancelled(routes, t, journeyId, k)) <==> OnlyActive(t.slots, journeyId, k)
    ensures Shaped(Cancelled(routes, t, journeyId, k).capacity)
  {
    var keys := SlotKeys(routes, t.slots[k]);
    var after := Cancelled(routes, t, journeyId, k);
    KeysOncePerSlot(routes, t.slots[k]);
    DecrementAllShape(t.capacity, keys);
    if OnlyActive(t.slots, journeyId, k) {
      forall key ensures Current(after.capacity, key) == Uses(routes, after.slots, key) {
        CancelOne(routes, t, journeyId, k, key);
        UsesOfOnly(routes, t.slots, journeyId, k, key);
      }
    } else {
      var j :| ActiveAt(t.slots, journeyId, j) && j != k;
      KeysOncePerSlot(routes, t.slots[j]);
      var key := SlotKeys(routes, t.slots[j])[0];
      CancelOne(routes, t, journeyId, k, key);
      if j < k {
        UsesOfAtLeast(routes, t.slots, journeyId, j, k, key);
      } else {
        UsesOfAtLeast(routes, t.slots, journeyId, k, j, key);
      }
      assert Current(after.capacity, key) != Uses(routes, after.slots, key);
    }
  }

  lemma CancelOne(routes: Routes, t: Tables, journeyId: string, k: int, key: Key)
    requires Conserved(routes, t) && ActiveAt(t.slots, journeyId, k)
    ensures Current(Cancelled(routes, t, journeyId, k).capacity, key)
         == Uses(routes, Deactivate(t.slots, journeyId), key)
          + UsesOf(routes, t.slots, journeyId, key) - if key in SlotKeys(routes, t.slots[k]) then 1 else 0
  {
    var keys := SlotKeys(routes, t.slots[k]);
    KeysOncePerSlot(routes, t.slots[k]);
    assert Current(t.capacity, key) == Uses(routes, t.slots, key);
    DecrementAllCurrent(t.capacity, keys, key);
    UsesDeactivate(routes, t.slots, journeyId, key);
    if key in keys {
      ClampNeverFires(routes, t, journeyId, k, key);
    }
  }

  /** Booking and then cancelling a journey gives every counter its value back. */
  lemma BookThenCancelRestores(routes: Routes, t: Tables, s: Slot, key: Key)
    requires Conserved(routes, t) && Shaped(t.capacity) && s.active && !HasActive(t.slots, s.journeyId)
    ensures var booked := Booked(routes, t, s);
            && OnlyActive(booked.slots, s.journeyId, |t.slots|)
            && Current(Cancelled(routes, booked, s.journeyId, |t.slots|).capacity, key) == Current(t.capacity, key)
  {
    var booked, k := Booked(routes, t, s), |t.slots|;
    BookedConserves(routes, t, s);
    forall j | ActiveAt(booked.slots, s.journeyId, j) ensures j == k {
      assert j < k ==> ActiveAt(t.slots, s.journeyId, j);
    }
    KeysOncePerSlot(routes, s);
    IncrementAllCurrent(t.capacity, SlotKeys(routes, s), key);
    assert Current(t.capacity, key) == Uses(routes, t.slots, key);
    DecrementAllCurrent(booked.capacity, SlotKeys(routes, s), key);
  }
}
