/** De-duplication of sequences by a table of values already seen, sequences whose repeats
    are consecutive, and counting. */
module Collections {

  /** Keeps each value where it first occurs. */
  function FirstOccurrences<T(==)>(s: seq<T>): seq<T> {
    if s == [] then []
    else
      var front, last := s[..|s| - 1], s[|s| - 1];
      if last in front then FirstOccurrences(front) else FirstOccurrences(front) + [last]
  }

  /** Drops each value that equals its predecessor. */
  function Compress<T(==)>(s: seq<T>): seq<T> {
    if |s| <= 1 then s
    else
      var front, last := s[..|s| - 1], s[|s| - 1];
      if last == front[|front| - 1] then Compress(front) else Compress(front) + [last]
  }

  ghost predicate NoRepeats<T>(s: seq<T>) {
    forall i, j :: 0 <= i < j < |s| ==> s[i] != s[j]
  }

  ghost predicate Stepwise<T(!new)>(s: seq<T>, related: (T, T) -> bool) {
    forall i :: 0 <= i < |s| - 1 ==> related(s[i], s[i + 1])
  }

  /** Equal values are never separated by a different one. */
  ghost predicate Contiguous<T>(s: seq<T>) {
    forall i, j, k :: 0 <= i < j < k < |s| && s[i] == s[k] ==> s[j] == s[k]
  }

  lemma AppendNew<T>(s: seq<T>, x: T)
    requires NoRepeats(s) && x !in s
    ensures NoRepeats(s + [x])
  {}

  lemma {:induction false} FirstOccurrencesKeepsValues<T>(s: seq<T>)
    ensures forall x :: x in FirstOccurrences(s) <==> x in s
    ensures NoRepeats(FirstOccurrences(s))
    ensures s != [] ==> FirstOccurrences(s) != [] && FirstOccurrences(s)[0] == s[0]
  {
    if s != [] {
      var front, last := s[..|s| - 1], s[|s| - 1];
      assert s == front + [last];
      FirstOccurrencesKeepsValues(front);
      if last !in front {
        AppendNew(FirstOccurrences(front), last);
      }
      hide NoRepeats;
    }
  }

  /** The values of s that are not in seen, in their order. */
  function Without<T(==)>(s: seq<T>, seen: seq<T>): seq<T> {
    if s == [] then []
    else Without(s[..|s| - 1], seen) + if s[|s| - 1] in seen then [] else [s[|s| - 1]]
  }

  lemma {:induction false} WithoutNone<T>(s: seq<T>)
    ensures Without(s, []) == s
  {
    if s != [] {
      WithoutNone(s[..|s| - 1]);
    }
  }

  /** A part without repeats adds its own new values in its own order. */
  lemma {:induction false} FirstOccurrencesAppend<T>(a: seq<T>, s: seq<T>)
    requires NoRepeats(s)
    ensures FirstOccurrences(a + s) == FirstOccurrences(a) + Without(s, a)
  {
    if s == [] {
      assert a + s == a;
    } else {
      var front, last := s[..|s| - 1], s[|s| - 1];
      FirstOccurrencesAppend(a, front);
      assert a + s == (a + front) + [last];
      assert (a + s)[..|a + s| - 1] == a + front;
      assert last !in front;
    }
  }

  lemma {:induction false} WithoutSame<T>(s: seq<T>, a: seq<T>, b: seq<T>)
    requires forall x :: x in a <==> x in b
    ensures Without(s, a) == Without(s, b)
  {
    if s != [] {
      WithoutSame(s[..|s| - 1], a, b);
    }
  }

  lemma {:induction false} CompressEnds<T>(s: seq<T>)
    requires s != []
    ensures Compress(s) != []
    ensures Compress(s)[0] == s[0] && Compress(s)[|Compress(s)| - 1] == s[|s| - 1]
  {
    if |s| > 1 {
      CompressEnds(s[..|s| - 1]);
    }
  }

  /** The seen-table removes only consecutive duplicates when repeats are contiguous. */
  lemma {:induction false} FirstOccurrencesIsCompress<T>(s: seq<T>)
    requires Contiguous(s)
    ensures FirstOccurrences(s) == Compress(s)
  {
    if |s| > 1 {
      var front, last := s[..|s| - 1], s[|s| - 1];
      FirstOccurrencesIsCompress(front);
      if last in front {
        var i :| 0 <= i < |front| && front[i] == last;
        assert s[i] == s[|s| - 1];
        assert front[|front| - 1] == s[|s| - 2] == last;
      }
    } else if |s| == 1 {
      assert FirstOccurrences(s[..0]) == [];
      assert s == [s[0]];
    }
  }

  /** Removing consecutive duplicates neither hides nor creates a step that breaks
      a reflexive relation. */
  lemma {:induction false} CompressStepwise<T(!new)>(s: seq<T>, related: (T, T) -> bool)
    requires forall x :: related(x, x)
    ensures Stepwise(Compress(s), related) <==> Stepwise(s, related)
  {
    if |s| > 1 {
      var front, last := s[..|s| - 1], s[|s| - 1];
      var c := Compress(front);
      CompressStepwise(front, related);
      CompressEnds(front);
      assert Stepwise(s, related) <==> Stepwise(front, related) && related(front[|front| - 1], last) by {
        if Stepwise(s, related) {
          assert related(s[|s| - 2], s[|s| - 2 + 1]);
          forall i | 0 <= i < |front| - 1 ensures related(front[i], front[i + 1]) {
            assert related(s[i], s[i + 1]);
          }
        }
      }
      if last != front[|front| - 1] {
        AppendStepwise(c, last, related);
      }
    }
  }

  lemma AppendStepwise<T(!new)>(s: seq<T>, x: T, related: (T, T) -> bool)
    requires s != []
    ensures Stepwise(s + [x], related) <==> Stepwise(s, related) && related(s[|s| - 1], x)
  {
    var t := s + [x];
    if Stepwise(t, related) {
      assert related(t[|s| - 1], t[|s| - 1 + 1]);
      forall i | 0 <= i < |s| - 1 ensures related(s[i], s[i + 1]) {
        assert related(t[i], t[i + 1]);
      }
    }
  }

  /** A relation that holds stepwise and is transitive holds between any two positions. */
  lemma {:induction false} StepwiseTransitive<T(!new)>(s: seq<T>, related: (T, T) -> bool, i: nat, j: nat)
    requires forall x :: related(x, x)
    requires forall x, y, z :: related(x, y) && related(y, z) ==> related(x, z)
    requires Stepwise(s, related) && i <= j < |s|
    ensures related(s[i], s[j])
    decreases j - i
  {
    if i < j {
      StepwiseTransitive(s, related, i, j - 1);
      assert related(s[j - 1], s[j - 1 + 1]);
    }
  }

  ghost function Positions(n: nat, p: int -> bool): set<int> {
    set i | 0 <= i < n && p(i)
  }

  lemma NoPositions(p: int -> bool)
    ensures Positions(0, p) == {}
  {}

  lemma OnePositionMore(n: nat, p: int -> bool)
    ensures |Positions(n + 1, p)| == |Positions(n, p)| + if p(n) then 1 else 0
  {
    assert Positions(n + 1, p) == Positions(n, p) + if p(n) then {n} else {};
  }

  ghost function Members<T>(s: seq<T>, p: T -> bool): set<T> {
    set x | x in s && p(x)
  }

  lemma OneMemberMore<T>(s: seq<T>, x: T, p: T -> bool)
    requires x !in s
    ensures |Members(s + [x], p)| == |Members(s, p)| + if p(x) then 1 else 0
  {
    assert Members(s + [x], p) == Members(s, p) + if p(x) then {x} else {};
  }

  ghost function KeysWhere<K, V>(m: map<K, V>, p: V -> bool): set<K> {
    set k | k in m && p(m[k])
  }

  lemma ChangeOneValue<K, V>(m: map<K, V>, k: K, v: V, p: V -> bool)
    ensures |KeysWhere(m[k := v], p)|
         == |KeysWhere(m, p)| - (if k in m && p(m[k]) then 1 else 0) + (if p(v) then 1 else 0)
  {
    var before, after := KeysWhere(m, p), KeysWhere(m[k := v], p);
    OtherKeysStay(m, k, v, p);
    hide KeysWhere;
    WithAndWithout(before, k);
    WithAndWithout(after, k);
  }

  lemma OtherKeysStay<K, V>(m: map<K, V>, k: K, v: V, p: V -> bool)
    ensures KeysWhere(m[k := v], p) - {k} == KeysWhere(m, p) - {k}
    ensures k in KeysWhere(m, p) <==> k in m && p(m[k])
    ensures k in KeysWhere(m[k := v], p) <==> p(v)
  {
    var m' := m[k := v];
    forall x | x != k ensures x in KeysWhere(m', p) <==> x in KeysWhere(m, p) {
      assert x in m' <==> x in m;
    }
  }

  lemma WithAndWithout<T>(s: set<T>, x: T)
    ensures |s| == |s - {x}| + if x in s then 1 else 0
  {
    if x in s {
      assert s == (s - {x}) + {x};
    } else {
      assert s == s - {x};
    }
  }
}
