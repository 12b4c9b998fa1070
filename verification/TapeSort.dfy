/** The stable sort by timestamp that the reorder buffer relies on. */
module TapeSort {
  import opened Candles

  ghost predicate Sorted(s: seq<Tick>) {
    forall i, j :: 0 <= i < j < |s| ==> s[i].ts <= s[j].ts
  }

  lemma SortedInit(s: seq<Tick>)
    requires Sorted(s) && s != []
    ensures Sorted(s[..|s| - 1])
    ensures forall x :: x in s[..|s| - 1] ==> x.ts <= s[|s| - 1].ts
  {
  }

  /** Insert behind every tick that is not later: the place a stable sort gives it. */
  function Insert(s: seq<Tick>, t: Tick): seq<Tick> {
    if s == [] || s[|s| - 1].ts <= t.ts then s + [t]
    else Insert(s[..|s| - 1], t) + [s[|s| - 1]]
  }

  function StableSort(s: seq<Tick>): seq<Tick> {
    if s == [] then [] else Insert(StableSort(s[..|s| - 1]), s[|s| - 1])
  }

  /** The ticks stamped ts, in the order they stand. */
  function Stamped(s: seq<Tick>, ts: int): seq<Tick> {
    if s == [] then []
    else if s[|s| - 1].ts == ts then Stamped(s[..|s| - 1], ts) + [s[|s| - 1]]
    else Stamped(s[..|s| - 1], ts)
  }

  lemma {:induction false} InsertMultiset(s: seq<Tick>, t: Tick)
    ensures multiset(Insert(s, t)) == multiset(s) + multiset{t}
  {
    if s != [] && s[|s| - 1].ts > t.ts {
      InsertMultiset(s[..|s| - 1], t);
      assert s == s[..|s| - 1] + [s[|s| - 1]];
    }
  }

  lemma {:induction false} InsertMember(s: seq<Tick>, t: Tick, x: Tick)
    ensures x in Insert(s, t) <==> x in s || x == t
  {
    InsertMultiset(s, t);
    assert x in Insert(s, t) <==> x in multiset(Insert(s, t));
    assert x in s <==> x in multiset(s);
  }

  lemma {:induction false} InsertSorted(s: seq<Tick>, t: Tick)
    requires Sorted(s)
    ensures Sorted(Insert(s, t))
  {
    if s != [] && s[|s| - 1].ts > t.ts {
      var init, z := s[..|s| - 1], s[|s| - 1];
      InsertSorted(init, t);
      var r := Insert(init, t);
      forall i | 0 <= i < |r|
        ensures r[i].ts <= z.ts
      {
        InsertMember(init, t, r[i]);
        assert r[i] in r;
      }
    }
  }

  lemma InsertStamped(s: seq<Tick>, t: Tick, ts: int)
    requires Sorted(s)
    ensures Stamped(Insert(s, t), ts) == Stamped(s, ts) + (if t.ts == ts then [t] else [])
  {
    if s == [] || s[|s| - 1].ts <= t.ts {
      assert (s + [t])[..|s|] == s;
    } else {
      var init, z := s[..|s| - 1], s[|s| - 1];
      InsertStamped(init, t, ts);
      assert (Insert(init, t) + [z])[..|Insert(init, t)|] == Insert(init, t);
      if t.ts == ts {
        assert z.ts != ts;
      }
    }
  }

  /** StableSort is a sort: sorted, a permutation, and arrival order kept among equals. */
  lemma {:induction false} StableSortSpec(s: seq<Tick>)
    ensures Sorted(StableSort(s))
    ensures multiset(StableSort(s)) == multiset(s)
    ensures SameStamped(StableSort(s), s)
  {
    if s != [] {
      var init, t := s[..|s| - 1], s[|s| - 1];
      assert s == init + [t];
      StableSortSpec(init);
      InsertSorted(StableSort(init), t);
      InsertMultiset(StableSort(init), t);
      forall ts
        ensures Stamped(StableSort(s), ts) == Stamped(s, ts)
      {
        InsertStamped(StableSort(init), t, ts);
      }
    }
  }

  lemma StampedMember(s: seq<Tick>, ts: int, t: Tick)
    ensures t in Stamped(s, ts) <==> t in s && t.ts == ts
  {
    if s != [] {
      assert s == s[..|s| - 1] + [s[|s| - 1]];
      StampedMember(s[..|s| - 1], ts, t);
    }
  }

  ghost predicate SameStamped(a: seq<Tick>, b: seq<Tick>) {
    forall ts :: Stamped(a, ts) == Stamped(b, ts)
  }

  lemma {:induction false} SameStampedMember(a: seq<Tick>, b: seq<Tick>, x: Tick)
    requires SameStamped(a, b) && x in a
    ensures x in b
  {
    StampedMember(a, x.ts, x);
    assert Stamped(a, x.ts) == Stamped(b, x.ts);
    StampedMember(b, x.ts, x);
  }

  lemma SnocInjective<T>(a: seq<T>, x: T, b: seq<T>, y: T)
    requires a + [x] == b + [y]
    ensures a == b && x == y
  {
    assert (a + [x])[|a|] == (b + [y])[|b|];
    assert a == (a + [x])[..|a|] && b == (b + [y])[..|b|];
  }

  /** Two sorted tapes that agree stamp by stamp end in the same tick. */
  lemma {:induction false} SameLast(a: seq<Tick>, b: seq<Tick>)
    requires Sorted(a) && Sorted(b) && SameStamped(a, b) && a != [] && b != []
    ensures a[|a| - 1] == b[|b| - 1]
    ensures SameStamped(a[..|a| - 1], b[..|b| - 1])
  {
    var a0, x, b0, y := a[..|a| - 1], a[|a| - 1], b[..|b| - 1], b[|b| - 1];
    SameStampedMember(a, b, x);
    SameStampedMember(b, a, y);
    assert Stamped(a, x.ts) == Stamped(b, x.ts);
    SnocInjective(Stamped(a0, x.ts), x, Stamped(b0, x.ts), y);
    forall ts
      ensures Stamped(a0, ts) == Stamped(b0, ts)
    {
      assert Stamped(a, ts) == Stamped(b, ts);
    }
  }

  /** There is only one stable sort: sortedness and the order among equals fix the result. */
  lemma {:induction false} StableSortUnique(a: seq<Tick>, b: seq<Tick>)
    requires Sorted(a) && Sorted(b) && SameStamped(a, b)
    ensures a == b
  {
    if a != [] {
      SameStampedMember(a, b, a[0]);
      SameLast(a, b);
      StableSortUnique(a[..|a| - 1], b[..|b| - 1]);
      assert a == a[..|a| - 1] + [a[|a| - 1]] && b == b[..|b| - 1] + [b[|b| - 1]];
    } else if b != [] {
      SameStampedMember(b, a, b[0]);
    }
  }

  /** Sorting a buffer that is already sorted leaves it as it is. */
  lemma {:induction false} SortOfSorted(s: seq<Tick>)
    requires Sorted(s)
    ensures StableSort(s) == s
  {
    if s != [] {
      assert s == s[..|s| - 1] + [s[|s| - 1]];
      SortOfSorted(s[..|s| - 1]);
    }
  }

  /** Sorting after an append to a sorted buffer is one stable insertion. */
  lemma SortAppend(s: seq<Tick>, t: Tick)
    ensures StableSort(s + [t]) == Insert(StableSort(s), t)
  {
    assert (s + [t])[..|s|] == s;
  }

  /** A tick no older than a settled prefix is inserted behind it. */
  lemma {:induction false} InsertBehind(pre: seq<Tick>, s: seq<Tick>, t: Tick)
    requires forall x :: x in pre ==> x.ts <= t.ts
    ensures Insert(pre + s, t) == pre + Insert(s, t)
  {
    if s == [] {
      assert pre + s == pre;
      if pre != [] { assert pre[|pre| - 1] in pre; }
    } else {
      var z := s[|s| - 1];
      assert (pre + s)[|pre + s| - 1] == z;
      if z.ts > t.ts {
        InsertBehind(pre, s[..|s| - 1], t);
        assert (pre + s)[..|pre + s| - 1] == pre + s[..|s| - 1];
      }
    }
  }

  ghost predicate DistinctStamps(s: seq<Tick>) {
    forall i, j :: 0 <= i < j < |s| ==> s[i].ts != s[j].ts
  }

  lemma StampedSingle(s: seq<Tick>, ts: int)
    requires DistinctStamps(s)
    ensures |Stamped(s, ts)| <= 1
  {
    if s != [] && s[|s| - 1].ts == ts {
      if Stamped(s[..|s| - 1], ts) != [] {
        var x := Stamped(s[..|s| - 1], ts)[0];
        StampedMember(s[..|s| - 1], ts, x);
      }
    } else if s != [] {
      StampedSingle(s[..|s| - 1], ts);
    }
  }

  lemma {:induction false} DistinctStamped(a: seq<Tick>, b: seq<Tick>, ts: int)
    requires multiset(a) == multiset(b) && DistinctStamps(a) && DistinctStamps(b)
    requires Stamped(a, ts) != []
    ensures Stamped(a, ts) == Stamped(b, ts)
  {
    StampedSingle(a, ts);
    StampedSingle(b, ts);
    var x := Stamped(a, ts)[0];
    StampedMember(a, ts, x);
    assert x in multiset(b);
    StampedMember(b, ts, x);
  }

  /** With distinct stamps the sorted tape does not depend on the arrival order. */
  lemma {:induction false} SortForgetsArrival(a: seq<Tick>, b: seq<Tick>)
    requires multiset(a) == multiset(b)
    requires DistinctStamps(a) && DistinctStamps(b)
    ensures StableSort(a) == StableSort(b)
  {
    StableSortSpec(a);
    StableSortSpec(b);
    forall ts
      ensures Stamped(a, ts) == Stamped(b, ts)
    {
      if Stamped(a, ts) != [] {
        DistinctStamped(a, b, ts);
      } else if Stamped(b, ts) != [] {
        DistinctStamped(b, a, ts);
      }
    }
    forall ts
      ensures Stamped(StableSort(a), ts) == Stamped(StableSort(b), ts)
    {
      assert Stamped(StableSort(a), ts) == Stamped(a, ts) == Stamped(b, ts);
    }
    StableSortUnique(StableSort(a), StableSort(b));
  }
}
