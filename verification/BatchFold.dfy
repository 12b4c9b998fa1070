/** Running bucketing of a tape, and the proof that on a sorted tape it is the batch bucketing. */
module BatchFold {
  import opened Candles
  import opened TapeSort

  /** Put one tick into the newest bucket, or open a new one. */
  function Absorb(bs: seq<Bucket>, t: Tick, interval: int): seq<Bucket>
    requires interval > 0
  {
    var start := WindowStart(t.ts, interval);
    if bs != [] && bs[|bs| - 1].start == start then bs[..|bs| - 1] + [UpdateBucket(bs[|bs| - 1], t)]
    else bs + [OpenBucket(start, t)]
  }

  function Fold(ts: seq<Tick>, interval: int): (bs: seq<Bucket>)
    requires interval > 0
    ensures ts != [] ==> bs != []
  {
    if ts == [] then [] else Absorb(Fold(ts[..|ts| - 1], interval), ts[|ts| - 1], interval)
  }

  lemma FoldSnoc(ts: seq<Tick>, t: Tick, interval: int)
    requires interval > 0
    ensures Fold(ts + [t], interval) == Absorb(Fold(ts, interval), t, interval)
  {
    assert (ts + [t])[..|ts|] == ts;
  }

  lemma TotalVolumeSnoc(ts: seq<Tick>, t: Tick)
    ensures TotalVolume(ts + [t]) == AddVolume(TotalVolume(ts), t.volume)
  {
    assert (ts + [t])[..|ts|] == ts;
  }

  lemma OpenSummarises(start: int, t: Tick)
    ensures Summarises(OpenBucket(start, t), [t])
  {
    TotalVolumeSnoc([], t);
    assert [] + [t] == [t];
    assert t in [t];
  }

  lemma {:induction false} UpdateSummarises(b: Bucket, ts: seq<Tick>, t: Tick)
    requires Summarises(b, ts)
    ensures Summarises(UpdateBucket(b, t), ts + [t])
  {
    TotalVolumeSnoc(ts, t);
    var c, us := UpdateBucket(b, t), ts + [t];
    assert t in us && forall x :: x in ts ==> x in us;
    var hi :| hi in ts && hi.price == b.high;
    var lo :| lo in ts && lo.price == b.low;
    assert (hi in us && hi.price == c.high) || t.price == c.high;
    assert (lo in us && lo.price == c.low) || t.price == c.low;
  }

  lemma WindowStartMonotone(a: int, b: int, interval: int)
    requires interval > 0 && a <= b
    ensures WindowStart(a, interval) <= WindowStart(b, interval)
  {
    var p, q := WindowStart(a, interval), WindowStart(b, interval);
    if q < p {
      AlignedGap(q, p, interval);
    }
  }

  /** A bucket of the batch holds a tick of the tape. */
  lemma BucketInhabited(bs: seq<Bucket>, ts: seq<Tick>, interval: int, i: int) returns (x: Tick)
    requires interval > 0 && Exact(bs, ts, interval) && 0 <= i < |bs|
    ensures x in ts && WindowStart(x.ts, interval) == bs[i].start
  {
    x := InWindow(ts, bs[i].start, interval)[0];
    InWindowMember(ts, bs[i].start, interval, x);
  }

  lemma LastStartOld(bs: seq<Bucket>, ts: seq<Tick>, t: Tick, interval: int)
    requires interval > 0 && Exact(bs, ts, interval) && bs != []
    requires forall x :: x in ts ==> x.ts <= t.ts
    ensures bs[|bs| - 1].start <= WindowStart(t.ts, interval)
  {
    var x := BucketInhabited(bs, ts, interval, |bs| - 1);
    WindowStartMonotone(x.ts, t.ts, interval);
  }

  lemma AbsorbStarts(bs: seq<Bucket>, t: Tick, interval: int, start: int)
    requires interval > 0
    ensures HasStart(Absorb(bs, t, interval), start) <==>
              HasStart(bs, start) || start == WindowStart(t.ts, interval)
  {
    var cs := Absorb(bs, t, interval);
    assert cs[|cs| - 1].start == WindowStart(t.ts, interval);
    if HasStart(bs, start) {
      var i :| 0 <= i < |bs| && bs[i].start == start;
      assert cs[i].start == start;
    }
    if HasStart(cs, start) && start != WindowStart(t.ts, interval) {
      var i :| 0 <= i < |cs| && cs[i].start == start;
      assert bs[i].start == start;
    }
  }

  lemma AbsorbCovers(bs: seq<Bucket>, ts: seq<Tick>, t: Tick, interval: int)
    requires interval > 0 && Covers(bs, ts, interval)
    ensures Covers(Absorb(bs, t, interval), ts + [t], interval)
  {
    forall x | x in ts + [t]
      ensures HasStart(Absorb(bs, t, interval), WindowStart(x.ts, interval))
    {
      AbsorbStarts(bs, t, interval, WindowStart(x.ts, interval));
    }
  }

  lemma InWindowSnoc(ts: seq<Tick>, t: Tick, start: int, interval: int)
    requires interval > 0
    ensures InWindow(ts + [t], start, interval) ==
            if WindowStart(t.ts, interval) == start then InWindow(ts, start, interval) + [t]
            else InWindow(ts, start, interval)
  {
    assert (ts + [t])[..|ts|] == ts;
  }

  /** A window that no bucket stands for holds no tick yet. */
  lemma NewWindowEmpty(bs: seq<Bucket>, ts: seq<Tick>, start: int, interval: int)
    requires interval > 0 && Covers(bs, ts, interval) && !HasStart(bs, start)
    ensures InWindow(ts, start, interval) == []
  {
    hide InWindow, WindowStart;
    forall x | x in ts
      ensures WindowStart(x.ts, interval) != start
    {
      assert HasStart(bs, WindowStart(x.ts, interval));
    }
    InWindowNone(ts, start, interval);
  }

  lemma NoLaterStart(bs: seq<Bucket>, start: int)
    requires Rising(bs) && (bs != [] ==> bs[|bs| - 1].start < start)
    ensures !HasStart(bs, start)
  {
  }

  /** Absorbing the next tick keeps every bucket exact. */
  lemma {:induction false} AbsorbExact(bs: seq<Bucket>, ts: seq<Tick>, t: Tick, interval: int)
    requires interval > 0 && IsBatch(bs, ts, interval)
    requires bs != [] ==> bs[|bs| - 1].start <= WindowStart(t.ts, interval)
    ensures Exact(Absorb(bs, t, interval), ts + [t], interval)
  {
    hide Summarises, InWindow, WindowStart, UpdateBucket, OpenBucket, Covers, Rising, HasStart;
    var cs, start := Absorb(bs, t, interval), WindowStart(t.ts, interval);
    StartsKept(start, t);
    if bs == [] || bs[|bs| - 1].start < start {
      assert [] + [t] == [t];
      NoLaterStart(bs, start);
      NewWindowEmpty(bs, ts, start, interval);
      OpenSummarises(start, t);
    } else {
      StartsUpdated(bs[|bs| - 1], t);
      UpdateSummarises(bs[|bs| - 1], InWindow(ts, start, interval), t);
    }
    BoundOlder(bs, start);
    forall i | 0 <= i < |cs|
      ensures Summarises(cs[i], InWindow(ts + [t], cs[i].start, interval))
    {
      InWindowSnoc(ts, t, cs[i].start, interval);
    }
  }

  lemma StartsKept(start: int, t: Tick)
    ensures OpenBucket(start, t).start == start
  {
  }

  lemma StartsUpdated(b: Bucket, t: Tick)
    ensures UpdateBucket(b, t).start == b.start
  {
  }

  lemma BoundOlder(bs: seq<Bucket>, start: int)
    requires Rising(bs) && (bs != [] ==> bs[|bs| - 1].start <= start)
    ensures forall i :: 0 <= i < |bs| - 1 ==> bs[i].start < start
  {
  }

  lemma AbsorbRising(bs: seq<Bucket>, t: Tick, interval: int)
    requires interval > 0 && Rising(bs)
    requires bs != [] ==> bs[|bs| - 1].start <= WindowStart(t.ts, interval)
    ensures Rising(Absorb(bs, t, interval))
  {
    var cs := Absorb(bs, t, interval);
    forall i, j | 0 <= i < j < |cs|
      ensures cs[i].start < cs[j].start
    {
      assert cs[i].start == bs[i].start;
    }
  }

  lemma AbsorbBatch(bs: seq<Bucket>, ts: seq<Tick>, t: Tick, interval: int)
    requires interval > 0 && IsBatch(bs, ts, interval)
    requires forall x :: x in ts ==> x.ts <= t.ts
    ensures IsBatch(Absorb(bs, t, interval), ts + [t], interval)
  {
    if bs != [] {
      LastStartOld(bs, ts, t, interval);
    }
    AbsorbRising(bs, t, interval);
    AbsorbCovers(bs, ts, t, interval);
    AbsorbExact(bs, ts, t, interval);
  }

  /** On a time-sorted tape the running fold is the batch bucketing. */
  lemma {:induction false} FoldIsBatch(ts: seq<Tick>, interval: int)
    requires interval > 0 && Sorted(ts)
    ensures IsBatch(Fold(ts, interval), ts, interval)
  {
    if ts != [] {
      hide Fold, Absorb, IsBatch, Sorted;
      var init, t := ts[..|ts| - 1], ts[|ts| - 1];
      SortedInit(ts);
      FoldIsBatch(init, interval);
      FoldSnoc(init, t, interval);
      AbsorbBatch(Fold(init, interval), init, t, interval);
      assert ts == init + [t];
    }
  }

  /** The newest bucket of a fold is the one that holds the last tick. */
  lemma FoldLastStart(ts: seq<Tick>, interval: int)
    requires interval > 0 && ts != []
    ensures var bs := Fold(ts, interval);
            bs[|bs| - 1].start == WindowStart(ts[|ts| - 1].ts, interval)
  {
  }
}
