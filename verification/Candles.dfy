/** Ticks, buckets and candles of the aggregation engine, and what a bucket means. */
module Candles {
  import opened Options
  import opened Reals

  /** One accepted print: server time in milliseconds, price, traded volume if known. */
  datatype Tick = Tick(ts: int, price: real, volume: Option<real>)

  /** The contents of one OHLCV window. */
  datatype Bucket = Bucket(
    start: int, open: real, high: real, low: real, close: real,
    count: nat, volume: Option<real>, first: int, last: int)

  /** A closed or forming candle; tsMs is the exclusive end of its window. */
  datatype Candle = Candle(
    time: int, open: real, high: real, low: real, close: real, closed: bool,
    tsUtc: int, tsMs: int, count: nat, volume: Option<real>,
    first: Option<int>, last: Option<int>)

  function MaxInt(x: int, y: int): int { if x >= y then x else y }

  /** ts is the left edge of a window of the given width. */
  predicate Aligned(ts: int, interval: int)
    requires interval > 0
  {
    (ts / interval) * interval == ts
  }

  /** Left edge of the window that holds ts. */
  function WindowStart(ts: int, interval: int): (r: int)
    requires interval > 0
    ensures r <= ts < r + interval
    ensures Aligned(r, interval)
  {
    QuotientUnique((ts / interval) * interval, ts / interval, interval);
    (ts / interval) * interval
  }

  lemma ScaleMonotone(a: int, b: int, interval: int)
    requires interval > 0 && a <= b
    ensures a * interval <= b * interval
  {
  }

  lemma QuotientUnique(x: int, q: int, interval: int)
    requires interval > 0 && q * interval <= x < q * interval + interval
    ensures x / interval == q
  {
    var k := x / interval;
    if k < q {
      ScaleMonotone(k + 1, q, interval);
    } else if k > q {
      ScaleMonotone(q + 1, k, interval);
    }
  }

  /** Two aligned starts that differ are at least one window apart. */
  lemma {:induction false} AlignedGap(a: int, b: int, interval: int)
    requires interval > 0 && Aligned(a, interval) && Aligned(b, interval) && a < b
    ensures a + interval <= b
  {
    var p, q := a / interval, b / interval;
    if q <= p {
      ScaleMonotone(q, p, interval);
    } else {
      ScaleMonotone(p + 1, q, interval);
    }
  }

  function AddVolume(acc: Option<real>, v: Option<real>): Option<real> {
    if v.None? then acc
    else Some((if acc.Some? then acc.value else 0.0) + v.value)
  }

  function OpenBucket(start: int, t: Tick): Bucket {
    Bucket(start, t.price, t.price, t.price, t.price, 1, t.volume, t.ts, t.ts)
  }

  function UpdateBucket(b: Bucket, t: Tick): Bucket {
    b.(high := Max(b.high, t.price), low := Min(b.low, t.price), close := t.price,
       count := b.count + 1, last := t.ts, volume := AddVolume(b.volume, t.volume))
  }

  function ToCandle(b: Bucket, closed: bool, interval: int): Candle {
    Candle(b.start, b.open, b.high, b.low, b.close, closed, b.start / 1000,
           b.start + interval, b.count, b.volume, Some(b.first), Some(b.last))
  }

  /** The bucket a candle was made from. */
  function FromCandle(c: Candle): Bucket {
    Bucket(c.time, c.open, c.high, c.low, c.close, c.count, c.volume,
           if c.first.Some? then c.first.value else 0, if c.last.Some? then c.last.value else 0)
  }

  // ---- What a bucket means, stated without running it ----

  /** Total of the volumes that are known; None when none is. */
  function TotalVolume(ts: seq<Tick>): Option<real> {
    if ts == [] then None
    else AddVolume(TotalVolume(ts[..|ts| - 1]), ts[|ts| - 1].volume)
  }

  /** The known volumes added up. */
  function KnownVolume(ts: seq<Tick>): real {
    if ts == [] then 0.0 else (if ts[0].volume.Some? then ts[0].volume.value else 0.0) + KnownVolume(ts[1..])
  }

  lemma {:induction false} KnownVolumeLast(ts: seq<Tick>, t: Tick)
    ensures KnownVolume(ts + [t]) == KnownVolume(ts) + if t.volume.Some? then t.volume.value else 0.0
  {
    if ts == [] {
      assert ts + [t] == [t] && [t][1..] == [];
    } else {
      assert (ts + [t])[1..] == ts[1..] + [t];
      KnownVolumeLast(ts[1..], t);
    }
  }

  /** The volume of a window is missing if and only if that of each of its ticks is, and otherwise
      the sum of those that are known. */
  lemma {:induction false} VolumeIsSum(ts: seq<Tick>)
    ensures TotalVolume(ts).None? <==> forall i :: 0 <= i < |ts| ==> ts[i].volume.None?
    ensures TotalVolume(ts).Some? ==> TotalVolume(ts).value == KnownVolume(ts)
    ensures TotalVolume(ts).None? ==> KnownVolume(ts) == 0.0
  {
    if ts != [] {
      var init, t := ts[..|ts| - 1], ts[|ts| - 1];
      VolumeIsSum(init);
      KnownVolumeLast(init, t);
      assert ts == init + [t];
    }
  }

  /** b is the OHLCV summary of the ticks ts, taken in that order. */
  ghost predicate Summarises(b: Bucket, ts: seq<Tick>) {
    && ts != []
    && b.open == ts[0].price
    && b.close == ts[|ts| - 1].price
    && (forall t :: t in ts ==> b.low <= t.price <= b.high)
    && (exists t :: t in ts && t.price == b.high)
    && (exists t :: t in ts && t.price == b.low)
    && b.count == |ts|
    && b.volume == TotalVolume(ts)
    && b.first == ts[0].ts
    && b.last == ts[|ts| - 1].ts
  }

  /** Those ticks of the tape that fall in the window starting at start. */
  function InWindow(ts: seq<Tick>, start: int, interval: int): seq<Tick>
    requires interval > 0
  {
    if ts == [] then []
    else
      var rest := InWindow(ts[..|ts| - 1], start, interval);
      var t := ts[|ts| - 1];
      if WindowStart(t.ts, interval) == start then rest + [t] else rest
  }

  ghost predicate Rising(bs: seq<Bucket>) {
    forall i, j :: 0 <= i < j < |bs| ==> bs[i].start < bs[j].start
  }

  ghost predicate HasStart(bs: seq<Bucket>, start: int) {
    exists i :: 0 <= i < |bs| && bs[i].start == start
  }

  /** Every tick has a bucket. */
  ghost predicate Covers(bs: seq<Bucket>, ts: seq<Tick>, interval: int)
    requires interval > 0
  {
    forall t :: t in ts ==> HasStart(bs, WindowStart(t.ts, interval))
  }

  /** Every bucket is the summary of exactly the ticks of its window. */
  ghost predicate Exact(bs: seq<Bucket>, ts: seq<Tick>, interval: int)
    requires interval > 0
  {
    forall i :: 0 <= i < |bs| ==> Summarises(bs[i], InWindow(ts, bs[i].start, interval))
  }

  /** bs is the batch bucketing of the tape: one bucket per non-empty window,
      in time order, each the summary of exactly the ticks of that window. */
  ghost predicate IsBatch(bs: seq<Bucket>, ts: seq<Tick>, interval: int)
    requires interval > 0
  {
    Rising(bs) && Covers(bs, ts, interval) && Exact(bs, ts, interval)
  }

  lemma InWindowMember(ts: seq<Tick>, start: int, interval: int, t: Tick)
    requires interval > 0
    ensures t in InWindow(ts, start, interval) <==> t in ts && WindowStart(t.ts, interval) == start
  {
    if ts != [] {
      InWindowMember(ts[..|ts| - 1], start, interval, t);
      assert ts == ts[..|ts| - 1] + [ts[|ts| - 1]];
    }
  }

  lemma {:induction false} InWindowAppend(a: seq<Tick>, b: seq<Tick>, start: int, interval: int)
    requires interval > 0
    ensures InWindow(a + b, start, interval) == InWindow(a, start, interval) + InWindow(b, start, interval)
  {
    if b == [] {
      assert a + b == a;
    } else {
      InWindowAppend(a, b[..|b| - 1], start, interval);
      assert (a + b)[..|a + b| - 1] == a + b[..|b| - 1];
    }
  }

  lemma InWindowNone(ts: seq<Tick>, start: int, interval: int)
    requires interval > 0
    requires forall t :: t in ts ==> WindowStart(t.ts, interval) != start
    ensures InWindow(ts, start, interval) == []
  {
    if InWindow(ts, start, interval) != [] {
      InWindowMember(ts, start, interval, InWindow(ts, start, interval)[0]);
    }
  }

  lemma SummaryUnique(b: Bucket, c: Bucket, ts: seq<Tick>)
    requires Summarises(b, ts) && Summarises(c, ts) && b.start == c.start
    ensures b == c
  {
    assert b.high == c.high;
    assert b.low == c.low;
  }

  /** A batch bucketing is determined by its tape. */
  lemma {:induction false} BatchUnique(bs: seq<Bucket>, cs: seq<Bucket>, ts: seq<Tick>, interval: int)
    requires interval > 0
    requires IsBatch(bs, ts, interval) && IsBatch(cs, ts, interval)
    ensures bs == cs
  {
    StartsCovered(bs, cs, ts, interval);
    StartsCovered(cs, bs, ts, interval);
    SortedStartsEqual(bs, cs);
    forall i | 0 <= i < |bs|
      ensures bs[i] == cs[i]
    {
      SummaryUnique(bs[i], cs[i], InWindow(ts, bs[i].start, interval));
    }
  }

  lemma StartsCovered(bs: seq<Bucket>, cs: seq<Bucket>, ts: seq<Tick>, interval: int)
    requires interval > 0
    requires IsBatch(bs, ts, interval) && IsBatch(cs, ts, interval)
    ensures StartsWithin(bs, cs)
  {
    forall i | 0 <= i < |bs|
      ensures HasStart(cs, bs[i].start)
    {
      var t := InWindow(ts, bs[i].start, interval)[0];
      InWindowMember(ts, bs[i].start, interval, t);
    }
  }

  ghost predicate StartsWithin(bs: seq<Bucket>, cs: seq<Bucket>) {
    forall i :: 0 <= i < |bs| ==> HasStart(cs, bs[i].start)
  }

  lemma DropLastStart(bs: seq<Bucket>, cs: seq<Bucket>)
    requires Rising(bs) && Rising(cs) && StartsWithin(bs, cs) && bs != [] && cs != []
    requires bs[|bs| - 1].start == cs[|cs| - 1].start
    ensures StartsWithin(bs[..|bs| - 1], cs[..|cs| - 1])
  {
    var b0, c0 := bs[..|bs| - 1], cs[..|cs| - 1];
    forall i | 0 <= i < |b0|
      ensures HasStart(c0, b0[i].start)
    {
      assert HasStart(cs, bs[i].start);
      var j :| 0 <= j < |cs| && cs[j].start == bs[i].start;
      assert c0[j].start == bs[i].start;
    }
  }

  lemma LastStartBound(bs: seq<Bucket>, cs: seq<Bucket>)
    requires Rising(cs) && StartsWithin(bs, cs) && bs != []
    ensures cs != [] && bs[|bs| - 1].start <= cs[|cs| - 1].start
  {
    assert HasStart(cs, bs[|bs| - 1].start);
  }

  ghost predicate SameStarts(bs: seq<Bucket>, cs: seq<Bucket>) {
    |bs| == |cs| && forall i :: 0 <= i < |bs| ==> bs[i].start == cs[i].start
  }

  lemma {:induction false} SortedStartsEqual(bs: seq<Bucket>, cs: seq<Bucket>)
    requires Rising(bs) && Rising(cs) && StartsWithin(bs, cs) && StartsWithin(cs, bs)
    ensures SameStarts(bs, cs)
  {
    if bs != [] {
      LastStartBound(bs, cs);
      LastStartBound(cs, bs);
      DropLastStart(bs, cs);
      DropLastStart(cs, bs);
      var b0, c0 := bs[..|bs| - 1], cs[..|cs| - 1];
      SortedStartsEqual(b0, c0);
      forall i | 0 <= i < |bs|
        ensures bs[i].start == cs[i].start
      {
        if i < |b0| {
          assert b0[i].start == c0[i].start;
        }
      }
    } else if cs != [] {
      LastStartBound(cs, bs);
    }
  }
}
