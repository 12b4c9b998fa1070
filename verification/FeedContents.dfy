/** What is in the candles of a feed, in every run: late ticks and interval switches included. */
module FeedContents {
  import opened Options
  import opened Candles
  import opened TapeSort
  import opened BatchFold
  import opened Feed
  import opened FeedRuns

  /** The bucket is the OHLCV of exactly these ticks, and they all lie in its window. */
  ghost predicate Holding(b: Bucket, end: int, ticks: seq<Tick>) {
    Summarises(b, ticks) && forall t :: t in ticks ==> b.start <= t.ts < end
  }

  /** The candles were made, one after the other, from separate stretches of the ticks: each is
      the OHLCV of its own stretch, all of which lies in its window. */
  ghost predicate MadeFrom(ticks: seq<Tick>, closed: seq<Candle>)
    decreases |closed|, 1
  {
    closed == [] || exists i, j :: MadeAt(ticks, closed, i, j)
  }

  /** The last candle was made from the stretch from i to j, the others from what is before it. */
  ghost predicate MadeAt(ticks: seq<Tick>, closed: seq<Candle>, i: int, j: int)
    requires closed != []
    decreases |closed|, 0
  {
    var c := closed[|closed| - 1];
    0 <= i <= j <= |ticks| && Holding(FromCandle(c), c.tsMs, ticks[i..j]) &&
        MadeFrom(ticks[..i], closed[..|closed| - 1])
  }

  /** The first k absorbed ticks made the closed candles; the open bucket holds all that came
      after them. */
  ghost predicate SplitAt(b: Book, k: int)
    requires b.feed.interval > 0
  {
    && 0 <= k <= |b.absorbed|
    && MadeFrom(b.absorbed[..k], b.closed)
    && (b.feed.current.Some? ==>
          Holding(b.feed.current.value, b.feed.current.value.start + b.feed.interval, b.absorbed[k..]))
  }

  lemma MadeFromMore(ticks: seq<Tick>, more: seq<Tick>, closed: seq<Candle>)
    requires MadeFrom(ticks, closed)
    ensures MadeFrom(ticks + more, closed)
  {
    if closed != [] {
      var i, j :| MadeAt(ticks, closed, i, j);
      assert (ticks + more)[i..j] == ticks[i..j] && (ticks + more)[..i] == ticks[..i];
      assert MadeAt(ticks + more, closed, i, j);
    }
  }

  lemma MadeFromAll(ticks: seq<Tick>, k: int, closed: seq<Candle>)
    requires 0 <= k <= |ticks| && MadeFrom(ticks[..k], closed)
    ensures MadeFrom(ticks[..|ticks|], closed)
  {
    MadeFromMore(ticks[..k], ticks[k..], closed);
    assert ticks[..k] + ticks[k..] == ticks && ticks[..|ticks|] == ticks;
  }

  lemma OpenHolds(b: Book, k: int, into: Bucket) returns (n: int)
    requires b.feed.interval > 0 && SplitAt(b, k) && b.feed.current.None? && b.feed.pending != []
    requires into == OpenBucket(WindowStart(b.feed.pending[0].ts, b.feed.interval), b.feed.pending[0])
    ensures SplitAt(TakeHead(b, into), n)
  {
    hide Summarises, MadeFrom;
    var t := b.feed.pending[0];
    n := |b.absorbed|;
    MadeFromAll(b.absorbed, k, b.closed);
    OpenSummarises(into.start, t);
    assert (b.absorbed + [t])[n..] == [t] && (b.absorbed + [t])[..n] == b.absorbed[..n];
  }

  lemma UpdateHolds(b: Book, k: int)
    requires b.feed.interval > 0 && SplitAt(b, k) && b.feed.current.Some? && b.feed.pending != []
    requires WindowStart(b.feed.pending[0].ts, b.feed.interval) == b.feed.current.value.start
    ensures SplitAt(TakeHead(b, UpdateBucket(b.feed.current.value, b.feed.pending[0])), k)
  {
    hide Summarises, MadeFrom;
    var t, c := b.feed.pending[0], b.feed.current.value;
    UpdateSummarises(c, b.absorbed[k..], t);
    assert (b.absorbed + [t])[k..] == b.absorbed[k..] + [t] && (b.absorbed + [t])[..k] == b.absorbed[..k];
  }

  lemma CloseHolds(b: Book, k: int) returns (n: int)
    requires b.feed.interval > 0 && SplitAt(b, k) && b.feed.current.Some?
    ensures SplitAt(CloseCurrent(b, b.feed.current.value), n)
  {
    hide Summarises;
    var c := b.feed.current.value;
    var candle := ToCandle(c, true, b.feed.interval);
    n := |b.absorbed|;
    assert FromCandle(candle) == c;
    var closed, all := b.closed + [candle], b.absorbed[..n];
    assert closed[..|closed| - 1] == b.closed && all[k..n] == b.absorbed[k..] && all[..k] == b.absorbed[..k];
    assert MadeAt(all, closed, k, n);
  }

  lemma {:induction false} FlushStepSplits(b: Book, w: int, k: int) returns (n: int)
    requires b.feed.interval > 0 && SplitAt(b, k) && !Stalled(b.feed, w)
    ensures SplitAt(FlushStep(b, w), n)
  {
    hide SplitAt;
    var t := b.feed.pending[0];
    var start := WindowStart(t.ts, b.feed.interval);
    n := k;
    if TooLate(b.feed, start) {
      DropSplits(b, k);
    } else if b.feed.current.None? {
      n := OpenHolds(b, k, OpenBucket(start, t));
    } else if start == b.feed.current.value.start {
      UpdateHolds(b, k);
    } else if start < b.feed.current.value.start {
      DropSplits(b, k);
    } else {
      n := CloseHolds(b, k);
    }
  }

  lemma DropSplits(b: Book, k: int)
    requires b.feed.interval > 0 && SplitAt(b, k) && b.feed.pending != []
    ensures SplitAt(DropHead(b), k)
  {
    hide MadeFrom, Holding;
  }

  lemma {:induction false} FlushSplits(b: Book, w: int, k: int) returns (n: int)
    requires b.feed.interval > 0 && SplitAt(b, k)
    ensures Flush(b, w).feed.interval > 0 && SplitAt(Flush(b, w), n)
    decreases |b.feed.pending|, if b.feed.current.Some? then 1 else 0
  {
    hide SplitAt;
    if Stalled(b.feed, w) {
      n := k;
    } else {
      var m := FlushStepSplits(b, w, k);
      n := FlushSplits(FlushStep(b, w), w, m);
    }
  }

  lemma {:induction false} ApplySplits(b: Book, e: Event, k: int) returns (n: int)
    requires b.feed.interval > 0 && SplitAt(b, k)
    ensures Apply(b, e).feed.interval > 0 && SplitAt(Apply(b, e), n)
  {
    hide MadeFrom, Holding, Flush, StableSort;
    n := k;
    if e.Tape? && !Rejected(b.feed, e.arrival) {
      var a := Admit(b, e.arrival);
      n := FlushSplits(a, Watermark(a.feed), k);
    }
  }

  /** In every run, whatever arrives late and whenever the interval is switched, the ticks that
      went into buckets split into consecutive stretches: every closed candle is the OHLCV of its
      own stretch, in order, and the open bucket of the last one. With the counts, the ticks of
      no stretch are exactly those of buckets that a switch threw away. */
  lemma {:induction false} CandlesHoldTheirTicks(interval: int, reorder: int, maxHistory: nat, events: seq<Event>)
    returns (k: int)
    requires interval > 0
    ensures var b := Play(Fresh(interval, reorder, maxHistory), events);
            && b.feed.interval > 0 && SplitAt(b, k)
            && |b.absorbed| == SumCounts(b.closed) + CountOf(b.feed.current) + b.lost
    decreases |events|
  {
    hide SplitAt, Apply;
    FreshSplits(interval, reorder, maxHistory);
    AbsorbedCount(interval, reorder, maxHistory, events);
    if events == [] {
      k := 0;
    } else {
      var init := events[..|events| - 1];
      var m := CandlesHoldTheirTicks(interval, reorder, maxHistory, init);
      k := ApplySplits(Play(Fresh(interval, reorder, maxHistory), init), events[|events| - 1], m);
    }
  }

  lemma AbsorbedCount(interval: int, reorder: int, maxHistory: nat, events: seq<Event>)
    requires interval > 0
    ensures var b := Play(Fresh(interval, reorder, maxHistory), events);
            |b.absorbed| == SumCounts(b.closed) + CountOf(b.feed.current) + b.lost
  {
    hide Play;
    FreshCoherent(interval, reorder, maxHistory);
    PlayCoherent(Fresh(interval, reorder, maxHistory), events);
  }

  lemma FreshSplits(interval: int, reorder: int, maxHistory: nat)
    requires interval > 0
    ensures SplitAt(Fresh(interval, reorder, maxHistory), 0)
  {
  }
}
