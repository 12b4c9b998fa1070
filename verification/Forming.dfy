/** The forming candle: the newest window as a viewer sees it before it closes. */
module Forming {
  import opened Options
  import opened Reals
  import opened Candles
  import opened TapeSort
  import opened BatchFold
  import opened Feed
  import opened FeedRuns

  /** Run ticks into an open bucket. */
  function UpdateAll(b: Bucket, ts: seq<Tick>): (r: Bucket)
    ensures r.count == b.count + |ts| && r.start == b.start && r.open == b.open && r.first == b.first
  {
    if ts == [] then b else UpdateBucket(UpdateAll(b, ts[..|ts| - 1]), ts[|ts| - 1])
  }

  /** The open bucket as the preview sees it: one row at its opening price. */
  function OpeningRow(c: Bucket): Tick {
    Tick(if c.first != 0 then c.first else c.start, c.open, c.volume)
  }

  /** Rows of the oldest pending window, led by the open bucket when it is the same window. */
  function PreviewRows(f: FeedState): (rows: seq<Tick>)
    requires f.interval > 0 && f.pending != []
    ensures rows != []
  {
    var start := WindowStart(f.pending[0].ts, f.interval);
    var rows := InWindow(f.pending, start, f.interval);
    InWindowMember(f.pending, start, f.interval, f.pending[0]);
    if f.current.Some? && f.current.value.start == start then [OpeningRow(f.current.value)] + rows else rows
  }

  function Preview(f: FeedState): Option<Bucket>
    requires f.interval > 0
  {
    if f.pending == [] then None
    else
      var start := WindowStart(f.pending[0].ts, f.interval);
      var rows := PreviewRows(f);
      Some(UpdateAll(OpenBucket(start, rows[0]), rows[1..]))
  }

  /** Show a candle with the held price as its close. */
  function HoldRender(f: FeedState, c: Candle): Candle {
    if f.lastPrice.None? then c else c.(close := f.lastPrice.value, closed := false)
  }

  function HeldCandle(price: real, at: int, interval: int): Candle
    requires interval > 0
  {
    var start := WindowStart(at, interval);
    Candle(start, price, price, price, price, false, start / 1000, start + interval, 0, None, None, None)
  }

  function FormingCandle(f: FeedState): Option<Candle>
    requires f.interval > 0
  {
    var p := Preview(f);
    if p.Some? && (f.current.None? || p.value.start >= f.current.value.start) then
      Some(HoldRender(f, ToCandle(p.value, false, f.interval)))
    else if f.current.None? then
      if f.lastPrice.None? || f.lastAt.None? then None
      else Some(HeldCandle(f.lastPrice.value, f.lastAt.value, f.interval))
    else Some(HoldRender(f, ToCandle(f.current.value, false, f.interval)))
  }

  /** The held price: once anything was accepted there is always a forming candle, on the
      grid of the current interval, and its close is the newest accepted price. */
  lemma {:induction false} FormingHoldsLastPrice(b: Book)
    requires Coherent(b)
    ensures b.accepted == [] <==> FormingCandle(b.feed).None?
    ensures b.accepted != [] ==>
              var c := FormingCandle(b.feed).value;
              && c.close == b.accepted[|b.accepted| - 1].price
              && !c.closed && c.tsMs == c.time + b.feed.interval && Aligned(c.time, b.feed.interval)
  {
    if b.accepted == [] {
      assert multiset(b.accepted) == multiset{};
      assert |multiset(b.feed.pending)| == 0 && |multiset(b.absorbed)| == 0;
    }
  }

  lemma {:induction false} UpdateAllSummarises(start: int, t: Tick, rest: seq<Tick>)
    ensures Summarises(UpdateAll(OpenBucket(start, t), rest), [t] + rest)
  {
    if rest == [] {
      OpenSummarises(start, t);
      assert [t] + rest == [t];
    } else {
      var init, last := rest[..|rest| - 1], rest[|rest| - 1];
      UpdateAllSummarises(start, t, init);
      UpdateSummarises(UpdateAll(OpenBucket(start, t), init), [t] + init, last);
      assert [t] + init + [last] == [t] + rest;
    }
  }

  /** A candle that shows a bucket, closing at the given price. */
  ghost predicate Shows(c: Candle, p: Bucket, interval: int, close: real) {
    c == Candle(p.start, p.open, p.high, p.low, close, false, p.start / 1000, p.start + interval, p.count, p.volume,
                Some(p.first), Some(p.last))
  }

  /** A candle of one held price. */
  ghost predicate ShowsHeld(c: Candle, start: int, interval: int, price: real) {
    c == Candle(start, price, price, price, price, false, start / 1000, start + interval, 0, None, None, None)
  }

  /** The oldest pending tick is of a later window than the open one, if there is one. */
  ghost predicate Ahead(f: FeedState)
    requires f.interval > 0
  {
    f.pending != [] && (f.current.None? || WindowStart(f.pending[0].ts, f.interval) > f.current.value.start)
  }

  /** Which window the forming candle is of, and what of it: pending ticks of a later window than
      the open one, or of any when none is open, show as the OHLCV of exactly the oldest such
      window; without pending ticks, or with older ones only, the open bucket shows; and when
      there is neither, the held price alone, in the window of the newest accepted tick. */
  lemma {:induction false} FormingShows(b: Book)
    requires Coherent(b) && b.accepted != []
    ensures var f, last := b.feed, b.accepted[|b.accepted| - 1];
            var c := FormingCandle(f);
            c.Some? &&
            if Ahead(f) then
              var start := WindowStart(f.pending[0].ts, f.interval);
              exists p: Bucket :: p.start == start && Summarises(p, InWindow(f.pending, start, f.interval)) &&
                Shows(c.value, p, f.interval, last.price)
            else if f.current.None? then ShowsHeld(c.value, WindowStart(last.ts, f.interval), f.interval, last.price)
            else f.pending == [] || WindowStart(f.pending[0].ts, f.interval) < f.current.value.start ==>
              Shows(c.value, f.current.value, f.interval, last.price)
  {
    hide InWindow, UpdateAll, Summarises;
    var f := b.feed;
    FormingHoldsLastPrice(b);
    if Ahead(f) {
      var start := WindowStart(f.pending[0].ts, f.interval);
      var rows := InWindow(f.pending, start, f.interval);
      InWindowMember(f.pending, start, f.interval, f.pending[0]);
      assert PreviewRows(f) == rows && rows == [rows[0]] + rows[1..];
      UpdateAllSummarises(start, rows[0], rows[1..]);
      var p := UpdateAll(OpenBucket(start, rows[0]), rows[1..]);
      assert Preview(f) == Some(p);
    }
  }

  lemma SplitHead(t: Tick, rows: seq<Tick>)
    ensures ([t] + rows)[0] == t && ([t] + rows)[1..] == rows
  {
  }

  /** Highest and lowest of a price and the prices of some ticks. */
  function Peak(price: real, ts: seq<Tick>): real {
    if ts == [] then price else Max(Peak(price, ts[..|ts| - 1]), ts[|ts| - 1].price)
  }

  function Dip(price: real, ts: seq<Tick>): real {
    if ts == [] then price else Min(Dip(price, ts[..|ts| - 1]), ts[|ts| - 1].price)
  }

  /** Two buckets that start from the same price stay apart in nothing but their range and count. */
  lemma {:induction false} UpdateAllApart(b: Bucket, c: Bucket, ts: seq<Tick>)
    requires c == b.(high := b.open, low := b.open, close := b.open, last := b.first, count := 1)
    requires ts != [] && b.low <= b.open <= b.high
    ensures var high, low := Peak(b.open, ts), Dip(b.open, ts);
            var all := UpdateAll(b, ts);
            && UpdateAll(c, ts) == all.(high := high, low := low, count := 1 + |ts|)
            && all.high == Max(b.high, high) && all.low == Min(b.low, low)
  {
    if |ts| > 1 {
      UpdateAllApart(b, c, ts[..|ts| - 1]);
    } else {
      assert ts[..0] == [];
    }
  }

  /** The open bucket merged with its pending ticks, as a viewer should see it. */
  function Merged(f: FeedState, rows: seq<Tick>): Candle
    requires f.current.Some?
  {
    HoldRender(f, ToCandle(UpdateAll(f.current.value, rows), false, f.interval))
  }

  /** Pending ticks of the open window are merged without loss exactly when the open bucket
      holds a single tick. Of any other the preview carries over the opening price alone: its
      ticks count as one, and a price they reached shows only if a pending tick reaches it too. */
  lemma {:induction false} FormingMergesIffSingle(b: Book)
    requires Coherent(b) && b.feed.current.Some? && b.feed.pending != []
    requires WindowStart(b.feed.pending[0].ts, b.feed.interval) == b.feed.current.value.start
    ensures var c, cur := FormingCandle(b.feed), b.feed.current.value;
            var rows := InWindow(b.feed.pending, cur.start, b.feed.interval);
            var merged, high, low := Merged(b.feed, rows), Peak(cur.open, rows), Dip(cur.open, rows);
            && c == Some(merged.(count := 1 + |rows|, high := high, low := low))
            && merged.count == cur.count + |rows|
            && (c == Some(merged) <==> cur.count == 1)
            && (high == merged.high <==> cur.high <= high)
            && (low == merged.low <==> low <= cur.low)
  {
    var cur := b.feed.current.value;
    var rows := InWindow(b.feed.pending, cur.start, b.feed.interval);
    SplitHead(OpeningRow(cur), rows);
    InWindowMember(b.feed.pending, cur.start, b.feed.interval, b.feed.pending[0]);
    UpdateAllApart(cur, OpenBucket(cur.start, OpeningRow(cur)), rows);
  }

  // ---- A run that gets there ----

  /** Prints at 1, 2 and 6 seconds: the first two reach the open window, the third is held back. */
  function Early(): Print {
    Print(Tick(1000, 1.0, None), Quote("1", "", ""))
  }

  function Top(): Print {
    Print(Tick(2000, 3.0, None), Quote("3", "", ""))
  }

  function Late(): Print {
    Print(Tick(6000, 2.0, None), Quote("2", "", ""))
  }

  /** Too early for any tick to leave the buffer. */
  lemma PushWaits(b: Book, p: Print)
    requires b.feed.interval > 0 && !Rejected(b.feed, p) && Sorted(b.feed.pending)
    requires forall t :: t in b.feed.pending ==> t.ts <= p.tick.ts
    requires b.feed.maxSeen.Some? ==> b.feed.maxSeen.value <= p.tick.ts
    ensures var a := Admit(b, p);
            && a.feed.pending == b.feed.pending + [p.tick] && a.feed.maxSeen == Some(p.tick.ts)
            && (a.feed.pending[0].ts > Watermark(a.feed) ==> Push(b, p) == Hold(a, p.tick))
  {
    SortAppend(b.feed.pending, p.tick);
    SortOfSorted(b.feed.pending);
  }

  lemma TwoPrints()
    ensures var b := Push(Push(Fresh(20_000, 3000, 500), Early()), Top());
            && b.feed.pending == [Early().tick, Top().tick] && b.feed.current == None
            && b.feed.interval == 20_000 && b.feed.reorder == 3000
            && b.feed.maxSeen == Some(2000) && b.feed.finalizedBefore == None
            && b.feed.seenKeys == [KeyOf(Early()), KeyOf(Top())]
  {
    hide Push;
    var b := Fresh(20_000, 3000, 500);
    PushWaits(b, Early());
    PushWaits(Push(b, Early()), Top());
  }

  lemma ThirdPrint(b: Book)
    requires b.feed.pending == [Early().tick, Top().tick] && b.feed.current == None
    requires b.feed.interval == 20_000 && b.feed.reorder == 3000
    requires b.feed.maxSeen == Some(2000) && b.feed.finalizedBefore == None
    requires b.feed.seenKeys == [KeyOf(Early()), KeyOf(Top())]
    ensures var f := Push(b, Late()).feed;
            && f.current == Some(Bucket(0, 1.0, 3.0, 1.0, 3.0, 2, None, 1000, 2000))
            && f.pending == [Late().tick] && f.lastPrice == Some(2.0) && f.interval == 20_000
  {
    var a := Admit(b, Late());
    PushWaits(b, Late());
    var one := FlushStep(a, 3000);
    assert one.feed.pending == [Top().tick, Late().tick];
    var two := FlushStep(one, 3000);
    assert two.feed.pending == [Late().tick];
    assert Flush(a, 3000) == Flush(one, 3000) == Flush(two, 3000) == two;
  }

  /** The candle a viewer sees then. */
  function Shown(high: real, count: nat): Candle {
    Candle(0, 1.0, high, 1.0, 2.0, false, 0, 20_000, count, None, Some(1000), Some(6000))
  }

  /** What the viewer loses: the window has traded at 3, and the forming candle's high is 2. */
  lemma FormingLosesHigh()
    ensures var f := Play(Fresh(20_000, 3000, 500), [Tape(Early()), Tape(Top()), Tape(Late())]).feed;
            && f.current.Some? && f.current.value.high == 3.0 && f.current.value.count == 2
            && f.pending == [Late().tick]
            && FormingCandle(f) == Some(Shown(2.0, 2)) && Merged(f, f.pending) == Shown(3.0, 3)
  {
    hide Push, Merged, FormingCandle;
    var start, es := Fresh(20_000, 3000, 500), [Tape(Early()), Tape(Top()), Tape(Late())];
    ThreePlayed(start, es);
    TwoPrints();
    ThirdPrint(Push(Push(start, Early()), Top()));
    ShownThen(Play(start, es).feed);
  }

  lemma ThreePlayed(start: Book, es: seq<Event>)
    requires start.feed.interval > 0 && es == [Tape(Early()), Tape(Top()), Tape(Late())]
    ensures var one := Push(start, Early());
            one.feed.interval > 0 &&
              var two := Push(one, Top());
              two.feed.interval > 0 && Play(start, es) == Push(two, Late())
  {
    hide Push;
    var es2 := es[..2];
    var es1 := es2[..1];
    assert es2 == [Tape(Early()), Tape(Top())] && es1 == [Tape(Early())] && es1[..0] == [];
    assert Play(start, es1[..0]) == start && Play(start, es1) == Push(start, Early());
    assert Play(start, es2) == Push(Push(start, Early()), Top());
  }

  lemma ShownThen(f: FeedState)
    requires f.interval == 20_000 && f.lastPrice == Some(2.0) && f.pending == [Late().tick]
    requires f.current == Some(Bucket(0, 1.0, 3.0, 1.0, 3.0, 2, None, 1000, 2000))
    ensures FormingCandle(f) == Some(Shown(2.0, 2)) && Merged(f, f.pending) == Shown(3.0, 3)
  {
    hide UpdateAll, InWindow, PreviewRows;
    var cur, t := f.current.value, Late().tick;
    OneInWindow(t);
    UpdateOne(cur, t);
    var opening := OpeningRow(cur);
    SplitHead(opening, [t]);
    UpdateOne(OpenBucket(0, opening), t);
    RowsThen(f);
  }

  lemma RowsThen(f: FeedState)
    requires f.interval == 20_000 && f.pending == [Late().tick] && f.current.Some? && f.current.value.start == 0
    ensures PreviewRows(f) == [OpeningRow(f.current.value)] + [Late().tick]
  {
    hide InWindow;
    OneInWindow(Late().tick);
  }

  lemma OneInWindow(t: Tick)
    requires t == Late().tick
    ensures WindowStart(t.ts, 20_000) == 0 && InWindow([t], 0, 20_000) == [t]
  {
    assert [t][..0] == [] && InWindow([], 0, 20_000) == [];
  }

  lemma UpdateOne(b: Bucket, t: Tick)
    ensures UpdateAll(b, [t]) == UpdateBucket(b, t)
  {
    assert [t][..0] == [] && UpdateAll(b, []) == b;
  }
}
