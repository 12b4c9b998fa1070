/** What every run of a feed keeps, whatever arrives and whenever the interval is switched. */
module FeedRuns {
  import opened Options
  import opened Candles
  import opened TapeSort
  import opened Feed
  import opened Collections

  ghost predicate Proper(low: real, open: real, close: real, high: real) {
    low <= open <= high && low <= close <= high
  }

  /** A closed candle: a whole window of its own width, with a sane OHLC. */
  ghost predicate GoodCandle(c: Candle) {
    && c.closed && c.count >= 1 && c.tsMs > c.time
    && 1000 * c.tsUtc <= c.time < 1000 * c.tsUtc + 1000
    && Aligned(c.time, c.tsMs - c.time)
    && Proper(c.low, c.open, c.close, c.high)
  }

  /** The window ends no later than the other begins. */
  ghost predicate Before(c: Candle, d: Candle) { c.tsMs <= d.time }

  ghost predicate GoodClosed(cs: seq<Candle>) {
    && (forall i :: 0 <= i < |cs| ==> GoodCandle(cs[i]))
    && (forall i, j :: 0 <= i < j < |cs| ==> Before(cs[i], cs[j]))
  }

  ghost predicate GoodCurrent(f: FeedState)
    requires f.interval > 0
  {
    f.current.Some? ==>
      var c := f.current.value;
      && c.count >= 1 && Aligned(c.start, f.interval) && Proper(c.low, c.open, c.close, c.high)
      && !TooLate(f, c.start)
      && c.first > 0
      && (c.count == 1 ==> c == OpenBucket(c.start, Tick(c.first, c.open, c.volume)))
  }

  function SumCounts(cs: seq<Candle>): nat {
    if cs == [] then 0 else SumCounts(cs[..|cs| - 1]) + cs[|cs| - 1].count
  }

  ghost predicate LastEnd(b: Book) {
    b.feed.finalizedBefore == if b.closed == [] then None else Some(b.closed[|b.closed| - 1].tsMs)
  }

  /** No tick appears, disappears or is counted twice. */
  ghost predicate Conserved(b: Book) {
    && multiset(b.accepted) == multiset(b.absorbed) + multiset(b.late) + multiset(b.feed.pending)
    && |b.absorbed| == SumCounts(b.closed) + CountOf(b.feed.current) + b.lost
  }

  /** The part of the invariant that the flush loop works on. */
  ghost predicate Sound(b: Book) {
    && b.feed.interval > 0
    && Sorted(b.feed.pending)
    && (forall t :: t in b.feed.pending ==> t.ts > 0)
    && GoodCurrent(b.feed)
    && GoodClosed(b.closed)
    && LastEnd(b)
    && Conserved(b)
    && b.feed.history == Newest(b.closed, b.feed.maxHistory)
  }

  ghost predicate IsNewest(m: Option<int>, ts: seq<Tick>) {
    if m.None? then ts == []
    else (forall t :: t in ts ==> t.ts <= m.value) && exists t :: t in ts && t.ts == m.value
  }

  /** The part that only accepting a print changes. */
  ghost predicate Remembers(b: Book) {
    && b.feed.seenKeys == Newest(b.keys, SEEN_CAP)
    && Distinct(b.feed.seenKeys)
    && IsNewest(b.feed.maxSeen, b.accepted)
    && (forall t :: t in b.accepted ==> t.ts > 0 && t.price > 0.0)
  }

  ghost predicate Holds(b: Book) {
    if b.accepted == [] then b.feed.lastPrice == None && b.feed.lastAt == None
    else
      var t := b.accepted[|b.accepted| - 1];
      b.feed.lastPrice == Some(t.price) && b.feed.lastAt == Some(t.ts)
  }

  // ---- The flush loop ----

  lemma SumCountsSnoc(cs: seq<Candle>, c: Candle)
    ensures SumCounts(cs + [c]) == SumCounts(cs) + c.count
  {
    assert (cs + [c])[..|cs|] == cs;
  }

  lemma HeadOut(s: seq<Tick>)
    requires s != []
    ensures multiset(s) == multiset{s[0]} + multiset(s[1..])
    ensures Sorted(s) ==> Sorted(s[1..])
  {
    assert s == [s[0]] + s[1..];
  }

  lemma DropHeadSound(b: Book)
    requires Sound(b) && b.feed.pending != []
    ensures Sound(DropHead(b))
  {
    HeadOut(b.feed.pending);
  }

  lemma TakeHeadSound(b: Book, into: Bucket)
    requires Sound(b) && b.feed.pending != []
    requires GoodCurrent(b.feed.(current := Some(into)))
    requires into.count == CountOf(b.feed.current) + 1
    ensures Sound(TakeHead(b, into))
  {
    HeadOut(b.feed.pending);
  }

  lemma {:induction false} CloseCurrentSound(b: Book)
    requires Sound(b) && b.feed.current.Some?
    ensures Sound(CloseCurrent(b, b.feed.current.value))
  {
    var candle := ToCandle(b.feed.current.value, true, b.feed.interval);
    SumCountsSnoc(b.closed, candle);
    NewestAppend(b.closed, candle, b.feed.maxHistory);
    GoodClosedSnoc(b.closed, candle);
  }

  lemma GoodClosedSnoc(cs: seq<Candle>, c: Candle)
    requires GoodClosed(cs) && GoodCandle(c)
    requires cs != [] ==> Before(cs[|cs| - 1], c)
    ensures GoodClosed(cs + [c])
  {
    var ds := cs + [c];
    forall i, j | 0 <= i < j < |ds|
      ensures Before(ds[i], ds[j])
    {
      if j == |cs| && i < |cs| - 1 {
        assert Before(cs[i], cs[|cs| - 1]) && GoodCandle(cs[|cs| - 1]);
      }
    }
  }

  lemma FlushStepSound(b: Book, w: int)
    requires Sound(b) && !Stalled(b.feed, w)
    ensures Sound(FlushStep(b, w))
  {
    var t := b.feed.pending[0];
    var start := WindowStart(t.ts, b.feed.interval);
    if TooLate(b.feed, start) || (b.feed.current.Some? && start < b.feed.current.value.start) {
      DropHeadSound(b);
    } else if b.feed.current.None? {
      TakeHeadSound(b, OpenBucket(start, t));
    } else if start == b.feed.current.value.start {
      TakeHeadSound(b, UpdateBucket(b.feed.current.value, t));
    } else {
      CloseCurrentSound(b);
    }
  }

  lemma {:induction false} FlushSound(b: Book, w: int)
    requires Sound(b)
    ensures Sound(Flush(b, w))
    ensures b.closed <= Flush(b, w).closed
    decreases |b.feed.pending|, if b.feed.current.Some? then 1 else 0
  {
    if !Stalled(b.feed, w) {
      FlushStepSound(b, w);
      FlushSound(FlushStep(b, w), w);
    }
  }

  // ---- Accepting a print ----

  lemma {:induction false} AdmitSound(b: Book, p: Print)
    requires Sound(b) && !Rejected(b.feed, p)
    ensures Sound(Admit(b, p))
  {
    var before, after := b.feed.pending + [p.tick], StableSort(b.feed.pending + [p.tick]);
    StableSortSpec(before);
    forall t | t in after
      ensures t.ts > 0
    {
      assert t in multiset(before);
    }
  }

  lemma NewestDistinct<T>(s: seq<T>, x: T, n: nat)
    requires Distinct(s) && x !in s
    ensures Distinct(Newest(s + [x], n))
  {
  }

  lemma {:induction false} AdmitRemembers(b: Book, p: Print)
    requires Remembers(b) && !Rejected(b.feed, p)
    ensures Remembers(Admit(b, p))
  {
    NewestAppend(b.keys, KeyOf(p), SEEN_CAP);
    NewestDistinct(b.feed.seenKeys, KeyOf(p), SEEN_CAP);
    var a := Admit(b, p);
    assert p.tick in a.accepted;
    if b.feed.maxSeen.Some? {
      var t :| t in b.accepted && t.ts == b.feed.maxSeen.value;
      assert t in a.accepted;
      assert a.feed.maxSeen.value == t.ts || a.feed.maxSeen.value == p.tick.ts;
    }
  }

  ghost predicate Coherent(b: Book) {
    Sound(b) && Remembers(b) && Holds(b)
  }

  lemma HoldCoherent(a: Book, b: Book, t: Tick)
    requires Remembers(a) && Sound(b)
    requires b.accepted == a.accepted && b.keys == a.keys
    requires b.feed.seenKeys == a.feed.seenKeys && b.feed.maxSeen == a.feed.maxSeen
    requires a.accepted != [] && a.accepted[|a.accepted| - 1] == t
    ensures Coherent(Hold(b, t))
  {
  }

  lemma {:induction false} PushCoherent(b: Book, p: Print)
    requires Coherent(b)
    ensures Coherent(Push(b, p))
    ensures b.closed <= Push(b, p).closed
  {
    if !Rejected(b.feed, p) {
      var a := Admit(b, p);
      AdmitSound(b, p);
      AdmitRemembers(b, p);
      FlushSound(a, Watermark(a.feed));
      FlushKeepsSettings(a, Watermark(a.feed));
      HoldCoherent(a, Flush(a, Watermark(a.feed)), p.tick);
    }
  }

  lemma SwitchCoherent(b: Book, interval: int)
    requires Coherent(b)
    ensures Coherent(SetInterval(b, interval))
  {
  }

  lemma {:induction false} PlayCoherent(b: Book, events: seq<Event>)
    requires Coherent(b)
    ensures Coherent(Play(b, events))
    ensures b.closed <= Play(b, events).closed
  {
    if events != [] {
      var before, e := Play(b, events[..|events| - 1]), events[|events| - 1];
      PlayCoherent(b, events[..|events| - 1]);
      if e.Tape? {
        PushCoherent(before, e.arrival);
      } else {
        SwitchCoherent(before, e.interval);
      }
    }
  }

  lemma FreshCoherent(interval: int, reorder: int, maxHistory: nat)
    requires interval > 0
    ensures Coherent(Fresh(interval, reorder, maxHistory))
  {
  }

  // ---- Main results over every run ----

  /** Closed windows are whole, aligned to their own width, in order and disjoint,
      however ticks arrive and whenever the interval is switched. */
  lemma {:induction false} ClosedWindowsDisjoint(interval: int, reorder: int, maxHistory: nat, events: seq<Event>)
    requires interval > 0
    ensures var cs := Play(Fresh(interval, reorder, maxHistory), events).closed;
            && (forall c :: c in cs ==> c.tsMs > c.time && c.time % (c.tsMs - c.time) == 0)
            && (forall c :: c in cs ==> 1000 * c.tsUtc <= c.time < 1000 * c.tsUtc + 1000)
            && (forall c :: c in cs ==> c.low <= c.open <= c.high && c.low <= c.close <= c.high)
            && (forall i, j :: 0 <= i < j < |cs| ==> cs[i].tsMs <= cs[j].time)
  {
    var b := Play(Fresh(interval, reorder, maxHistory), events);
    FreshCoherent(interval, reorder, maxHistory);
    PlayCoherent(Fresh(interval, reorder, maxHistory), events);
    forall c | c in b.closed
      ensures c.tsMs > c.time && c.time % (c.tsMs - c.time) == 0
      ensures c.low <= c.open <= c.high && c.low <= c.close <= c.high
      ensures 1000 * c.tsUtc <= c.time < 1000 * c.tsUtc + 1000
    {
      assert GoodCandle(c);
      AlignedRemainder(c.time, c.tsMs - c.time);
    }
    forall i, j | 0 <= i < j < |b.closed|
      ensures b.closed[i].tsMs <= b.closed[j].time
    {
      assert Before(b.closed[i], b.closed[j]);
    }
  }

  lemma AlignedRemainder(ts: int, width: int)
    requires width > 0 && Aligned(ts, width)
    ensures ts % width == 0
  {
  }

  /** Every accepted tick is in a closed candle, in the open bucket, still pending,
      dropped late, or in a bucket an interval switch threw away: exactly one of these. */
  lemma {:induction false} TicksConserved(interval: int, reorder: int, maxHistory: nat, events: seq<Event>)
    requires interval > 0
    ensures var b := Play(Fresh(interval, reorder, maxHistory), events);
            && |b.accepted| == SumCounts(b.closed) + CountOf(b.feed.current) + |b.feed.pending| + |b.late| + b.lost
            && multiset(b.accepted) == multiset(b.absorbed) + multiset(b.late) + multiset(b.feed.pending)
  {
    var b := Play(Fresh(interval, reorder, maxHistory), events);
    FreshCoherent(interval, reorder, maxHistory);
    PlayCoherent(Fresh(interval, reorder, maxHistory), events);
    assert |b.accepted| == |multiset(b.accepted)|;
  }

  /** The bounded stores hold exactly the newest part of the unbounded record. */
  lemma {:induction false} BoundedStoresExact(interval: int, reorder: int, maxHistory: nat, events: seq<Event>)
    requires interval > 0
    ensures var b := Play(Fresh(interval, reorder, maxHistory), events);
            && b.feed.history == Newest(b.closed, maxHistory)
            && b.feed.seenKeys == Newest(b.keys, SEEN_CAP)
            && Holds(b)
  {
    FreshCoherent(interval, reorder, maxHistory);
    PlayCoherent(Fresh(interval, reorder, maxHistory), events);
  }

  /** The print was among the last 100,000 accepted: the same stamp and the same quote, price, bid
      and ask alike. */
  ghost predicate SeenLately(keys: seq<Key>, p: Print) {
    exists j :: 0 <= j < |keys| && j >= |keys| - 100_000 && keys[j].ts == p.tick.ts &&
      keys[j].quote.price == p.quote.price && keys[j].quote.bid == p.quote.bid && keys[j].quote.ask == p.quote.ask
  }

  lemma SeenIff(keys: seq<Key>, p: Print)
    ensures KeyOf(p) in Newest(keys, SEEN_CAP) <==> SeenLately(keys, p)
  {
    var recent := Newest(keys, SEEN_CAP);
    var cut := |keys| - |recent|;
    assert forall i :: 0 <= i < |recent| ==> recent[i] == keys[cut + i];
    if SeenLately(keys, p) {
      var j :| 0 <= j < |keys| && j >= |keys| - 100_000 && keys[j].ts == p.tick.ts &&
        keys[j].quote.price == p.quote.price && keys[j].quote.bid == p.quote.bid && keys[j].quote.ask == p.quote.ask;
      assert recent[j - cut] == KeyOf(p);
    }
    if KeyOf(p) in recent {
      var i :| 0 <= i < |recent| && recent[i] == KeyOf(p);
      assert keys[cut + i] == KeyOf(p);
    }
  }

  /** A print changes nothing at all exactly when it is not a price, or one with its stamp and
      its very quote is among the last 100,000 accepted; otherwise it is accepted. */
  lemma {:induction false} DedupExact(b: Book, p: Print)
    requires Coherent(b)
    ensures var duplicate := p.tick.price <= 0.0 || p.tick.ts <= 0 || SeenLately(b.keys, p);
            && (duplicate <==> Push(b, p) == b)
            && (!duplicate ==>
                  && Push(b, p).accepted == b.accepted + [p.tick]
                  && Push(b, p).keys == b.keys + [Key(p.tick.ts, p.quote)])
  {
    SeenIff(b.keys, p);
    if !Rejected(b.feed, p) {
      var a := Admit(b, p);
      FlushKeepsSettings(a, Watermark(a.feed));
      assert |Push(b, p).keys| == |b.keys| + 1;
    }
  }

  /** So two prints of one stamp with different quotes are both accepted. */
  lemma {:induction false} TwinsAccepted(b: Book, p: Print, q: Print)
    requires Coherent(b) && p.tick.price > 0.0 && q.tick.price > 0.0 && p.tick.ts == q.tick.ts > 0
    requires p.quote != q.quote && !SeenLately(b.keys, p) && !SeenLately(b.keys, q)
    ensures Push(b, p).feed.interval > 0
    ensures Push(Push(b, p), q).accepted == b.accepted + [p.tick] + [q.tick]
  {
    hide Push;
    PushCoherent(b, p);
    DedupExact(b, p);
    assert !SeenLately(b.keys + [Key(p.tick.ts, p.quote)], q);
    DedupExact(Push(b, p), q);
  }

  /** The keys on record are those of the accepted ticks, one each, in order. */
  lemma {:induction false} KeysAreStamps(interval: int, reorder: int, maxHistory: nat, events: seq<Event>)
    requires interval > 0
    ensures var b := Play(Fresh(interval, reorder, maxHistory), events);
            |b.keys| == |b.accepted| && forall j :: 0 <= j < |b.keys| ==> b.keys[j].ts == b.accepted[j].ts
  {
    if events != [] {
      hide Push;
      var init, e := events[..|events| - 1], events[|events| - 1];
      var b := Play(Fresh(interval, reorder, maxHistory), init);
      KeysAreStamps(interval, reorder, maxHistory, init);
      FreshCoherent(interval, reorder, maxHistory);
      PlayCoherent(Fresh(interval, reorder, maxHistory), init);
      if e.Tape? {
        DedupExact(b, e.arrival);
      }
    }
  }

  /** After a flush, whatever the watermark has reached but left pending
      sits exactly on the end of the open window, and so does the watermark. */
  lemma {:induction false} FlushLeavesBoundaryOnly(b: Book, w: int)
    requires Sound(b)
    ensures var f := Flush(b, w).feed;
            forall t :: t in f.pending && t.ts <= w ==>
              f.current.Some? && t.ts == w && w == f.current.value.start + f.interval
  {
    FlushSound(b, w);
    FlushStalls(b, w);
    var f := Flush(b, w).feed;
    forall t | t in f.pending && t.ts <= w
      ensures f.current.Some? && t.ts == w && w == f.current.value.start + f.interval
    {
      var i :| 0 <= i < |f.pending| && f.pending[i] == t;
      assert f.pending[0].ts <= t.ts;
      AlignedGap(f.current.value.start, WindowStart(f.pending[0].ts, f.interval), f.interval);
    }
  }

  lemma {:induction false} FlushStalls(b: Book, w: int)
    requires b.feed.interval > 0
    ensures Flush(b, w).feed.interval > 0 && Stalled(Flush(b, w).feed, w)
    decreases |b.feed.pending|, if b.feed.current.Some? then 1 else 0
  {
    if !Stalled(b.feed, w) {
      FlushStalls(FlushStep(b, w), w);
    }
  }

  /** A flush closes a window only once the watermark is strictly past its end. */
  lemma {:induction false} FlushClosesPastOnly(b: Book, w: int)
    requires b.feed.interval > 0
    ensures b.closed <= Flush(b, w).closed
    ensures forall i :: |b.closed| <= i < |Flush(b, w).closed| ==> Flush(b, w).closed[i].tsMs < w
    decreases |b.feed.pending|, if b.feed.current.Some? then 1 else 0
  {
    if !Stalled(b.feed, w) {
      FlushClosesPastOnly(FlushStep(b, w), w);
    }
  }
}
