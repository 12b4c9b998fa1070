/** The engine's objects, updated in place: an open bucket, one symbol's feed, and the
    engine that routes ticks to feeds. Each method is tied to the transitions on Book. */
module SymbolFeeds {
  import opened Options
  import opened Reals
  import opened Candles
  import opened TapeSort
  import opened Feed
  import opened FeedRuns
  import opened Forming
  import opened Collections

  class OpenWindow {
    const start: int
    const open: real
    var high: real
    var low: real
    var close: real
    var count: nat
    var volume: Option<real>
    const first: int
    var last: int

    function Value(): Bucket
      reads this
    {
      Bucket(start, open, high, low, close, count, volume, first, last)
    }

    constructor (start: int, t: Tick)
      ensures Value() == OpenBucket(start, t)
    {
      this.start, open, high, low, close := start, t.price, t.price, t.price, t.price;
      count, volume, first, last := 1, t.volume, t.ts, t.ts;
    }

    method Update(t: Tick)
      modifies this
      ensures Value() == UpdateBucket(old(Value()), t)
    {
      high := Max(high, t.price);
      low := Min(low, t.price);
      close := t.price;
      count := count + 1;
      last := t.ts;
      if t.volume.Some? {
        volume := Some((if volume.Some? then volume.value else 0.0) + t.volume.value);
      }
    }
  }

  class SymbolFeed {
    var interval: int
    const reorder: int
    const maxHistory: nat
    var current: OpenWindow?
    var lastPrice: Option<real>
    var lastAt: Option<int>
    var history: seq<Candle>
    var maxSeen: Option<int>
    var pending: seq<Tick>
    var seenKeys: seq<Key>
    var seenLookup: set<Key>
    var finalizedBefore: Option<int>
    /** The full record of this feed's run. */
    ghost var book: Book

    function State(): FeedState
      reads this, current
    {
      FeedState(interval, reorder, maxHistory, if current == null then None else Some(current.Value()),
                pending, history, maxSeen, seenKeys, finalizedBefore, lastPrice, lastAt)
    }

    ghost predicate Valid()
      reads this, current
    {
      && interval > 0
      && book.feed == State()
      && Distinct(seenKeys) && |seenKeys| <= SEEN_CAP
      && seenLookup == set k | k in seenKeys
    }

    constructor (interval: int, reorder: int, maxHistory: nat)
      requires interval > 0
      ensures Valid() && current == null
      ensures book == Fresh(interval, reorder, maxHistory)
    {
      this.interval, this.reorder, this.maxHistory := interval, reorder, maxHistory;
      current, lastPrice, lastAt, history := null, None, None, [];
      maxSeen, pending, seenKeys, seenLookup, finalizedBefore := None, [], [], {}, None;
      book := Fresh(interval, reorder, maxHistory);
    }

    /** Put a new key into the bounded dedup window and its lookup set. */
    method Remember(key: Key)
      requires Valid() && key !in seenKeys
      modifies this`seenKeys, this`seenLookup, this`book
      ensures Valid() && seenKeys == Newest(old(seenKeys) + [key], SEEN_CAP)
      ensures book == old(book).(feed := old(book.feed).(seenKeys := seenKeys))
    {
      NewestDistinct(seenKeys, key, SEEN_CAP);
      if |seenKeys| == SEEN_CAP {
        LookupDiscard(seenKeys);
        seenLookup := seenLookup - {seenKeys[0]};
        seenKeys := seenKeys[1..] + [key];
      } else {
        seenKeys := seenKeys + [key];
      }
      seenLookup := seenLookup + {key};
      book := book.(feed := book.feed.(seenKeys := seenKeys));
    }

    /** Enter an accepted print into the dedup window and the reorder buffer. */
    method Enqueue(p: Print)
      requires Valid() && KeyOf(p) !in seenKeys
      modifies this
      ensures Valid() && book == Admit(old(book), p)
      ensures current == old(current)
    {
      Remember(KeyOf(p));
      maxSeen := Some(if maxSeen.Some? then MaxInt(maxSeen.value, p.tick.ts) else p.tick.ts);
      pending := StableSort(pending + [p.tick]);
      book := Admit(old(book), p);
    }

    /** Ingest one print: None when it is refused, otherwise the candles it closed, in order. */
    method PushTick(p: Print) returns (r: Option<seq<Candle>>)
      requires Valid()
      modifies this, current
      ensures Valid() && book == Push(old(book), p) && interval == old(interval)
      ensures current == null || current == old(current) || fresh(current)
      ensures old(book).closed <= book.closed
      ensures r == if Rejected(old(book).feed, p) then None else Some(book.closed[|old(book).closed|..])
    {
      hide Flush, StableSort, Distinct, Newest;
      var key := KeyOf(p);
      if p.tick.price <= 0.0 || p.tick.ts <= 0 {
        return None;
      }
      if key in seenLookup {
        return None;
      }
      Enqueue(p);
      FlushKeepsSettings(book, Watermark(book.feed));
      var candles := FlushReady();
      lastPrice := Some(p.tick.price);
      lastAt := Some(p.tick.ts);
      book := Hold(book, p.tick);
      return Some(candles);
    }

    /** Finalise every window the watermark has cleared; the candles closed, in order. */
    method FlushReady() returns (candles: seq<Candle>)
      requires Valid()
      modifies this, current
      ensures Valid()
      ensures book == if old(maxSeen).None? then old(book) else Flush(old(book), Watermark(old(book).feed))
      ensures old(book).closed <= book.closed && candles == book.closed[|old(book).closed|..]
      ensures current == null || current == old(current) || fresh(current)
    {
      candles := [];
      if maxSeen.None? {
        return;
      }
      var watermark := maxSeen.value - reorder;
      while pending != [] && pending[0].ts <= watermark
        invariant Valid()
        invariant Flush(book, watermark) == Flush(old(book), watermark)
        invariant old(book).closed <= book.closed && candles == book.closed[|old(book).closed|..]
        invariant current == null || current == old(current) || fresh(current)
        decreases |pending|, if current != null then 1 else 0
      {
        var start := WindowStart(pending[0].ts, interval);
        if finalizedBefore.Some? && start < finalizedBefore.value {
          PopLate();
          continue;
        }
        if current == null {
          PopIntoNew(start);
          continue;
        }
        if start == current.start {
          PopIntoCurrent();
          continue;
        }
        if start < current.start {
          PopLate();
          continue;
        }
        if watermark <= current.start + interval {
          break;
        }
        var closed := CloseWindow();
        candles := candles + [closed];
      }
    }

    method PopLate()
      requires Valid() && pending != []
      modifies this`pending, this`book
      ensures Valid() && book == DropHead(old(book))
    {
      book := DropHead(book);
      pending := pending[1..];
    }

    method PopIntoNew(start: int)
      requires Valid() && pending != [] && current == null
      modifies this
      ensures Valid() && book == TakeHead(old(book), OpenBucket(start, old(pending)[0]))
      ensures current != null && fresh(current) && interval == old(interval)
    {
      var t := pending[0];
      book := TakeHead(book, OpenBucket(start, t));
      pending := pending[1..];
      current := new OpenWindow(start, t);
      lastPrice, lastAt := Some(t.price), Some(t.ts);
    }

    method PopIntoCurrent()
      requires Valid() && pending != [] && current != null
      modifies this, current
      ensures Valid() && book == TakeHead(old(book), UpdateBucket(old(current.Value()), old(pending)[0]))
      ensures current == old(current) && interval == old(interval)
    {
      var t := pending[0];
      book := TakeHead(book, UpdateBucket(current.Value(), t));
      pending := pending[1..];
      current.Update(t);
      lastPrice, lastAt := Some(t.price), Some(t.ts);
    }

    method CloseWindow() returns (closed: Candle)
      requires Valid() && current != null
      modifies this
      ensures Valid() && book == CloseCurrent(old(book), old(current.Value()))
      ensures closed == ToCandle(old(current.Value()), true, old(interval))
      ensures current == null && interval == old(interval)
    {
      book := CloseCurrent(book, current.Value());
      closed := ToCandle(current.Value(), true, interval);
      AppendClosed(closed);
      finalizedBefore := Some(current.start + interval);
      current := null;
    }

    method AppendClosed(candle: Candle)
      modifies this`history
      ensures history == Newest(old(history) + [candle], maxHistory)
    {
      history := history + [candle];
      if |history| > maxHistory {
        history := history[|history| - maxHistory..];
      }
    }

    /** Drop the open bucket and continue at the new width; a width of 0 or less is ignored. */
    method SwitchInterval(width: int)
      requires Valid()
      modifies this`interval, this`current, this`book
      ensures Valid() && book == SetInterval(old(book), width)
      ensures interval == if width <= 0 then old(interval) else width
      ensures current == if width <= 0 then old(current) else null
    {
      if width <= 0 {
        return;
      }
      book := SetInterval(book, width);
      interval := width;
      current := null;
    }

    /** Build the preview bucket of the oldest pending window. */
    method PreviewWindow() returns (window: OpenWindow?)
      requires Valid()
      ensures window != null ==> fresh(window)
      ensures window == null <==> Preview(State()).None?
      ensures window != null ==> Preview(State()) == Some(window.Value())
    {
      if pending == [] {
        return null;
      }
      var start := WindowStart(pending[0].ts, interval);
      var rows := PreviewRows(State());
      window := new OpenWindow(start, rows[0]);
      ghost var seed := window.Value();
      for i := 1 to |rows|
        invariant fresh(window)
        invariant window.Value() == UpdateAll(seed, rows[1..i])
      {
        window.Update(rows[i]);
        assert rows[1..i + 1][..|rows[1..i + 1]| - 1] == rows[1..i];
      }
      assert rows[1..|rows|] == rows[1..];
    }

    method Forming() returns (candle: Option<Candle>)
      requires Valid()
      ensures candle == FormingCandle(State())
    {
      var preview := PreviewWindow();
      if preview != null && (current == null || preview.start >= current.start) {
        return Some(HoldRender(State(), ToCandle(preview.Value(), false, interval)));
      }
      if current == null {
        if lastPrice.None? || lastAt.None? {
          return None;
        }
        return Some(HeldCandle(lastPrice.value, lastAt.value, interval));
      }
      return Some(HoldRender(State(), ToCandle(current.Value(), false, interval)));
    }
  }

  lemma LookupDiscard(ks: seq<Key>)
    requires Distinct(ks) && ks != []
    ensures (set k | k in ks) - {ks[0]} == set k | k in ks[1..]
  {
    assert ks == [ks[0]] + ks[1..];
    forall i | 0 <= i < |ks[1..]|
      ensures ks[1..][i] != ks[0]
    {
      assert ks[i + 1] != ks[0];
    }
  }
}
