/** The engine: one feed per symbol, ticks routed by symbol, one interval for all. */
module M20Engine {
  import opened Options
  import opened Candles
  import opened Feed
  import opened FeedRuns
  import opened SymbolFeeds
  import opened Collections

  const REORDER_MS := 3_000

  // ---- The engine's transitions on the records of its feeds ----

  datatype EngineEvent = TickFor(symbol: string, arrival: Print) | SwitchAll(width: int) | Register(symbol: string)

  /** The interval in force, and the record of every registered feed. */
  datatype EngineState = EngineState(interval: int, maxHistory: nat, books: map<string, Book>)

  function RouteTick(e: EngineState, symbol: string, p: Print): EngineState
    requires Running(e)
  {
    if symbol in e.books then e.(books := e.books[symbol := Push(e.books[symbol], p)]) else e
  }

  function SwitchBooks(e: EngineState, width: int): EngineState {
    e.(interval := if width <= 0 then e.interval else width,
       books := map s | s in e.books :: SetInterval(e.books[s], width))
  }

  /** A new symbol gets a fresh feed at the interval in force; a known one is left as it is. */
  function AddFeed(e: EngineState, symbol: string): EngineState {
    if symbol in e.books then e else e.(books := e.books[symbol := Fresh(e.interval, REORDER_MS, e.maxHistory)])
  }

  predicate Running(e: EngineState) {
    e.interval > 0 && forall s :: s in e.books ==> e.books[s].feed.interval > 0
  }

  lemma PushKeepsInterval(b: Book, p: Print)
    requires b.feed.interval > 0
    ensures Push(b, p).feed.interval == b.feed.interval
    ensures Push(b, p).feed.reorder == b.feed.reorder && Push(b, p).feed.maxHistory == b.feed.maxHistory
  {
    if !Rejected(b.feed, p) {
      var a := Admit(b, p);
      FlushKeepsSettings(a, Watermark(a.feed));
    }
  }

  function EngineStep(e: EngineState, event: EngineEvent): (r: EngineState)
    requires Running(e)
    ensures Running(r) && forall s :: s in e.books ==> s in r.books
  {
    match event
    case TickFor(symbol, p) =>
      (if symbol in e.books then PushKeepsInterval(e.books[symbol], p); RouteTick(e, symbol, p) else e)
    case SwitchAll(width) => SwitchBooks(e, width)
    case Register(symbol) => AddFeed(e, symbol)
  }

  function RunEngine(e: EngineState, events: seq<EngineEvent>): (r: EngineState)
    requires Running(e)
    ensures Running(r) && forall s :: s in e.books ==> s in r.books
  {
    if events == [] then e else EngineStep(RunEngine(e, events[..|events| - 1]), events[|events| - 1])
  }

  /** What one symbol sees of the engine's events. */
  function Project(events: seq<EngineEvent>, symbol: string): seq<Event> {
    if events == [] then []
    else
      var before := Project(events[..|events| - 1], symbol);
      match events[|events| - 1]
      case TickFor(s, p) => if s == symbol then before + [Tape(p)] else before
      case SwitchAll(width) => before + [Switch(width)]
      case Register(_) => before
  }

  lemma PlaySnoc(b: Book, events: seq<Event>, e: Event)
    requires b.feed.interval > 0
    ensures Play(b, events + [e]) == Apply(Play(b, events), e)
  {
    assert (events + [e])[..|events|] == events;
  }

  lemma {:induction false} KnownFeedPlays(e: EngineState, events: seq<EngineEvent>, symbol: string)
    requires Running(e) && symbol in e.books
    ensures RunEngine(e, events).books[symbol] == Play(e.books[symbol], Project(events, symbol))
  {
    if events != [] {
      var init, last := events[..|events| - 1], events[|events| - 1];
      KnownFeedPlays(e, init, symbol);
      match last
      case TickFor(s, p) =>
        if s == symbol {
          PlaySnoc(e.books[symbol], Project(init, symbol), Tape(p));
        }
      case SwitchAll(width) =>
        PlaySnoc(e.books[symbol], Project(init, symbol), Switch(width));
      case Register(_) =>
    }
  }

  lemma {:induction false} RunEngineJoin(e: EngineState, a: seq<EngineEvent>, b: seq<EngineEvent>)
    requires Running(e)
    ensures RunEngine(e, a + b) == RunEngine(RunEngine(e, a), b)
  {
    hide EngineStep;
    if b == [] {
      assert a + b == a;
    } else {
      var init, last := b[..|b| - 1], b[|b| - 1];
      RunEngineJoin(e, a, init);
      assert (a + b)[..|a + b| - 1] == a + init && (a + b)[|a + b| - 1] == last;
    }
  }

  /** Symbols do not interfere: in any interleaving a feed goes through exactly the run it would
      go through alone, from its registration on, at the interval then in force, on its own
      ticks and the shared interval switches. Ticks before the registration leave no trace, and
      registering it again changes nothing. */
  lemma {:induction false} FeedsIndependent(e: EngineState, before: seq<EngineEvent>, symbol: string,
      after: seq<EngineEvent>)
    requires Running(e)
    ensures var now := RunEngine(e, before);
            var start := if symbol in now.books then now.books[symbol]
                else Fresh(now.interval, REORDER_MS, now.maxHistory);
            var end := RunEngine(e, before + [Register(symbol)] + after);
            symbol in end.books && start.feed.interval > 0 && end.books[symbol] == Play(start, Project(after, symbol))
  {
    hide Play, Project;
    var now := RunEngine(e, before);
    RunEngineJoin(e, before, [Register(symbol)]);
    RunEngineJoin(e, before + [Register(symbol)], after);
    var there := RunEngine(now, [Register(symbol)]);
    assert [Register(symbol)][..0] == [];
    assert there == AddFeed(now, symbol);
    KnownFeedPlays(there, after, symbol);
  }

  // ---- The engine object ----

  class Engine {
    var interval: int
    const maxHistory: nat
    var feeds: map<string, SymbolFeed>

    /** A feed fit for this engine. */
    ghost predicate Fits(f: SymbolFeed, width: int)
      reads f, f.current
    {
      f.Valid() && f.interval == width && f.maxHistory == maxHistory && f.reorder == REORDER_MS
    }

    /** Two feeds share nothing. */
    static ghost predicate Apart(f: SymbolFeed, g: SymbolFeed)
      reads f, g
    {
      f != g && (f.current == null || f.current != g.current)
    }

    ghost predicate Valid()
      reads this, feeds.Values, set f | f in feeds.Values && f.current != null :: f.current
    {
      && interval > 0
      && (forall s :: s in feeds ==> feeds[s] in feeds.Values && Fits(feeds[s], interval))
      && (forall s, t :: s in feeds && t in feeds && s != t ==> Apart(feeds[s], feeds[t]))
    }

    /** What a tick for this symbol may touch. */
    ghost function Footprint(symbol: string): set<object>
      reads this, feeds.Values
    {
      if symbol !in feeds then {}
      else if feeds[symbol].current == null then {feeds[symbol]}
      else {feeds[symbol], feeds[symbol].current}
    }

    constructor (interval: int, maxHistory: nat)
      requires interval > 0
      ensures Valid() && feeds == map[]
    {
      this.interval, this.maxHistory, feeds := interval, maxHistory, map[];
    }

    /** Register a feed on demand; an existing feed is left untouched. */
    method EnsureFeed(symbol: string) returns (feed: SymbolFeed)
      requires Valid()
      modifies this`feeds
      ensures Valid() && symbol in feeds && feed == feeds[symbol]
      ensures feeds == if symbol in old(feeds) then old(feeds) else old(feeds)[symbol := feed]
      ensures symbol !in old(feeds) ==> fresh(feed) && feed.book == Fresh(interval, REORDER_MS, maxHistory)
    {
      if symbol in feeds {
        return feeds[symbol];
      }
      feed := new SymbolFeed(interval, REORDER_MS, maxHistory);
      feeds := feeds[symbol := feed];
      assert Fits(feed, interval);
      forall s | s in feeds && s != symbol
        ensures Fits(feeds[s], interval) && Apart(feeds[s], feed) && Apart(feed, feeds[s])
      {
        assert old(Fits(feeds[s], interval));
      }
    }

    /** Route one tick; an unknown symbol closes nothing, a refused tick gives None. */
    method HandleTickAll(symbol: string, p: Print) returns (r: Option<seq<Candle>>)
      requires Valid()
      modifies Footprint(symbol)
      ensures Valid()
      ensures symbol !in feeds ==> r == Some([])
      ensures symbol in feeds ==>
                var before, after := old(feeds[symbol].book), feeds[symbol].book;
                && after == Push(before, p)
                && before.closed <= after.closed
                && r == if Rejected(before.feed, p) then None else Some(after.closed[|before.closed|..])
      ensures forall s :: s in feeds && s != symbol ==> feeds[s].book == old(feeds[s].book)
    {
      hide Push, Rejected, Distinct;
      if symbol !in feeds {
        return Some([]);
      }
      var feed := feeds[symbol];
      PushKeepsInterval(feed.book, p);
      r := feed.PushTick(p);
      assert Fits(feed, interval);
      forall s | s in feeds && s != symbol
        ensures Fits(feeds[s], interval) && feeds[s].book == old(feeds[s].book)
        ensures Apart(feeds[s], feed) && Apart(feed, feeds[s])
      {
        assert old(Apart(feeds[s], feed)) && old(Apart(feed, feeds[s])) && old(Fits(feeds[s], interval));
      }
    }

    /** Switch every feed to the new width; a width of 0 or less is ignored. */
    method SetIntervals(width: int)
      requires Valid()
      modifies this`interval, feeds.Values
      ensures Valid() && interval == if width <= 0 then old(interval) else width
      ensures forall s :: s in feeds ==> feeds[s].book == SetInterval(old(feeds[s].book), width)
    {
      if width <= 0 {
        return;
      }
      SwitchFeeds(width);
      interval := width;
      forall s, t | s in feeds && t in feeds && s != t
        ensures Apart(feeds[s], feeds[t])
      {
        assert old(Apart(feeds[s], feeds[t]));
      }
    }

    method SwitchFeeds(width: int)
      requires width > 0
      requires forall s :: s in feeds ==> feeds[s] in feeds.Values && Fits(feeds[s], interval)
      requires forall s, t :: s in feeds && t in feeds && s != t ==> feeds[s] != feeds[t]
      modifies feeds.Values
      ensures forall s :: s in feeds ==>
        && Fits(feeds[s], width) && feeds[s].current == null
        && feeds[s].book == SetInterval(old(feeds[s].book), width)
    {
      hide SetInterval, Distinct;
      var todo := feeds.Keys;
      while todo != {}
        invariant todo <= feeds.Keys
        invariant forall s :: s in todo ==> unchanged(feeds[s])
        invariant forall s :: s in feeds && s !in todo ==>
          && Fits(feeds[s], width) && feeds[s].current == null
          && feeds[s].book == SetInterval(old(feeds[s].book), width)
        decreases todo
      {
        var s :| s in todo;
        assert old(Fits(feeds[s], interval));
        feeds[s].SwitchInterval(width);
        todo := todo - {s};
      }
    }
  }
}
