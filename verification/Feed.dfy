/** One symbol's feed as a value: its state, its logs, and every transition on them. */
module Feed {
  import opened Options
  import opened Candles
  import opened TapeSort

  /** The rendered price, bid and ask of a print; with the stamp they form the dedup key. */
  datatype Quote = Quote(price: string, bid: string, ask: string)

  datatype Print = Print(tick: Tick, quote: Quote)

  datatype Key = Key(ts: int, quote: Quote)

  datatype FeedState = FeedState(
    interval: int, reorder: int, maxHistory: nat,
    current: Option<Bucket>, pending: seq<Tick>, history: seq<Candle>,
    maxSeen: Option<int>, seenKeys: seq<Key>, finalizedBefore: Option<int>,
    lastPrice: Option<real>, lastAt: Option<int>)

  /** A feed together with the full record of its run. absorbed: ticks that went into a
      bucket; late: ticks dropped by the flush; lost: ticks in buckets discarded by an
      interval switch; closed: every candle ever closed. */
  datatype Book = Book(
    feed: FeedState, accepted: seq<Tick>, keys: seq<Key>,
    absorbed: seq<Tick>, late: seq<Tick>, lost: nat, closed: seq<Candle>)

  const SEEN_CAP: nat := 100_000

  function KeyOf(p: Print): Key { Key(p.tick.ts, p.quote) }

  /** What a container bounded to n keeps: the newest n. */
  function Newest<T>(s: seq<T>, n: nat): seq<T> {
    if |s| <= n then s else s[|s| - n..]
  }

  lemma NewestAppend<T>(s: seq<T>, x: T, n: nat)
    ensures Newest(Newest(s, n) + [x], n) == Newest(s + [x], n)
  {
  }

  function Fresh(interval: int, reorder: int, maxHistory: nat): Book {
    Book(FeedState(interval, reorder, maxHistory, None, [], [], None, [], None, None, None),
         [], [], [], [], 0, [])
  }

  // ---- Flush ----

  function CloseCurrent(b: Book, c: Bucket): Book {
    var candle := ToCandle(c, true, b.feed.interval);
    b.(feed := b.feed.(history := Newest(b.feed.history + [candle], b.feed.maxHistory),
                       finalizedBefore := Some(c.start + b.feed.interval), current := None),
       closed := b.closed + [candle])
  }

  function DropHead(b: Book): Book
    requires b.feed.pending != []
  {
    b.(feed := b.feed.(pending := b.feed.pending[1..]), late := b.late + [b.feed.pending[0]])
  }

  function TakeHead(b: Book, into: Bucket): Book
    requires b.feed.pending != []
  {
    var t := b.feed.pending[0];
    b.(feed := b.feed.(pending := b.feed.pending[1..], current := Some(into),
                       lastPrice := Some(t.price), lastAt := Some(t.ts)),
       absorbed := b.absorbed + [t])
  }

  /** The head tick's window began before the last closed window ended. */
  predicate TooLate(f: FeedState, start: int) {
    f.finalizedBefore.Some? && start < f.finalizedBefore.value
  }

  /** The flush loop has nothing it may do at this watermark. */
  predicate Stalled(f: FeedState, watermark: int)
    requires f.interval > 0
  {
    || f.pending == []
    || f.pending[0].ts > watermark
    || (var start := WindowStart(f.pending[0].ts, f.interval);
        && !TooLate(f, start)
        && f.current.Some?
        && start > f.current.value.start
        && watermark <= f.current.value.start + f.interval)
  }

  /** One turn of the flush loop. */
  function FlushStep(b: Book, watermark: int): Book
    requires b.feed.interval > 0 && !Stalled(b.feed, watermark)
  {
    var t := b.feed.pending[0];
    var start := WindowStart(t.ts, b.feed.interval);
    if TooLate(b.feed, start) then DropHead(b)
    else if b.feed.current.None? then TakeHead(b, OpenBucket(start, t))
    else if start == b.feed.current.value.start then TakeHead(b, UpdateBucket(b.feed.current.value, t))
    else if start < b.feed.current.value.start then DropHead(b)
    else CloseCurrent(b, b.feed.current.value)
  }

  function Flush(b: Book, watermark: int): Book
    requires b.feed.interval > 0
    decreases |b.feed.pending|, if b.feed.current.Some? then 1 else 0
  {
    if Stalled(b.feed, watermark) then b else Flush(FlushStep(b, watermark), watermark)
  }

  // ---- Push and interval switch ----

  predicate Rejected(f: FeedState, p: Print) {
    p.tick.price <= 0.0 || p.tick.ts <= 0 || KeyOf(p) in f.seenKeys
  }

  /** Record an accepted print in the dedup window and the reorder buffer. */
  function Admit(b: Book, p: Print): Book {
    var newest := if b.feed.maxSeen.Some? then MaxInt(b.feed.maxSeen.value, p.tick.ts) else p.tick.ts;
    b.(feed := b.feed.(seenKeys := Newest(b.feed.seenKeys + [KeyOf(p)], SEEN_CAP),
                       maxSeen := Some(newest),
                       pending := StableSort(b.feed.pending + [p.tick])),
       accepted := b.accepted + [p.tick],
       keys := b.keys + [KeyOf(p)])
  }

  function Watermark(f: FeedState): int
    requires f.maxSeen.Some?
  {
    f.maxSeen.value - f.reorder
  }

  function Hold(b: Book, t: Tick): Book {
    b.(feed := b.feed.(lastPrice := Some(t.price), lastAt := Some(t.ts)))
  }

  function Push(b: Book, p: Print): Book
    requires b.feed.interval > 0
  {
    if Rejected(b.feed, p) then b
    else
      var a := Admit(b, p);
      Hold(Flush(a, Watermark(a.feed)), p.tick)
  }

  function CountOf(o: Option<Bucket>): nat {
    if o.Some? then o.value.count else 0
  }

  function SetInterval(b: Book, interval: int): Book {
    if interval <= 0 then b
    else b.(feed := b.feed.(interval := interval, current := None), lost := b.lost + CountOf(b.feed.current))
  }

  // ---- Runs ----

  datatype Event = Tape(arrival: Print) | Switch(interval: int)

  function Apply(b: Book, e: Event): Book
    requires b.feed.interval > 0
  {
    match e
    case Tape(p) => Push(b, p)
    case Switch(i) => SetInterval(b, i)
  }

  /** Only an interval switch changes the interval, and only to a positive one. */
  lemma FlushKeepsSettings(b: Book, w: int)
    requires b.feed.interval > 0
    ensures var r := Flush(b, w);
            && r.feed.interval == b.feed.interval && r.feed.reorder == b.feed.reorder
            && r.feed.maxHistory == b.feed.maxHistory && r.feed.maxSeen == b.feed.maxSeen
            && r.feed.seenKeys == b.feed.seenKeys && r.keys == b.keys
            && r.accepted == b.accepted && r.lost == b.lost
    decreases |b.feed.pending|, if b.feed.current.Some? then 1 else 0
  {
    if !Stalled(b.feed, w) {
      FlushKeepsSettings(FlushStep(b, w), w);
    }
  }

  lemma ApplyKeepsSettings(b: Book, e: Event)
    requires b.feed.interval > 0
    ensures Apply(b, e).feed.interval > 0
    ensures Apply(b, e).feed.reorder == b.feed.reorder && Apply(b, e).feed.maxHistory == b.feed.maxHistory
  {
    if e.Tape? && !Rejected(b.feed, e.arrival) {
      var a := Admit(b, e.arrival);
      FlushKeepsSettings(a, Watermark(a.feed));
    }
  }

  function Play(b: Book, events: seq<Event>): (r: Book)
    requires b.feed.interval > 0
    ensures r.feed.interval > 0 && r.feed.reorder == b.feed.reorder && r.feed.maxHistory == b.feed.maxHistory
  {
    if events == [] then b
    else
      var before := Play(b, events[..|events| - 1]);
      ApplyKeepsSettings(before, events[|events| - 1]);
      Apply(before, events[|events| - 1])
  }
}
