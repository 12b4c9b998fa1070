/** At a constant interval, on a tape within the lateness bound, the streaming feed
    is the batch bucketing of the sorted tape, whatever the arrival order. */
module FeedTimely {
  import opened Options
  import opened Candles
  import opened TapeSort
  import opened BatchFold
  import opened Feed
  import opened FeedRuns

  function CloseAll(bs: seq<Bucket>, interval: int): seq<Candle> {
    seq(|bs|, i requires 0 <= i < |bs| => ToCandle(bs[i], true, interval))
  }

  /** The watermark lets the j-th tick of the sorted tape leave the reorder buffer. */
  ghost predicate Passes(s: seq<Tick>, j: int, w: int, interval: int)
    requires interval > 0 && 0 <= j < |s|
  {
    && s[j].ts <= w
    && (j > 0 && WindowStart(s[j].ts, interval) > WindowStart(s[j - 1].ts, interval)
        ==> w > WindowStart(s[j - 1].ts, interval) + interval)
  }

  ghost predicate AllPass(s: seq<Tick>, k: nat, w: int, interval: int)
    requires interval > 0 && k <= |s|
  {
    forall j :: 0 <= j < k ==> Passes(s, j, w, interval)
  }

  /** k is the first position the watermark does not let through. */
  ghost predicate IsFront(s: seq<Tick>, k: nat, w: int, interval: int)
    requires interval > 0
  {
    k <= |s| && AllPass(s, k, w, interval) && (k < |s| ==> !Passes(s, k, w, interval))
  }

  /** The window of bucket c is over at watermark w and the next pending tick is beyond it. */
  ghost predicate Moving(f: FeedState, c: Bucket, w: int)
    requires f.interval > 0
  {
    && f.pending != [] && f.pending[0].ts <= w
    && WindowStart(f.pending[0].ts, f.interval) > c.start
    && w > c.start + f.interval
  }

  /** Closed candles and open bucket are the fold of the absorbed ticks. */
  ghost predicate Booked(b: Book, w: int)
    requires b.feed.interval > 0
  {
    var bs := Fold(b.absorbed, b.feed.interval);
    if b.feed.current.Some? then
      && bs != [] && b.feed.current.value == bs[|bs| - 1]
      && b.closed == CloseAll(bs[..|bs| - 1], b.feed.interval)
    else
      && b.closed == CloseAll(bs, b.feed.interval)
      && (bs != [] ==> Moving(b.feed, bs[|bs| - 1], w))
  }

  ghost predicate Mid(b: Book, w: int) {
    && b.feed.interval > 0
    && Sorted(b.absorbed + b.feed.pending)
    && b.late == []
    && LastEnd(b)
    && AllPass(b.absorbed, |b.absorbed|, w, b.feed.interval)
    && Booked(b, w)
  }

  // ---- The newest bucket of the fold against the head of the buffer ----

  lemma {:induction false} FoldAligned(ts: seq<Tick>, interval: int, i: int)
    requires interval > 0 && Sorted(ts) && 0 <= i < |Fold(ts, interval)|
    ensures Aligned(Fold(ts, interval)[i].start, interval)
  {
    FoldIsBatch(ts, interval);
    var x := BucketInhabited(Fold(ts, interval), ts, interval, i);
  }

  lemma SortedParts(a: seq<Tick>, p: seq<Tick>)
    requires Sorted(a + p)
    ensures Sorted(a) && Sorted(p)
    ensures forall x, y :: x in a && y in p ==> x.ts <= y.ts
  {
    forall i, j | 0 <= i < j < |a|
      ensures a[i].ts <= a[j].ts
    {
      assert (a + p)[i] == a[i] && (a + p)[j] == a[j];
    }
    forall i, j | 0 <= i < j < |p|
      ensures p[i].ts <= p[j].ts
    {
      assert (a + p)[|a| + i] == p[i] && (a + p)[|a| + j] == p[j];
    }
    forall x, y | x in a && y in p
      ensures x.ts <= y.ts
    {
      var i :| 0 <= i < |a| && a[i] == x;
      var j :| 0 <= j < |p| && p[j] == y;
      assert (a + p)[i] == x && (a + p)[|a| + j] == y;
    }
  }

  /** The head of the buffer never falls before the newest bucket. */
  lemma {:induction false} HeadNotBefore(b: Book, w: int)
    requires Mid(b, w) && b.feed.pending != [] && b.absorbed != []
    ensures var bs := Fold(b.absorbed, b.feed.interval);
            bs[|bs| - 1].start <= WindowStart(b.feed.pending[0].ts, b.feed.interval)
  {
    var a := b.absorbed;
    SortedParts(a, b.feed.pending);
    FoldLastStart(a, b.feed.interval);
    assert a[|a| - 1] in a && b.feed.pending[0] in b.feed.pending;
    WindowStartMonotone(a[|a| - 1].ts, b.feed.pending[0].ts, b.feed.interval);
  }

  /** The last closed candle is a bucket of the fold, the newest one only once it is over. */
  lemma LastClosed(b: Book, w: int)
    requires Mid(b, w) && b.closed != []
    ensures var bs, n := Fold(b.absorbed, b.feed.interval), |b.closed| - 1;
            && n < |bs| && b.absorbed != []
            && b.feed.finalizedBefore == Some(bs[n].start + b.feed.interval)
            && (if b.feed.current.Some? then n < |bs| - 1 else n == |bs| - 1 && Moving(b.feed, bs[n], w))
  {
    hide AllPass, Fold, Moving;
    EmptyFold(b.feed.interval);
  }

  /** So on a timely tape the flush never drops a tick. */
  lemma {:induction false} HeadNotLate(b: Book, w: int)
    requires Mid(b, w) && b.feed.pending != []
    ensures !TooLate(b.feed, WindowStart(b.feed.pending[0].ts, b.feed.interval))
  {
    var interval := b.feed.interval;
    var start := WindowStart(b.feed.pending[0].ts, interval);
    if b.closed == [] {
      assert LastEnd(b);
    } else {
      hide AllPass, Fold, Booked, IsBatch, WindowStart, Aligned, Sorted;
      var bs, n := Fold(b.absorbed, interval), |b.closed| - 1;
      LastClosed(b, w);
      SortedParts(b.absorbed, b.feed.pending);
      HeadNotBefore(b, w);
      NewestIsLast(b.absorbed, interval, n);
      FoldAligned(b.absorbed, interval, n);
      StartAligned(b.feed.pending[0].ts, interval);
      AlignedGap(bs[n].start, start, interval);
    }
  }

  lemma StartAligned(ts: int, interval: int)
    requires interval > 0
    ensures Aligned(WindowStart(ts, interval), interval)
  {
  }

  lemma NewestIsLast(ts: seq<Tick>, interval: int, n: nat)
    requires interval > 0 && Sorted(ts) && n < |Fold(ts, interval)|
    ensures var bs := Fold(ts, interval);
            n < |bs| - 1 ==> bs[n].start < bs[|bs| - 1].start
  {
    FoldIsBatch(ts, interval);
  }

  lemma EmptyFold(interval: int)
    requires interval > 0
    ensures Fold([], interval) == []
  {
  }

  lemma CloseAllSnoc(bs: seq<Bucket>, interval: int)
    requires bs != []
    ensures CloseAll(bs, interval) ==
            CloseAll(bs[..|bs| - 1], interval) + [ToCandle(bs[|bs| - 1], true, interval)]
  {
  }

  lemma AllPassSnoc(s: seq<Tick>, t: Tick, w: int, interval: int)
    requires interval > 0 && AllPass(s, |s|, w, interval) && t.ts <= w
    requires s != [] && WindowStart(t.ts, interval) > WindowStart(s[|s| - 1].ts, interval)
             ==> w > WindowStart(s[|s| - 1].ts, interval) + interval
    ensures AllPass(s + [t], |s| + 1, w, interval)
  {
    forall j | 0 <= j < |s| + 1
      ensures Passes(s + [t], j, w, interval)
    {
      if j < |s| {
        assert Passes(s, j, w, interval);
      }
    }
  }

  lemma {:induction false} TakeHeadMid(b: Book, w: int, into: Bucket)
    requires Mid(b, w) && b.feed.pending != [] && b.feed.pending[0].ts <= w
    requires var bs := Fold(b.absorbed, b.feed.interval);
             var t := b.feed.pending[0];
             var start := WindowStart(t.ts, b.feed.interval);
             if b.feed.current.None? then into == OpenBucket(start, t)
             else start == b.feed.current.value.start && into == UpdateBucket(b.feed.current.value, t)
    ensures Mid(TakeHead(b, into), w)
  {
    hide Fold, UpdateBucket, OpenBucket, Passes, WindowStart, ToCandle;
    StartsKept(WindowStart(b.feed.pending[0].ts, b.feed.interval), b.feed.pending[0]);
    var t, bs := b.feed.pending[0], Fold(b.absorbed, b.feed.interval);
    EmptyFold(b.feed.interval);
    FoldSnoc(b.absorbed, t, b.feed.interval);
    assert b.absorbed + [t] + b.feed.pending[1..] == b.absorbed + b.feed.pending;
    if b.absorbed != [] {
      FoldLastStart(b.absorbed, b.feed.interval);
    }
    AllPassSnoc(b.absorbed, t, w, b.feed.interval);
    var cs := Absorb(bs, t, b.feed.interval);
    if b.feed.current.None? {
      assert cs[..|cs| - 1] == bs;
    } else {
      assert cs[..|cs| - 1] == bs[..|bs| - 1];
    }
  }

  lemma {:induction false} CloseMid(b: Book, w: int)
    requires Mid(b, w) && b.feed.current.Some? && Moving(b.feed, b.feed.current.value, w)
    ensures Mid(CloseCurrent(b, b.feed.current.value), w)
  {
    CloseAllSnoc(Fold(b.absorbed, b.feed.interval), b.feed.interval);
  }

  lemma {:induction false} FlushStepMid(b: Book, w: int)
    requires Mid(b, w) && !Stalled(b.feed, w)
    ensures Mid(FlushStep(b, w), w)
    ensures FlushStep(b, w).absorbed + FlushStep(b, w).feed.pending == b.absorbed + b.feed.pending
  {
    var t, interval := b.feed.pending[0], b.feed.interval;
    var start := WindowStart(t.ts, interval);
    HeadNotLate(b, w);
    if b.feed.current.None? {
      TakeHeadMid(b, w, OpenBucket(start, t));
    } else {
      HeadNotBefore(b, w);
      if start == b.feed.current.value.start {
        TakeHeadMid(b, w, UpdateBucket(b.feed.current.value, t));
      } else {
        CloseMid(b, w);
      }
    }
    assert b.absorbed + [t] + b.feed.pending[1..] == b.absorbed + b.feed.pending;
  }

  lemma {:induction false} FlushMid(b: Book, w: int)
    requires Mid(b, w)
    ensures var r := Flush(b, w);
            && Mid(r, w) && Stalled(r.feed, w)
            && r.absorbed + r.feed.pending == b.absorbed + b.feed.pending
    decreases |b.feed.pending|, if b.feed.current.Some? then 1 else 0
  {
    if !Stalled(b.feed, w) {
      FlushStepMid(b, w);
      FlushMid(FlushStep(b, w), w);
    }
  }

  // ---- The state between prints ----

  /** Between prints: nothing dropped, the buffer is the rest of the sorted tape,
      and the flush has gone exactly as far as the watermark lets it. */
  ghost predicate Timely(b: Book) {
    && b.feed.interval > 0 && Sorted(b.feed.pending)
    && b.late == [] && b.lost == 0
    && LastEnd(b)
    && IsNewest(b.feed.maxSeen, b.accepted)
    && b.absorbed + b.feed.pending == StableSort(b.accepted)
    && (b.accepted == [] ==> b.closed == [] && b.feed.current.None?)
    && (b.accepted != [] ==>
          var w := Watermark(b.feed);
          && Booked(b, w)
          && (b.absorbed != [] ==> b.feed.current.Some?)
          && IsFront(StableSort(b.accepted), |b.absorbed|, w, b.feed.interval))
  }

  ghost predicate InTime(f: FeedState, t: Tick) {
    f.maxSeen.Some? ==> t.ts >= Watermark(f)
  }

  lemma PassesPrefix(s: seq<Tick>, rest: seq<Tick>, k: nat, w: int, interval: int)
    requires interval > 0 && k <= |s|
    ensures AllPass(s + rest, k, w, interval) <==> AllPass(s, k, w, interval)
  {
    forall j | 0 <= j < k
      ensures Passes(s + rest, j, w, interval) <==> Passes(s, j, w, interval)
    {
    }
  }

  lemma PassesLater(s: seq<Tick>, k: nat, w: int, w': int, interval: int)
    requires interval > 0 && k <= |s| && w <= w' && AllPass(s, k, w, interval)
    ensures AllPass(s, k, w', interval)
  {
    forall j | 0 <= j < k
      ensures Passes(s, j, w', interval)
    {
      assert Passes(s, j, w, interval);
    }
  }

  /** A tick within the lateness bound goes behind everything already absorbed. */
  lemma {:induction false} AdmitTape(b: Book, p: Print)
    requires Timely(b) && InTime(b.feed, p.tick)
    ensures var a := Admit(b, p);
            a.absorbed + a.feed.pending == StableSort(a.accepted)
  {
    var t := p.tick;
    if b.accepted != [] {
      var w := Watermark(b.feed);
      PassesPrefix(b.absorbed, b.feed.pending, |b.absorbed|, w, b.feed.interval);
      forall x | x in b.absorbed
        ensures x.ts <= t.ts
      {
        var j :| 0 <= j < |b.absorbed| && b.absorbed[j] == x;
        assert Passes(b.absorbed, j, w, b.feed.interval);
      }
    }
    SortAppend(b.accepted, t);
    SortAppend(b.feed.pending, t);
    SortOfSorted(b.feed.pending);
    InsertBehind(b.absorbed, b.feed.pending, t);
  }

  lemma {:induction false} AdmitMid(b: Book, p: Print)
    requires Timely(b) && InTime(b.feed, p.tick)
    ensures var a := Admit(b, p);
            Mid(a, Watermark(a.feed))
  {
    hide StableSort, AllPass, Sorted, SameStamped;
    var a := Admit(b, p);
    var w' := Watermark(a.feed);
    AdmitTape(b, p);
    StableSortSpec(a.accepted);
    if b.accepted == [] {
      NothingYet(b, w');
    } else {
      var w := Watermark(b.feed);
      PassesPrefix(b.absorbed, b.feed.pending, |b.absorbed|, w, b.feed.interval);
      PassesLater(b.absorbed, |b.absorbed|, w, w', b.feed.interval);
    }
  }

  lemma NothingYet(b: Book, w: int)
    requires Timely(b) && b.accepted == []
    ensures b.absorbed == [] && AllPass(b.absorbed, 0, w, b.feed.interval)
  {
    assert b.absorbed + b.feed.pending == [];
  }

  lemma {:induction false} SettleFront(b: Book, w: int)
    requires Mid(b, w) && Stalled(b.feed, w)
    ensures b.absorbed != [] ==> b.feed.current.Some?
    ensures IsFront(b.absorbed + b.feed.pending, |b.absorbed|, w, b.feed.interval)
  {
    var s, k := b.absorbed + b.feed.pending, |b.absorbed|;
    PassesPrefix(b.absorbed, b.feed.pending, k, w, b.feed.interval);
    if b.feed.pending != [] {
      HeadNotLate(b, w);
      assert s[k] == b.feed.pending[0];
      if k > 0 {
        FoldLastStart(b.absorbed, b.feed.interval);
        assert s[k - 1] == b.absorbed[k - 1];
      }
    }
  }

  lemma IsNewestAdmit(b: Book, p: Print)
    requires IsNewest(b.feed.maxSeen, b.accepted)
    ensures IsNewest(Admit(b, p).feed.maxSeen, Admit(b, p).accepted)
  {
    var a := Admit(b, p);
    assert p.tick in a.accepted;
    if b.feed.maxSeen.Some? {
      var t :| t in b.accepted && t.ts == b.feed.maxSeen.value;
      assert t in a.accepted;
      assert a.feed.maxSeen.value == t.ts || a.feed.maxSeen.value == p.tick.ts;
    }
  }

  lemma {:induction false} SettleTimely(r: Book, t: Tick)
    requires r.feed.maxSeen.Some? && r.accepted != [] && r.lost == 0
    requires Mid(r, Watermark(r.feed)) && Stalled(r.feed, Watermark(r.feed))
    requires IsNewest(r.feed.maxSeen, r.accepted)
    requires r.absorbed + r.feed.pending == StableSort(r.accepted)
    ensures Timely(Hold(r, t))
  {
    hide StableSort, AllPass, Fold, Passes, IsNewest, Sorted;
    SettleFront(r, Watermark(r.feed));
    SortedParts(r.absorbed, r.feed.pending);
  }

  lemma TimelyFacts(b: Book)
    requires Timely(b)
    ensures b.feed.interval > 0 && b.lost == 0 && IsNewest(b.feed.maxSeen, b.accepted)
  {
  }

  lemma {:induction false} PushTimely(b: Book, p: Print)
    requires Timely(b) && InTime(b.feed, p.tick)
    ensures Timely(Push(b, p))
  {
    hide StableSort, Flush, Timely, Mid, IsNewest, Newest, Stalled, InTime, Rejected;
    TimelyFacts(b);
    if !Rejected(b.feed, p) {
      var a := Admit(b, p);
      var w := Watermark(a.feed);
      AdmitMid(b, p);
      AdmitTape(b, p);
      IsNewestAdmit(b, p);
      FlushMid(a, w);
      FlushKeepsSettings(a, w);
      SettleTimely(Flush(a, w), p.tick);
    }
  }

  // ---- Tapes ----

  function Tapes(tape: seq<Print>): seq<Event> {
    seq(|tape|, i requires 0 <= i < |tape| => Tape(tape[i]))
  }

  function Ticks(tape: seq<Print>): seq<Tick> {
    seq(|tape|, i requires 0 <= i < |tape| => tape[i].tick)
  }

  /** Each tick is at most the reorder bound older than any that came before it. */
  ghost predicate OnTime(tape: seq<Print>, reorder: int) {
    forall i, j :: 0 <= i < j < |tape| ==> tape[j].tick.ts >= tape[i].tick.ts - reorder
  }

  function Stream(interval: int, reorder: int, maxHistory: nat, tape: seq<Print>): (b: Book)
    requires interval > 0
    ensures b.feed.interval > 0 && b.feed.reorder == reorder
  {
    Play(Fresh(interval, reorder, maxHistory), Tapes(tape))
  }

  lemma {:induction false} StreamSnoc(interval: int, reorder: int, maxHistory: nat, tape: seq<Print>, p: Print)
    requires interval > 0
    ensures Stream(interval, reorder, maxHistory, tape + [p]) ==
            Push(Stream(interval, reorder, maxHistory, tape), p)
  {
    var es := Tapes(tape + [p]);
    assert es[..|es| - 1] == Tapes(tape);
  }

  ghost predicate FromTape(ts: seq<Tick>, tape: seq<Print>) {
    forall t :: t in ts ==> exists i :: 0 <= i < |tape| && tape[i].tick == t
  }

  lemma {:induction false} StreamTimely(interval: int, reorder: int, maxHistory: nat, tape: seq<Print>)
    requires interval > 0 && OnTime(tape, reorder)
    ensures var b := Stream(interval, reorder, maxHistory, tape);
            Timely(b) && FromTape(b.accepted, tape) && b.feed.interval == interval
  {
    if tape != [] {
      var init, p := tape[..|tape| - 1], tape[|tape| - 1];
      assert tape == init + [p];
      hide Stream, Timely, FromTape;
      StreamTimely(interval, reorder, maxHistory, init);
      StreamSnoc(interval, reorder, maxHistory, init, p);
      var b := Stream(interval, reorder, maxHistory, init);
      NextInTime(b, init, p);
      PushTimely(b, p);
      PushFromTape(b, init, p);
    }
  }

  lemma NextInTime(b: Book, tape: seq<Print>, p: Print)
    requires Timely(b) && FromTape(b.accepted, tape) && OnTime(tape + [p], b.feed.reorder)
    ensures InTime(b.feed, p.tick)
  {
    hide Sorted, Booked, IsFront, StableSort;
    if b.feed.maxSeen.Some? {
      var t :| t in b.accepted && t.ts == b.feed.maxSeen.value;
      var i :| 0 <= i < |tape| && tape[i].tick == t;
      assert (tape + [p])[i] == tape[i] && (tape + [p])[|tape|] == p;
    }
  }

  lemma PushFromTape(b: Book, tape: seq<Print>, p: Print)
    requires b.feed.interval > 0 && FromTape(b.accepted, tape)
    ensures FromTape(Push(b, p).accepted, tape + [p])
    ensures Push(b, p).feed.interval == b.feed.interval
  {
    if !Rejected(b.feed, p) {
      var a := Admit(b, p);
      FlushKeepsSettings(a, Watermark(a.feed));
    }
    forall t | t in Push(b, p).accepted
      ensures exists i :: 0 <= i < |tape + [p]| && (tape + [p])[i].tick == t
    {
      if t in b.accepted {
        var i :| 0 <= i < |tape| && tape[i].tick == t;
        assert (tape + [p])[i].tick == t;
      } else {
        assert (tape + [p])[|tape|].tick == t;
      }
    }
  }

  // ---- Main result: streaming is batch ----

  /** Closed candles, then the open bucket. */
  function BucketsOf(b: Book): seq<Bucket> {
    seq(|b.closed|, i requires 0 <= i < |b.closed| => FromCandle(b.closed[i]))
      + (if b.feed.current.Some? then [b.feed.current.value] else [])
  }

  function AbsorbAll(bs: seq<Bucket>, ts: seq<Tick>, interval: int): seq<Bucket>
    requires interval > 0
  {
    if ts == [] then bs else Absorb(AbsorbAll(bs, ts[..|ts| - 1], interval), ts[|ts| - 1], interval)
  }

  lemma {:induction false} AbsorbAllFold(a: seq<Tick>, ts: seq<Tick>, interval: int)
    requires interval > 0
    ensures AbsorbAll(Fold(a, interval), ts, interval) == Fold(a + ts, interval)
  {
    hide Fold, AbsorbAll;
    if ts == [] {
      assert a + ts == a;
      AbsorbAllNothing(Fold(a, interval), interval);
    } else {
      var init, t := ts[..|ts| - 1], ts[|ts| - 1];
      AbsorbAllFold(a, init, interval);
      AbsorbAllFoldNext(a, init, t, interval);
      assert ts == init + [t];
    }
  }

  lemma AbsorbAllNothing(bs: seq<Bucket>, interval: int)
    requires interval > 0
    ensures AbsorbAll(bs, [], interval) == bs
  {
  }

  lemma AbsorbAllFoldNext(a: seq<Tick>, ts: seq<Tick>, t: Tick, interval: int)
    requires interval > 0 && AbsorbAll(Fold(a, interval), ts, interval) == Fold(a + ts, interval)
    ensures AbsorbAll(Fold(a, interval), ts + [t], interval) == Fold(a + (ts + [t]), interval)
  {
    hide Fold, AbsorbAll, Absorb;
    var bs, all := Fold(a, interval), a + ts;
    AbsorbAllNext(bs, ts, t, interval);
    FoldSnoc(all, t, interval);
    assert a + (ts + [t]) == all + [t];
  }

  lemma AbsorbAllNext(bs: seq<Bucket>, ts: seq<Tick>, t: Tick, interval: int)
    requires interval > 0
    ensures AbsorbAll(bs, ts + [t], interval) == Absorb(AbsorbAll(bs, ts, interval), t, interval)
  {
    assert (ts + [t])[..|ts|] == ts;
  }

  lemma {:induction false} BucketsAreFold(b: Book)
    requires Timely(b)
    ensures BucketsOf(b) == Fold(b.absorbed, b.feed.interval)
  {
    if b.accepted != [] {
      var bs := Fold(b.absorbed, b.feed.interval);
      if b.feed.current.Some? {
        assert bs == bs[..|bs| - 1] + [bs[|bs| - 1]];
      }
    } else {
      assert b.absorbed + b.feed.pending == [];
      assert b.absorbed == [];
    }
  }

  /** On every tape within the lateness bound no tick is dropped or lost, and the closed
      candles, the open bucket and the pending ticks together are the batch bucketing of
      the stably sorted tape. */
  lemma {:induction false} StreamingIsBatch(interval: int, reorder: int, maxHistory: nat, tape: seq<Print>)
    requires interval > 0 && OnTime(tape, reorder)
    ensures var b := Stream(interval, reorder, maxHistory, tape);
            && b.late == [] && b.lost == 0
            && IsBatch(AbsorbAll(BucketsOf(b), b.feed.pending, interval), StableSort(b.accepted), interval)
  {
    var b := Stream(interval, reorder, maxHistory, tape);
    StreamTimely(interval, reorder, maxHistory, tape);
    BucketsAreFold(b);
    AbsorbAllFold(b.absorbed, b.feed.pending, interval);
    StableSortSpec(b.accepted);
    FoldIsBatch(StableSort(b.accepted), interval);
  }

  lemma {:induction false} AbsorbAllKeepsClosed(bs: seq<Bucket>, ts: seq<Tick>, interval: int, i: int)
    requires interval > 0 && 0 <= i < |bs| - 1
    ensures i < |AbsorbAll(bs, ts, interval)| - 1 && AbsorbAll(bs, ts, interval)[i] == bs[i]
  {
    if ts != [] {
      AbsorbAllKeepsClosed(bs, ts[..|ts| - 1], interval, i);
    }
  }

  /** A closed candle is final and complete: it is the OHLCV of every tick of the whole
      tape that falls in its window, those still in the reorder buffer included. */
  lemma {:induction false} ClosedCandlesComplete(interval: int, reorder: int, maxHistory: nat, tape: seq<Print>)
    requires interval > 0 && OnTime(tape, reorder)
    ensures var b := Stream(interval, reorder, maxHistory, tape);
            forall i :: 0 <= i < |b.closed| ==>
              && b.closed[i].tsMs == b.closed[i].time + interval
              && Summarises(FromCandle(b.closed[i]), InWindow(StableSort(b.accepted), b.closed[i].time, interval))
  {
    var b := Stream(interval, reorder, maxHistory, tape);
    StreamTimely(interval, reorder, maxHistory, tape);
    StreamingIsBatch(interval, reorder, maxHistory, tape);
    BucketsAreFold(b);
    var bs, all := BucketsOf(b), AbsorbAll(BucketsOf(b), b.feed.pending, interval);
    forall i | 0 <= i < |b.closed|
      ensures b.closed[i].tsMs == b.closed[i].time + interval
      ensures Summarises(FromCandle(b.closed[i]), InWindow(StableSort(b.accepted), b.closed[i].time, interval))
    {
      assert |bs| >= |b.closed| >= 1;
      AbsorbAllKeepsClosed(bs, b.feed.pending, interval, i);
      assert all[i] == FromCandle(b.closed[i]);
    }
  }

  // ---- Main result: the arrival order is forgotten ----

  ghost predicate Genuine(tape: seq<Print>) {
    forall i :: 0 <= i < |tape| ==> tape[i].tick.price > 0.0 && tape[i].tick.ts > 0
  }

  ghost predicate DistinctKeys(tape: seq<Print>) {
    forall i, j :: 0 <= i < j < |tape| ==> KeyOf(tape[i]) != KeyOf(tape[j])
  }

  /** A duplicate-free tape of genuine prints is accepted in full. */
  lemma {:induction false} GenuineAccepted(interval: int, reorder: int, maxHistory: nat, tape: seq<Print>)
    requires interval > 0 && Genuine(tape) && DistinctKeys(tape)
    ensures var b := Stream(interval, reorder, maxHistory, tape);
            && b.accepted == Ticks(tape)
            && |b.keys| == |tape| && (forall i :: 0 <= i < |tape| ==> b.keys[i] == KeyOf(tape[i]))
  {
    if tape != [] {
      var init, p := tape[..|tape| - 1], tape[|tape| - 1];
      assert tape == init + [p];
      hide Push, Coherent, Rejected;
      GenuineAccepted(interval, reorder, maxHistory, init);
      StreamSnoc(interval, reorder, maxHistory, init, p);
      var b := Stream(interval, reorder, maxHistory, init);
      FreshCoherent(interval, reorder, maxHistory);
      PlayCoherent(Fresh(interval, reorder, maxHistory), Tapes(init));
      forall i | 0 <= i < |b.keys|
        ensures b.keys[i] != KeyOf(p)
      {
        assert KeyOf(tape[i]) != KeyOf(tape[|tape| - 1]);
      }
      NewKeyAccepted(b, p);
      PushAccepts(b, p);
    }
  }

  lemma NewKeyAccepted(b: Book, p: Print)
    requires Coherent(b) && p.tick.price > 0.0 && p.tick.ts > 0
    requires forall i :: 0 <= i < |b.keys| ==> b.keys[i] != KeyOf(p)
    ensures !Rejected(b.feed, p)
  {
    hide Sound, Holds;
  }

  lemma PushAccepts(b: Book, p: Print)
    requires b.feed.interval > 0 && !Rejected(b.feed, p)
    ensures Push(b, p).accepted == b.accepted + [p.tick] && Push(b, p).keys == b.keys + [KeyOf(p)]
  {
    hide Flush, Rejected, StableSort;
    var a := Admit(b, p);
    FlushKeepsSettings(a, Watermark(a.feed));
  }

  /** The front of a tape is determined by the tape and the watermark. */
  lemma FrontUnique(s: seq<Tick>, j: nat, k: nat, w: int, interval: int)
    requires interval > 0 && IsFront(s, j, w, interval) && IsFront(s, k, w, interval)
    ensures j == k
  {
  }

  lemma NewestUnique(m: Option<int>, n: Option<int>, a: seq<Tick>, b: seq<Tick>)
    requires IsNewest(m, a) && IsNewest(n, b) && multiset(a) == multiset(b)
    ensures m == n
  {
    assert forall t :: t in a <==> t in multiset(a);
    assert forall t :: t in b <==> t in multiset(b);
    assert |a| == |multiset(a)| == |multiset(b)| == |b|;
  }

  lemma {:induction false} TimelyDetermined(b: Book, c: Book)
    requires Timely(b) && Timely(c)
    requires b.feed.interval == c.feed.interval && b.feed.reorder == c.feed.reorder
    requires multiset(b.accepted) == multiset(c.accepted)
    requires DistinctStamps(b.accepted) && DistinctStamps(c.accepted)
    ensures b.closed == c.closed && b.feed.current == c.feed.current
    ensures b.feed.pending == c.feed.pending && b.feed.maxSeen == c.feed.maxSeen
  {
    SortForgetsArrival(b.accepted, c.accepted);
    NewestUnique(b.feed.maxSeen, c.feed.maxSeen, b.accepted, c.accepted);
    assert |b.accepted| == |multiset(b.accepted)| == |multiset(c.accepted)| == |c.accepted|;
    var s := StableSort(b.accepted);
    if b.accepted != [] {
      FrontUnique(s, |b.absorbed|, |c.absorbed|, Watermark(b.feed), b.feed.interval);
      assert b.absorbed == s[..|b.absorbed|] && c.absorbed == s[..|c.absorbed|];
      assert b.feed.pending == s[|b.absorbed|..] && c.feed.pending == s[|c.absorbed|..];
    } else {
      assert b.absorbed + b.feed.pending == [] && c.absorbed + c.feed.pending == [];
      assert b.feed.pending == [] && c.feed.pending == [];
    }
  }

  /** Two arrival orders of the same prints, both within the lateness bound, end with the
      same closed candles, history, open bucket and reorder buffer. */
  lemma {:induction false} ArrivalOrderForgotten(
      interval: int, reorder: int, maxHistory: nat, tape: seq<Print>, other: seq<Print>)
    requires interval > 0 && OnTime(tape, reorder) && OnTime(other, reorder)
    requires Genuine(tape) && Genuine(other)
    requires DistinctStamps(Ticks(tape)) && DistinctStamps(Ticks(other))
    requires multiset(Ticks(tape)) == multiset(Ticks(other))
    ensures var b, c := Stream(interval, reorder, maxHistory, tape), Stream(interval, reorder, maxHistory, other);
            && b.closed == c.closed && b.feed.history == c.feed.history
            && b.feed.current == c.feed.current && b.feed.pending == c.feed.pending
            && b.feed.finalizedBefore == c.feed.finalizedBefore && b.feed.maxSeen == c.feed.maxSeen
  {
    hide Stream, Timely, OnTime, Genuine, DistinctStamps, DistinctKeys, Ticks;
    StampsDistinguish(tape);
    StampsDistinguish(other);
    GenuineAccepted(interval, reorder, maxHistory, tape);
    GenuineAccepted(interval, reorder, maxHistory, other);
    StreamTimely(interval, reorder, maxHistory, tape);
    StreamTimely(interval, reorder, maxHistory, other);
    StreamHistory(interval, reorder, maxHistory, tape);
    StreamHistory(interval, reorder, maxHistory, other);
    var b, c := Stream(interval, reorder, maxHistory, tape), Stream(interval, reorder, maxHistory, other);
    TimelyDetermined(b, c);
    TimelyEnds(b);
    TimelyEnds(c);
  }

  lemma StreamHistory(interval: int, reorder: int, maxHistory: nat, tape: seq<Print>)
    requires interval > 0
    ensures var b := Stream(interval, reorder, maxHistory, tape);
            b.feed.history == Newest(b.closed, maxHistory)
  {
    hide Play;
    BoundedStoresExact(interval, reorder, maxHistory, Tapes(tape));
  }

  lemma TimelyEnds(b: Book)
    requires Timely(b)
    ensures LastEnd(b)
  {
    hide Sorted, Booked, IsFront, StableSort;
  }

  lemma StampsDistinguish(tape: seq<Print>)
    requires DistinctStamps(Ticks(tape))
    ensures DistinctKeys(tape)
  {
    forall i, j | 0 <= i < j < |tape|
      ensures KeyOf(tape[i]) != KeyOf(tape[j])
    {
      assert Ticks(tape)[i].ts != Ticks(tape)[j].ts;
    }
  }
}
