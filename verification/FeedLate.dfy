/** Late ticks: at a constant interval, exactly which prints the feed drops, and when. */
module FeedLate {
  import opened Options
  import opened Candles
  import opened TapeSort
  import opened BatchFold
  import opened Feed
  import opened FeedRuns
  import opened FeedTimely

  /** The tick's window begins neither before the open window nor before the end of the last
      closed one. */
  predicate Placeable(f: FeedState, t: Tick)
    requires f.interval > 0
  {
    var start := WindowStart(t.ts, f.interval);
    !TooLate(f, start) && (f.current.Some? ==> f.current.value.start <= start)
  }

  ghost predicate AllPlaceable(f: FeedState, ts: seq<Tick>)
    requires f.interval > 0
  {
    forall i :: 0 <= i < |ts| ==> Placeable(f, ts[i])
  }

  /** The watermark has reached the open window and the end of the last closed one, both on the
      grid of the interval. */
  ghost predicate Reached(f: FeedState, w: int) {
    && f.interval > 0
    && (f.current.Some? ==> f.current.value.start <= w && Aligned(f.current.value.start, f.interval))
    && (f.finalizedBefore.Some? ==> f.finalizedBefore.value <= w && Aligned(f.finalizedBefore.value, f.interval))
  }

  /** What the flush loop keeps while every pending tick can still be placed. */
  ghost predicate Open(b: Book, w: int) {
    Sound(b) && AllPlaceable(b.feed, b.feed.pending) && Reached(b.feed, w)
  }

  lemma LaterPlaceable(f: FeedState, t: Tick, u: Tick)
    requires f.interval > 0 && t.ts <= u.ts && Placeable(f, t)
    ensures Placeable(f, u)
  {
    WindowStartMonotone(t.ts, u.ts, f.interval);
  }

  /** The head has a bucket: what is open or done by then lies before every pending tick. */
  lemma TakeHeadOpen(b: Book, w: int, into: Bucket)
    requires Open(b, w) && b.feed.pending != [] && b.feed.pending[0].ts <= w
    requires Sound(TakeHead(b, into)) && into.start == WindowStart(b.feed.pending[0].ts, b.feed.interval)
    ensures Open(TakeHead(b, into), w)
  {
    hide Sound;
    var f, t := TakeHead(b, into).feed, b.feed.pending[0];
    assert Placeable(b.feed, t) && Placeable(f, t);
    PendingSorted(b);
    forall i | 0 <= i < |f.pending|
      ensures Placeable(f, f.pending[i])
    {
      assert f.pending[i] == b.feed.pending[i + 1];
      LaterPlaceable(f, t, f.pending[i]);
    }
  }

  lemma PendingSorted(b: Book)
    requires Sound(b)
    ensures b.feed.interval > 0
    ensures forall i :: 0 <= i < |b.feed.pending| ==> b.feed.pending[0].ts <= b.feed.pending[i].ts
  {
  }

  /** Closing the open window leaves every pending tick behind its end. */
  lemma CloseOpen(b: Book, w: int)
    requires Open(b, w) && b.feed.current.Some? && b.feed.pending != []
    requires WindowStart(b.feed.pending[0].ts, b.feed.interval) > b.feed.current.value.start
    requires w > b.feed.current.value.start + b.feed.interval
    ensures Open(CloseCurrent(b, b.feed.current.value), w)
  {
    var c, t, interval := b.feed.current.value, b.feed.pending[0], b.feed.interval;
    var r := CloseCurrent(b, c);
    CloseCurrentSound(b);
    CurrentAligned(b);
    hide Sound;
    AlignedGap(c.start, WindowStart(t.ts, interval), interval);
    NextAligned(c.start, interval);
    PendingSorted(b);
    assert Placeable(r.feed, t);
    forall i | 0 <= i < |r.feed.pending|
      ensures Placeable(r.feed, r.feed.pending[i])
    {
      LaterPlaceable(r.feed, t, r.feed.pending[i]);
    }
  }

  lemma NextAligned(start: int, interval: int)
    requires interval > 0 && Aligned(start, interval)
    ensures Aligned(start + interval, interval)
  {
    QuotientUnique(start + interval, start / interval + 1, interval);
  }

  /** A window that begins before a grid line ends by it. */
  lemma BeforeLine(t: Tick, line: int, interval: int)
    requires interval > 0 && Aligned(line, interval) && WindowStart(t.ts, interval) < line
    ensures t.ts < line
  {
    hide WindowStart;
    AlignedGap(WindowStart(t.ts, interval), line, interval);
  }

  lemma CurrentAligned(b: Book)
    requires Sound(b) && b.feed.current.Some?
    ensures b.feed.interval > 0 && Aligned(b.feed.current.value.start, b.feed.interval)
  {
  }

  lemma FlushStepOpen(b: Book, w: int)
    requires Open(b, w) && !Stalled(b.feed, w)
    ensures Open(FlushStep(b, w), w) && FlushStep(b, w).late == b.late
  {
    hide Sound;
    var t, interval := b.feed.pending[0], b.feed.interval;
    var start := WindowStart(t.ts, interval);
    FlushStepSound(b, w);
    assert Placeable(b.feed, t);
    if b.feed.current.None? {
      TakeHeadOpen(b, w, OpenBucket(start, t));
    } else if start == b.feed.current.value.start {
      TakeHeadOpen(b, w, UpdateBucket(b.feed.current.value, t));
    } else {
      CloseOpen(b, w);
    }
  }

  /** A flush never drops a tick that can still be placed. */
  lemma {:induction false} FlushOpen(b: Book, w: int)
    requires Open(b, w)
    ensures Open(Flush(b, w), w) && Flush(b, w).late == b.late
    decreases |b.feed.pending|, if b.feed.current.Some? then 1 else 0
  {
    hide Open;
    assert b.feed.interval > 0 by {
      PendingIntervals(b, w);
    }
    if !Stalled(b.feed, w) {
      FlushStepOpen(b, w);
      FlushOpen(FlushStep(b, w), w);
    }
  }

  lemma PendingIntervals(b: Book, w: int)
    requires Open(b, w)
    ensures b.feed.interval > 0
  {
  }

  // ---- One print ----

  /** Between prints. */
  ghost predicate Settled(b: Book) {
    && Coherent(b) && AllPlaceable(b.feed, b.feed.pending)
    && (if b.feed.maxSeen.Some? then Reached(b.feed, Watermark(b.feed))
        else b.feed.current.None? && b.feed.finalizedBefore.None?)
  }

  /** A tick that cannot be placed is older than all that can. */
  lemma UnplaceableFirst(b: Book, p: Print)
    requires Settled(b) && !Rejected(b.feed, p) && !Placeable(b.feed, p.tick)
    ensures Admit(b, p).feed.pending == [p.tick] + b.feed.pending
  {
    hide Coherent;
    PendingOf(b);
    SortAppend(b.feed.pending, p.tick);
    SortOfSorted(b.feed.pending);
    forall i | 0 <= i < |b.feed.pending|
      ensures p.tick.ts < b.feed.pending[i].ts
    {
      if b.feed.pending[i].ts <= p.tick.ts {
        assert Placeable(b.feed, b.feed.pending[i]);
        LaterPlaceable(b.feed, b.feed.pending[i], p.tick);
      }
    }
    InsertFront(b.feed.pending, p.tick);
  }

  lemma PendingOf(b: Book)
    requires Coherent(b)
    ensures b.feed.interval > 0 && Sorted(b.feed.pending)
  {
  }

  lemma {:induction false} InsertFront(s: seq<Tick>, t: Tick)
    requires forall i :: 0 <= i < |s| ==> t.ts < s[i].ts
    ensures Insert(s, t) == [t] + s
  {
    if s != [] {
      InsertFront(s[..|s| - 1], t);
      assert s == s[..|s| - 1] + [s[|s| - 1]];
    } else {
      assert s + [t] == [t] + s;
    }
  }

  lemma AdmitPlaceable(b: Book, p: Print)
    requires Settled(b) && Placeable(b.feed, p.tick)
    ensures AllPlaceable(Admit(b, p).feed, Admit(b, p).feed.pending)
  {
    var before, f := b.feed.pending + [p.tick], Admit(b, p).feed;
    StableSortSpec(before);
    forall i | 0 <= i < |f.pending|
      ensures Placeable(f, f.pending[i])
    {
      assert f.pending[i] in multiset(f.pending);
      assert f.pending[i] in before;
    }
  }

  /** The print's watermark has reached what the last one's had. */
  lemma AdmitReached(b: Book, p: Print)
    requires Settled(b)
    ensures var f := Admit(b, p).feed;
            Reached(f, Watermark(f)) && f.current == b.feed.current && f.finalizedBefore == b.feed.finalizedBefore
  {
  }

  /** The watermark has reached an unplaceable tick, and the loop drops it. */
  lemma DropNow(f: FeedState, w: int, t: Tick)
    requires Reached(f, w) && f.pending != [] && f.pending[0] == t && !Placeable(f, t)
    ensures !Stalled(f, w)
  {
    hide WindowStart, Aligned;
    var start := WindowStart(t.ts, f.interval);
    if f.current.Some? && start < f.current.value.start {
      BeforeLine(t, f.current.value.start, f.interval);
    } else {
      BeforeLine(t, f.finalizedBefore.value, f.interval);
    }
  }

  /** The unplaceable head goes in the first turn. */
  lemma DropFirst(a: Book, w: int, t: Tick, rest: seq<Tick>)
    requires Sound(a) && a.feed.pending == [t] + rest && !Placeable(a.feed, t) && Reached(a.feed, w)
    requires AllPlaceable(a.feed, rest)
    ensures Flush(a, w).late == a.late + [t] && Open(Flush(a, w), w)
  {
    hide Sound, WindowStart, Aligned;
    DropNow(a.feed, w, t);
    FlushStepSound(a, w);
    var b := FlushStep(a, w);
    assert b == DropHead(a);
    RestPlaceable(a.feed, b.feed, rest);
    FlushOpen(b, w);
  }

  lemma RestPlaceable(f: FeedState, g: FeedState, rest: seq<Tick>)
    requires f.interval == g.interval > 0 && f.current == g.current && f.finalizedBefore == g.finalizedBefore
    requires AllPlaceable(f, rest)
    ensures AllPlaceable(g, rest)
  {
    assert forall i :: 0 <= i < |rest| ==> Placeable(f, rest[i]);
  }

  /** One print drops nothing but its own tick, and that exactly when the tick is accepted and its
      window begins before the open window or before the end of the last closed one. */
  lemma {:induction false} PushDrops(b: Book, p: Print)
    requires Settled(b)
    ensures Settled(Push(b, p))
    ensures Push(b, p).late ==
              b.late + (if !Rejected(b.feed, p) && !Placeable(b.feed, p.tick) then [p.tick] else [])
  {
    hide Coherent, Sound, Flush, AllPlaceable, Reached, Placeable, StableSort;
    if !Rejected(b.feed, p) {
      var a := Admit(b, p);
      var w := Watermark(a.feed);
      CoherentSound(b);
      AdmitSound(b, p);
      AdmitReached(b, p);
      PushCoherent(b, p);
      FlushKeepsSettings(a, w);
      SamePlaces(b.feed, a.feed);
      if Placeable(b.feed, p.tick) {
        AdmitPlaceable(b, p);
        FlushOpen(a, w);
      } else {
        UnplaceableFirst(b, p);
        DropFirst(a, w, p.tick, b.feed.pending);
      }
      HoldPlaces(Flush(a, w), p.tick, w);
    }
  }

  lemma CoherentSound(b: Book)
    requires Coherent(b)
    ensures Sound(b) && b.feed.interval > 0
  {
  }

  /** Whether a tick can be placed is a matter of the windows alone. */
  lemma SamePlaces(f: FeedState, g: FeedState)
    requires f.interval == g.interval > 0 && f.current == g.current && f.finalizedBefore == g.finalizedBefore
    ensures forall t :: Placeable(f, t) <==> Placeable(g, t)
    ensures forall ts :: AllPlaceable(f, ts) <==> AllPlaceable(g, ts)
  {
    forall ts
      ensures AllPlaceable(f, ts) <==> AllPlaceable(g, ts)
    {
      assert forall i :: 0 <= i < |ts| ==> (Placeable(f, ts[i]) <==> Placeable(g, ts[i]));
    }
  }

  lemma HoldPlaces(r: Book, t: Tick, w: int)
    requires Open(r, w) && r.feed.interval > 0
    ensures AllPlaceable(Hold(r, t).feed, r.feed.pending) && Reached(Hold(r, t).feed, w)
  {
    hide AllPlaceable;
    SamePlaces(r.feed, Hold(r, t).feed);
  }

  // ---- Over every run at a constant interval ----

  lemma {:induction false} StreamSettled(interval: int, reorder: int, maxHistory: nat, tape: seq<Print>)
    requires interval > 0
    ensures Settled(Stream(interval, reorder, maxHistory, tape))
  {
    if tape == [] {
      FreshCoherent(interval, reorder, maxHistory);
    } else {
      var init, p := tape[..|tape| - 1], tape[|tape| - 1];
      assert tape == init + [p];
      hide Stream, Settled;
      StreamSettled(interval, reorder, maxHistory, init);
      StreamSnoc(interval, reorder, maxHistory, init, p);
      PushDrops(Stream(interval, reorder, maxHistory, init), p);
    }
  }

  /** Whatever came before and in whatever order: the next print drops nothing but its own tick,
      and does so if and only if the tick is accepted and its window begins before the open window
      or before the end of the last closed one. */
  lemma {:induction false} LateExact(interval: int, reorder: int, maxHistory: nat, tape: seq<Print>, p: Print)
    requires interval > 0
    ensures var b := Stream(interval, reorder, maxHistory, tape);
            var next := Stream(interval, reorder, maxHistory, tape + [p]);
            next.late == b.late + (if !Rejected(b.feed, p) && !Placeable(b.feed, p.tick) then [p.tick] else [])
  {
    hide Stream, Settled, Rejected, Placeable;
    StreamSettled(interval, reorder, maxHistory, tape);
    StreamSnoc(interval, reorder, maxHistory, tape, p);
    PushDrops(Stream(interval, reorder, maxHistory, tape), p);
  }
}
