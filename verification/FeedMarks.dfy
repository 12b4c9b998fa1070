/** When a tick leaves the reorder buffer and a window closes, in terms of the newest accepted
    stamp and the reorder bound alone. */
module FeedMarks {
  import opened Options
  import opened Candles
  import opened TapeSort
  import opened Feed
  import opened FeedRuns
  import opened FeedTimely

  /** m is the newest of the stamps. */
  ghost predicate NewestStamp(ts: seq<Tick>, m: int) {
    (exists i :: 0 <= i < |ts| && ts[i].ts == m) && forall i :: 0 <= i < |ts| ==> ts[i].ts <= m
  }

  // ---- What has left, at any mark ----

  /** Everything that left the buffer was stamped at or before the mark, and every closed window
      ended before it. */
  ghost predicate Left(b: Book, mark: int) {
    && (forall i :: 0 <= i < |b.absorbed| ==> b.absorbed[i].ts <= mark)
    && (forall i :: 0 <= i < |b.late| ==> b.late[i].ts <= mark)
    && (forall i :: 0 <= i < |b.closed| ==> b.closed[i].tsMs < mark)
    && (b.feed.current.Some? ==> b.feed.current.value.start <= mark)
  }

  lemma LeftLater(b: Book, mark: int, later: int)
    requires Left(b, mark) && mark <= later
    ensures Left(b, later)
  {
  }

  lemma {:induction false} FlushLeaves(b: Book, w: int)
    requires b.feed.interval > 0 && Left(b, w)
    ensures Left(Flush(b, w), w)
    decreases |b.feed.pending|, if b.feed.current.Some? then 1 else 0
  {
    if !Stalled(b.feed, w) {
      StepLeaves(b, w);
      FlushLeaves(FlushStep(b, w), w);
    }
  }

  lemma StepLeaves(b: Book, w: int)
    requires b.feed.interval > 0 && Left(b, w) && !Stalled(b.feed, w)
    ensures Left(FlushStep(b, w), w)
  {
  }

  /** In every run, interval switches included: with m the newest accepted stamp, every tick that
      left the buffer is stamped m - reorder or earlier, and every closed window ended before
      m - reorder. Before anything is accepted, nothing has left. */
  lemma {:induction false} NothingLeavesEarly(interval: int, reorder: int, maxHistory: nat, events: seq<Event>)
    requires interval > 0
    ensures var b := Play(Fresh(interval, reorder, maxHistory), events);
            if b.accepted == [] then b.absorbed == [] && b.late == [] && b.closed == []
            else exists m :: NewestStamp(b.accepted, m) && Left(b, m - reorder)
  {
    var start := Fresh(interval, reorder, maxHistory);
    if events != [] {
      hide Flush, Left, NewestStamp, StableSort;
      var init, e := events[..|events| - 1], events[|events| - 1];
      var b := Play(start, init);
      NothingLeavesEarly(interval, reorder, maxHistory, init);
      FreshCoherent(interval, reorder, maxHistory);
      PlayCoherent(start, init);
      if e.Tape? {
        PushLeaves(b, e.arrival);
      } else {
        SwitchLeaves(b, e.interval);
      }
    }
  }

  lemma SwitchLeaves(b: Book, interval: int)
    ensures var r := SetInterval(b, interval);
            && r.accepted == b.accepted && r.absorbed == b.absorbed && r.late == b.late && r.closed == b.closed
            && forall mark :: Left(b, mark) ==> Left(r, mark)
  {
  }

  lemma StampUnique(ts: seq<Tick>, m: int, n: int)
    requires NewestStamp(ts, m) && NewestStamp(ts, n)
    ensures m == n
  {
  }

  /** The newest stamp after one more print, and how it stands to the one before. */
  lemma AdmitNewest(b: Book, p: Print) returns (m: int)
    requires Coherent(b)
    ensures var a := Admit(b, p);
            && NewestStamp(a.accepted, m) && a.feed.maxSeen == Some(m)
            && forall n :: NewestStamp(b.accepted, n) ==> n <= m
  {
    m := Admit(b, p).feed.maxSeen.value;
    NewestOf(b);
    var ts := Admit(b, p).accepted;
    assert ts[|ts| - 1] == p.tick;
    if b.accepted != [] && m != p.tick.ts {
      var i :| 0 <= i < |b.accepted| && b.accepted[i].ts == m;
      assert ts[i].ts == m;
    }
  }

  lemma NewestOf(b: Book)
    requires Coherent(b)
    ensures b.feed.maxSeen.Some? <==> b.accepted != []
    ensures b.accepted != [] ==> NewestStamp(b.accepted, b.feed.maxSeen.value)
  {
    if b.feed.maxSeen.Some? {
      var t :| t in b.accepted && t.ts == b.feed.maxSeen.value;
      var i :| 0 <= i < |b.accepted| && b.accepted[i] == t;
    }
  }

  lemma PushLeaves(b: Book, p: Print)
    requires Coherent(b)
    requires if b.accepted == [] then b.absorbed == [] && b.late == [] && b.closed == []
             else exists m :: NewestStamp(b.accepted, m) && Left(b, m - b.feed.reorder)
    ensures var r := Push(b, p);
            if r.accepted == [] then r.absorbed == [] && r.late == [] && r.closed == []
            else exists m :: NewestStamp(r.accepted, m) && Left(r, m - b.feed.reorder)
  {
    hide Flush, Left, NewestStamp, Coherent, Admit, Hold, Rejected;
    IntervalPositive(b);
    if !Rejected(b.feed, p) {
      var a := Admit(b, p);
      var m := AdmitNewest(b, p);
      AdmitParts(b, p, m);
      AdmittedLeft(b, a, p, m - b.feed.reorder);
      FlushLeaves(a, m - b.feed.reorder);
      HoldLeft(Flush(a, m - b.feed.reorder), p.tick, m - b.feed.reorder);
      FlushKeepsSettings(a, m - b.feed.reorder);
      HoldKeeps(Flush(a, m - b.feed.reorder), p.tick);
    }
  }

  lemma HoldKeeps(b: Book, t: Tick)
    ensures Hold(b, t).accepted == b.accepted
  {
  }

  lemma AdmitParts(b: Book, p: Print, m: int)
    requires Coherent(b) && Admit(b, p).feed.maxSeen == Some(m)
    ensures Watermark(Admit(b, p).feed) == m - b.feed.reorder && Admit(b, p).feed.interval == b.feed.interval
    ensures Admit(b, p).accepted != []
  {
    hide StableSort, Newest;
  }

  lemma AdmittedLeft(b: Book, a: Book, p: Print, w: int)
    requires Coherent(b) && a == Admit(b, p)
    requires b.accepted == [] ==> b.absorbed == [] && b.late == [] && b.closed == []
    requires b.accepted != [] ==> exists n :: NewestStamp(b.accepted, n) && Left(b, n - b.feed.reorder)
    requires forall n :: NewestStamp(b.accepted, n) ==> n - b.feed.reorder <= w
    ensures Left(a, w)
  {
    hide StableSort, Left, NewestStamp, Coherent, Newest;
    if b.accepted == [] {
      FirstLeft(b, a, w);
    } else {
      var n :| NewestStamp(b.accepted, n) && Left(b, n - b.feed.reorder);
      LeftLater(b, n - b.feed.reorder, w);
      AdmitLeft(b, p, w);
    }
  }

  lemma IntervalPositive(b: Book)
    requires Coherent(b)
    ensures b.feed.interval > 0
  {
  }

  lemma FirstLeft(b: Book, a: Book, w: int)
    requires Coherent(b) && b.accepted == [] && b.absorbed == [] && b.late == [] && b.closed == []
    requires a.absorbed == [] && a.late == [] && a.closed == [] && a.feed.current == b.feed.current
    ensures Left(a, w)
  {
    if b.feed.current.Some? {
      assert SumCounts(b.closed) == 0;
    }
  }

  lemma AdmitLeft(b: Book, p: Print, w: int)
    requires Left(b, w)
    ensures Left(Admit(b, p), w)
  {
  }

  lemma HoldLeft(b: Book, t: Tick, w: int)
    requires Left(b, w)
    ensures Left(Hold(b, t), w)
  {
  }

  // ---- What is still held back ----

  /** A pending tick is past the mark, unless both sit exactly on the end of the open window. */
  ghost predicate HeldBack(f: FeedState, mark: int) {
    forall i :: 0 <= i < |f.pending| ==>
      || f.pending[i].ts > mark
      || (f.pending[i].ts == mark && f.current.Some? && mark == f.current.value.start + f.interval)
  }

  /** Right after every accepted print of every run, interval switches before it included: with m
      the newest accepted stamp, no pending tick is stamped m - reorder or earlier, but for those
      on m - reorder when that is the end of the open window. */
  lemma {:induction false} NothingStaysLate(interval: int, reorder: int, maxHistory: nat, events: seq<Event>, p: Print)
    requires interval > 0
    ensures var before := Play(Fresh(interval, reorder, maxHistory), events);
            var b := Play(Fresh(interval, reorder, maxHistory), events + [Tape(p)]);
            b.accepted != before.accepted ==>
              exists m :: NewestStamp(b.accepted, m) && HeldBack(b.feed, m - reorder)
  {
    hide Push, HeldBack, NewestStamp;
    var start := Fresh(interval, reorder, maxHistory);
    FreshCoherent(interval, reorder, maxHistory);
    PlayCoherent(start, events);
    assert (events + [Tape(p)])[..|events|] == events;
    PushHolds(Play(start, events), p);
  }

  lemma PushHolds(b: Book, p: Print)
    requires Coherent(b)
    ensures var r := Push(b, p);
            r.accepted != b.accepted ==> exists m :: NewestStamp(r.accepted, m) && HeldBack(r.feed, m - b.feed.reorder)
  {
    if !Rejected(b.feed, p) {
      hide StableSort, Flush, NewestStamp;
      var a := Admit(b, p);
      var m := AdmitNewest(b, p);
      var w := m - b.feed.reorder;
      assert Watermark(a.feed) == w;
      AdmitSound(b, p);
      FlushLeavesBoundaryOnly(a, w);
      FlushKeepsSettings(a, w);
      var f := Flush(a, w).feed;
      forall i | 0 <= i < |f.pending| && f.pending[i].ts <= w
        ensures f.pending[i].ts == w && f.current.Some? && w == f.current.value.start + f.interval
      {
        assert f.pending[i] in f.pending;
      }
    }
  }

  /** So at a constant interval it holds at every moment of the tape. */
  lemma {:induction false} StreamMarks(interval: int, reorder: int, maxHistory: nat, tape: seq<Print>)
    requires interval > 0
    ensures var b := Stream(interval, reorder, maxHistory, tape);
            if b.accepted == [] then b.feed.pending == [] && b.closed == []
            else exists m :: NewestStamp(b.accepted, m) && Left(b, m - reorder) && HeldBack(b.feed, m - reorder)
  {
    hide Push, HeldBack, NewestStamp, Left, Coherent;
    NothingLeavesEarly(interval, reorder, maxHistory, Tapes(tape));
    StreamHeld(interval, reorder, maxHistory, tape);
    forall m, n | NewestStamp(Stream(interval, reorder, maxHistory, tape).accepted, m) &&
        NewestStamp(Stream(interval, reorder, maxHistory, tape).accepted, n)
      ensures m == n
    {
      StampUnique(Stream(interval, reorder, maxHistory, tape).accepted, m, n);
    }
  }

  lemma {:induction false} StreamHeld(interval: int, reorder: int, maxHistory: nat, tape: seq<Print>)
    requires interval > 0
    ensures var b := Stream(interval, reorder, maxHistory, tape);
            if b.accepted == [] then b.feed.pending == []
            else exists m :: NewestStamp(b.accepted, m) && HeldBack(b.feed, m - reorder)
  {
    if tape != [] {
      hide Push, HeldBack, NewestStamp, Coherent;
      var init, p := tape[..|tape| - 1], tape[|tape| - 1];
      assert tape == init + [p];
      StreamHeld(interval, reorder, maxHistory, init);
      StreamSnoc(interval, reorder, maxHistory, init, p);
      var b := Stream(interval, reorder, maxHistory, init);
      FreshCoherent(interval, reorder, maxHistory);
      PlayCoherent(Fresh(interval, reorder, maxHistory), Tapes(init));
      PushHolds(b, p);
      PushSame(b, p);
    }
  }

  lemma PushSame(b: Book, p: Print)
    requires Coherent(b)
    ensures Push(b, p).accepted == b.accepted ==> Push(b, p) == b
  {
    hide Flush, StableSort;
    if !Rejected(b.feed, p) {
      var a := Admit(b, p);
      FlushKeepsSettings(a, Watermark(a.feed));
      assert |a.accepted| == |b.accepted| + 1;
    }
  }
}
