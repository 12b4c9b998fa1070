/** Concrete runs of the relay in which a plain reading of its promises fails. */
module RelayExamples {
  import opened Options
  import opened Relay
  import opened RelayRuns

  /** Clients 0 and 1, registered in that order, with outboxes a and b. */
  ghost predicate Two(s: State, a: Box, b: Box, counter: nat) {
    && s.clients == map[0 := 0, 1 := 1] && s.order == [0, 1] && s.boxes == [a, b]
    && s.counter == counter && s.suspended == []
  }

  lemma ConnectTwo(cap: nat)
    ensures Two(After([Connected(0), Connected(1)], cap), Start(NEW_BOX), Start(NEW_BOX), 0)
  {
    hide After, Start, Two, Register, Wired;
    var x, y := Connected(0), Connected(1);
    AfterNothing(cap);
    AfterNext([], x, cap);
    AfterNext([x], y, cap);
    assert [] + [x] == [x] && [x] + [y] == [x, y];
    RegisterTwo();
  }

  lemma AfterNothing(cap: nat)
    ensures After([], cap) == EMPTY
  {
  }

  lemma RegisterTwo()
    ensures Wired(Register(EMPTY, 0)) && Two(Register(Register(EMPTY, 0), 1), Start(NEW_BOX), Start(NEW_BOX), 0)
  {
    hide Start;
    var s := Register(EMPTY, 0);
    assert s == State(map[0 := 0], [0], [Start(NEW_BOX)], 0, 0, []);
    var t := Register(s, 1);
    assert t.order == [0, 1];
  }

  lemma TwoWired(s: State, a: Box, b: Box, counter: nat)
    requires Two(s, a, b, counter)
    ensures Wired(s) && s.clients.Values == {0, 1}
  {
    assert s.clients[0] == 0 && s.clients[1] == 1;
  }

  /** A frame for both, with room for it. */
  lemma BroadcastTwo(s: State, a: Box, b: Box, counter: nat, f: Frame, cap: nat)
    requires Two(s, a, b, counter) && Wired(s) && Fits(a, cap) && Fits(b, cap)
    ensures Two(Next(s, Broadcasting(f), cap), Offer(a, Emit(f, counter + 1), cap),
        Offer(b, Emit(f, counter + 1), cap), counter + 1)
  {
    hide Offer, Emit, Fits, Wired;
    TwoWired(s, a, b, counter);
    DeadTwo(s, a, b, counter, cap);
    assert s.clients != map[] by { assert 0 in s.clients; }
  }

  lemma DeadTwo(s: State, a: Box, b: Box, counter: nat, cap: nat)
    requires Two(s, a, b, counter) && Wired(s)
    ensures Fits(a, cap) && Fits(b, cap) ==> Dead(s, s.order, cap) == []
    ensures !Fits(a, cap) && !Fits(b, cap) ==> Dead(s, s.order, cap) == [0, 1]
  {
    hide Fits, Wired;
    assert s.order[1..] == [1] && s.order[1..][1..] == [];
    assert Dead(s, [], cap) == [];
    assert Dead(s, [1], cap) == if Fits(b, cap) then [] else [1];
  }

  /** A frame for the second client, with room for it. */
  lemma SendSecond(s: State, a: Box, b: Box, counter: nat, f: Frame, cap: nat)
    requires Two(s, a, b, counter) && Wired(s) && Fits(b, cap)
    ensures Two(Next(s, Sending(1, f), cap), a, Offer(Start(b), Emit(f, counter + 1), cap), counter + 1)
  {
    hide Offer, Emit;
  }

  lemma TouchSecond(s: State, a: Box, b: Box, counter: nat, cap: nat)
    requires Two(s, a, b, counter) && Wired(s)
    ensures Two(Next(s, Taking(1), cap), a, Take(b), counter)
    ensures Two(Next(s, Delivering(1), cap), a, Deliver(b), counter)
    ensures Two(Next(s, Failing(1), cap), a, Stop(b), counter)
  {
    hide Take, Deliver, Stop;
  }

  /** One more step of a run that is with two clients so far. */
  lemma Step2(run: seq<Step>, e: Step, cap: nat) returns (next: seq<Step>)
    ensures next == run + [e] && Wired(After(run, cap)) && After(next, cap) == Next(After(run, cap), e, cap)
  {
    AfterNext(run, e, cap);
    next := run + [e];
  }

  // ---- A gap without a drop ----

  /** A client can see a gap in the numbers although nothing was dropped: a frame sent to
      another client takes a number of the one counter. */
  lemma GapWithoutDrop(f: Frame, cap: nat)
    requires f.own.None? && cap >= 2
    ensures var s := After([Connected(0), Connected(1)] + [Broadcasting(f)] + [Sending(1, f)] + [Broadcasting(f)], cap);
            && |s.boxes| == 2 && s.boxes[0].overflow == 0 && s.boxes[0].log.lost == 0
            && s.boxes[0].log.accepted == [Emit(f, 1), Emit(f, 3)]
  {
    hide After, Next, Two, Wired, Offer, Start, Emit, Fits;
    var r0, a0 := [Connected(0), Connected(1)], Start(NEW_BOX);
    var a1 := Offer(a0, Emit(f, 1), cap);
    var b2, a3 := Offer(Start(a1), Emit(f, 2), cap), Offer(a1, Emit(f, 3), cap);
    ConnectTwo(cap);
    RoomForTwo(f, cap);
    var r1 := Step2(r0, Broadcasting(f), cap);
    BroadcastTwo(After(r0, cap), a0, a0, 0, f, cap);
    var r2 := Step2(r1, Sending(1, f), cap);
    SendSecond(After(r1, cap), a1, a1, 1, f, cap);
    var r3 := Step2(r2, Broadcasting(f), cap);
    if Fits(b2, cap) {
      BroadcastTwo(After(r2, cap), a1, b2, 2, f, cap);
      BoxesOfTwo(After(r3, cap), a3, Offer(b2, Emit(f, 3), cap), 3);
    } else {
      BroadcastSecondFull(After(r2, cap), a1, b2, 2, f, cap);
    }
  }

  lemma BoxesOfTwo(s: State, a: Box, b: Box, counter: nat)
    requires Two(s, a, b, counter)
    ensures |s.boxes| == 2 && s.boxes[0] == a && s.boxes[1] == b
  {
  }

  /** Room for one and not for the other: the first still gets the frame. */
  lemma BroadcastSecondFull(s: State, a: Box, b: Box, counter: nat, f: Frame, cap: nat)
    requires Two(s, a, b, counter) && Wired(s) && Fits(a, cap) && !Fits(b, cap)
    ensures var r := Next(s, Broadcasting(f), cap);
            |r.boxes| == 2 && r.boxes[0] == Offer(a, Emit(f, counter + 1), cap)
  {
    hide Offer, Emit, Fits, Stop;
    TwoWired(s, a, b, counter);
    assert 0 in s.clients;
    assert s.order[1..] == [1] && s.order[1..][1..] == [];
    assert Dead(s, [], cap) == [];
    assert Dead(s, [1], cap) == [1];
    assert Dead(s, s.order, cap) == [1];
  }

  lemma RoomForTwo(f: Frame, cap: nat)
    requires cap >= 2
    ensures var a0 := Start(NEW_BOX);
            var a1 := Offer(a0, Emit(f, 1), cap);
            var a3 := Offer(a1, Emit(f, 3), cap);
            && Fits(a0, cap) && Fits(a1, cap) && Start(a1) == a1
            && a3.overflow == 0 && a3.log.lost == 0 && a3.log.accepted == [Emit(f, 1), Emit(f, 3)]
  {
  }

  // ---- A skipped frame after a restart ----

  /** A failed write loses its frame; the next send starts the writer again, and what it then
      delivers is no longer a prefix: the client gets the second frame without the first. */
  lemma RestartSkips(f: Frame, cap: nat)
    requires f.own.None? && cap >= 2
    ensures var run := [Connected(0), Connected(1)] + [Sending(1, f)] + [Sending(1, f)] + [Taking(1)] + [Failing(1)]
                         + [Sending(1, f)] + [Taking(1)] + [Delivering(1)];
            var s := After(run, cap);
            && |s.boxes| == 2 && s.boxes[1].log.delivered == [Emit(f, 2)]
            && s.boxes[1].log.accepted == [Emit(f, 1), Emit(f, 2), Emit(f, 3)]
            && !Prefix(s.boxes[1].log.delivered, s.boxes[1].log.accepted)
  {
    hide After, Next, Two, Wired, Offer, Start, Emit, Fits, Take, Deliver, Stop, Prefix;
    var r0, a := [Connected(0), Connected(1)], Start(NEW_BOX);
    var b1 := Offer(Start(a), Emit(f, 1), cap);
    var b2 := Offer(Start(b1), Emit(f, 2), cap);
    var b4 := Stop(Take(b2));
    var b5 := Offer(Start(b4), Emit(f, 3), cap);
    ConnectTwo(cap);
    RestartedBox(f, cap);
    var r1 := Step2(r0, Sending(1, f), cap);
    SendSecond(After(r0, cap), a, a, 0, f, cap);
    var r2 := Step2(r1, Sending(1, f), cap);
    SendSecond(After(r1, cap), a, b1, 1, f, cap);
    var r3 := Step2(r2, Taking(1), cap);
    TouchSecond(After(r2, cap), a, b2, 2, cap);
    var r4 := Step2(r3, Failing(1), cap);
    TouchSecond(After(r3, cap), a, Take(b2), 2, cap);
    var r5 := Step2(r4, Sending(1, f), cap);
    SendSecond(After(r4, cap), a, b4, 2, f, cap);
    var r6 := Step2(r5, Taking(1), cap);
    TouchSecond(After(r5, cap), a, b5, 3, cap);
    var r7 := Step2(r6, Delivering(1), cap);
    TouchSecond(After(r6, cap), a, Take(b5), 3, cap);
    BoxesOfTwo(After(r7, cap), a, Deliver(Take(b5)), 3);
  }

  lemma RestartedBox(f: Frame, cap: nat)
    requires f.own.None? && cap >= 2
    ensures var a := Start(NEW_BOX);
            var b1 := Offer(Start(a), Emit(f, 1), cap);
            var b2 := Offer(Start(b1), Emit(f, 2), cap);
            var b4 := Stop(Take(b2));
            var b := Deliver(Take(Offer(Start(b4), Emit(f, 3), cap)));
            && Fits(a, cap) && Fits(b1, cap) && Fits(b4, cap)
            && b.log.delivered == [Emit(f, 2)] && b.log.accepted == [Emit(f, 1), Emit(f, 2), Emit(f, 3)]
            && !Prefix(b.log.delivered, b.log.accepted)
  {
    var x, y, z := Emit(f, 1), Emit(f, 2), Emit(f, 3);
    var b2 := Offer(Start(Offer(Start(NEW_BOX), x, cap)), y, cap);
    assert b2.queue == [x, y] && b2.log.accepted == [x, y] && b2.running && b2.inFlight.None?;
    var b4 := Stop(Take(b2));
    assert b4.queue == [y] && b4.log.delivered == [] && b4.log.accepted == [x, y] && b4.inFlight.None?;
    var b5 := Offer(Start(b4), z, cap);
    assert b5.queue == [y, z] && b5.log.accepted == [x, y, z] && b5.log.delivered == [] && b5.running;
    assert Take(b5).inFlight == Some(y);
    assert [y] != [x, y, z][..1];
  }

  // ---- A full client that lingers ----

  /** n frames for everyone. */
  function Frames(f: Frame, n: nat): seq<Step> {
    if n == 0 then [Connected(0), Connected(1)] else Frames(f, n - 1) + [Broadcasting(f)]
  }

  ghost predicate Filled(b: Box, n: nat) {
    |b.queue| == n && b.overflow == 0
  }

  lemma {:induction false} Fill(f: Frame, n: nat, cap: nat) returns (a: Box, b: Box)
    requires n <= cap
    ensures Two(After(Frames(f, n), cap), a, b, n) && Filled(a, n) && Filled(b, n)
  {
    hide After, Next, Two, Wired, Offer, Emit;
    if n == 0 {
      ConnectTwo(cap);
      a, b := Start(NEW_BOX), Start(NEW_BOX);
    } else {
      var c, d := Fill(f, n - 1, cap);
      var run := Step2(Frames(f, n - 1), Broadcasting(f), cap);
      BroadcastTwo(After(Frames(f, n - 1), cap), c, d, n - 1, f, cap);
      a, b := Offer(c, Emit(f, n), cap), Offer(d, Emit(f, n), cap);
      FillOne(c, Emit(f, n), n - 1, cap);
      FillOne(d, Emit(f, n), n - 1, cap);
    }
  }

  lemma FillOne(b: Box, x: Sent, n: nat, cap: nat)
    requires Filled(b, n) && n < cap
    ensures Filled(Offer(b, x, cap), n + 1)
  {
  }

  /** When a broadcast finds two clients full, only the first goes at once: for every cap there
      is a run after which the second has refused a frame and is still registered. */
  lemma FullClientLingers(f: Frame, cap: nat)
    ensures var s := After(Frames(f, cap + 1), cap);
            && 0 !in s.clients && 1 in s.clients && Doomed(s, 1)
            && s.clients[1] == 1 && |s.boxes| == 2 && s.boxes[1].overflow == 1
  {
    hide After, Next, Two, Wired, Offer, Emit, Doomed;
    var a, b := Fill(f, cap, cap);
    var run := Step2(Frames(f, cap), Broadcasting(f), cap);
    BroadcastBothFull(After(Frames(f, cap), cap), a, b, cap, f, cap);
    OfferRefuses(b, Emit(f, cap + 1), cap);
  }

  lemma BroadcastBothFull(s: State, a: Box, b: Box, counter: nat, f: Frame, cap: nat)
    requires Two(s, a, b, counter) && Wired(s) && !Fits(a, cap) && !Fits(b, cap)
    ensures var r := Next(s, Broadcasting(f), cap);
            && 0 !in r.clients && 1 in r.clients && Doomed(r, 1)
            && r.clients[1] == 1 && |r.boxes| == 2 && r.boxes[1] == Offer(b, Emit(f, counter + 1), cap)
  {
    hide Offer, Emit, Fits, Stop, Wired, Doomed;
    TwoWired(s, a, b, counter);
    DeadTwo(s, a, b, counter, cap);
    assert 0 in s.clients;
    var t := Spread(s, f, cap).(suspended := [[Removal(1, 1)]]);
    SpreadOfTwo(s, a, b, counter, f, cap);
    assert [0, 1][1..] == [1] && Removals(s, [1]) == [Removal(1, 1)];
    assert s.suspended + [Removals(s, [1])] == [[Removal(1, 1)]];
    OneDoomed(t);
    DropWired(t, 0);
    SameDoom(t, Drop(t, 0), 1);
  }

  lemma OneDoomed(t: State)
    requires t.suspended == [[Removal(1, 1)]] && 1 in t.clients && t.clients[1] == 1
    ensures Doomed(t, 1)
  {
    assert Removal(1, 1) in t.suspended[0];
  }

  lemma SpreadOfTwo(s: State, a: Box, b: Box, counter: nat, f: Frame, cap: nat)
    requires Two(s, a, b, counter) && Wired(s)
    ensures var t := Spread(s, f, cap).(suspended := [[Removal(1, 1)]]);
            && Wired(t) && t.clients == s.clients && |t.boxes| == 2 && t.boxes[1] == Offer(b, Emit(f, counter + 1), cap)
            && Drop(t, 0).boxes[1] == t.boxes[1]
  {
    hide Offer, Emit, Stop;
    TwoWired(s, a, b, counter);
  }
}
