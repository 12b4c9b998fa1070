/** What holds after every run of the relay, and what its numbers tell a client. */
module RelayRuns {
  import opened Options
  import opened Relay

  // ---- Order ----

  /** At any moment of any run an outbox is within its cap; what its writer fetched followed by
      what is queued is what it took in, so frames leave in the order they came; and every
      frame it took in is delivered, lost with a writer, in flight or queued. */
  lemma QueuesKeepOrder(steps: seq<Step>, cap: nat, i: nat)
    requires i < |After(steps, cap).boxes|
    ensures var b := After(steps, cap).boxes[i];
            && |b.queue| <= cap
            && b.log.accepted == b.log.taken + b.queue
            && |b.log.accepted| == |b.log.delivered| + b.log.lost + |Flying(b)| + |b.queue|
  {
    BoxIsOk(After(steps, cap), i, cap);
  }

  /** In every run, restarts included, what an outbox delivered is what it took in with some
      frames left out: never reordered, never repeated. */
  lemma DeliveredInOrder(steps: seq<Step>, cap: nat, i: nat)
    requires i < |After(steps, cap).boxes|
    ensures var b := After(steps, cap).boxes[i];
            SubSeq(b.log.delivered, b.log.accepted)
  {
    hide SubSeq, After;
    var b := After(steps, cap).boxes[i];
    BoxIsOk(After(steps, cap), i, cap);
    if b.inFlight.Some? {
      SubDrop(b.log.delivered, b.inFlight.value, b.log.taken);
    } else {
      assert b.log.delivered + [] == b.log.delivered;
    }
    SubMore(b.log.delivered, b.log.taken, b.queue);
  }

  /** The delivered frames are a prefix of those taken in, with nothing left out, exactly when
      nothing was delivered after the first loss: always when the frame lost first is stamped,
      and for one with a number of its own unless the very same frame is enqueued again. */
  lemma {:induction false} DeliveredIsPrefixIff(steps: seq<Step>, cap: nat, i: nat)
    requires i < |After(steps, cap).boxes|
    requires var log := After(steps, cap).boxes[i].log;
             log.cut.Some? && log.cut.value < |log.accepted| && !log.accepted[log.cut.value].stamped ==>
               forall k :: log.cut.value < k < |log.accepted| ==> log.accepted[k] != log.accepted[log.cut.value]
    ensures var log := After(steps, cap).boxes[i].log;
            Prefix(log.delivered, log.accepted) <==> log.cut.None? || |log.delivered| == log.cut.value
  {
    hide After, SubSeq;
    var b := After(steps, cap).boxes[i];
    BoxIsOk(After(steps, cap), i, cap);
    NumbersIncrease(steps, cap, i);
    PrefixOfBox(b, cap);
  }

  lemma PrefixOfBox(b: Box, cap: nat)
    requires BoxOk(b, cap)
    requires b.log.cut.Some? ==> forall k :: b.log.cut.value < k < |b.log.accepted| ==>
        b.log.accepted[k] != b.log.accepted[b.log.cut.value]
    ensures Prefix(b.log.delivered, b.log.accepted) <==> b.log.cut.None? || |b.log.delivered| == b.log.cut.value
  {
    hide SubSeq;
    var log := b.log;
    if log.cut.None? {
      assert log.accepted == log.delivered + (Flying(b) + b.queue);
    } else {
      var d := log.cut.value;
      if |log.delivered| > d {
        var later := log.delivered[d..] + Flying(b);
        assert later[0] == log.delivered[d];
        SubMember(later, log.taken[d + 1..], log.delivered[d]);
        var k :| 0 <= k < |log.taken[d + 1..]| && log.taken[d + 1..][k] == log.delivered[d];
        assert log.accepted[d + 1 + k] == log.delivered[d];
        assert log.accepted[d] == log.taken[d];
      } else {
        assert log.delivered == log.taken[..d];
        assert log.accepted[..d] == log.taken[..d];
      }
    }
  }

  /** A frame that does not fit is never skipped over: in every run the outbox of a registered
      client has refused a frame if and only if some suspended broadcast is still to remove the
      client with that very outbox. */
  lemma NothingSkipped(steps: seq<Step>, cap: nat, w: Socket)
    requires w in After(steps, cap).clients
    ensures var s := After(steps, cap);
            && s.clients[w] < |s.boxes|
            && (s.boxes[s.clients[w]].log.offered != s.boxes[s.clients[w]].log.accepted <==> Doomed(s, w))
  {
    var s := After(steps, cap);
    BoxIsOk(s, s.clients[w], cap);
    OnlyRefusers(s, w, cap);
  }

  lemma OnlyRefusers(s: State, w: Socket, cap: nat)
    requires Inv(s, cap) && w in s.clients
    ensures s.clients[w] < |s.boxes| && (s.boxes[s.clients[w]].overflow > 0 <==> Doomed(s, w))
  {
    hide BoxesOk;
  }

  /** A direct send never leaves a full client behind: after any run the client is registered if
      and only if its outbox took the frame. */
  lemma SendDecides(steps: seq<Step>, cap: nat, w: Socket, f: Frame)
    requires cap > 0
    ensures var before, s := After(steps, cap), After(steps + [Sending(w, f)], cap);
            && (w in s.clients <==> w !in before.clients || Fits(before.boxes[before.clients[w]], cap))
            && (w in s.clients ==>
                  s.clients[w] < |s.boxes| &&
                  Emit(f, s.counter) in s.boxes[s.clients[w]].log.accepted && s.counter == before.counter + 1)
            && (forall v :: v != w ==> (v in s.clients <==> v in before.clients))
  {
    hide After, Send, Emit;
    var before := After(steps, cap);
    AfterNext(steps, Sending(w, f), cap);
    OverfullSendRemoves(before, w, f, cap);
    SendTakes(before, w, f, cap);
  }

  lemma SendTakes(s: State, w: Socket, f: Frame, cap: nat)
    requires Inv(s, cap)
    ensures var t := Send(s, w, f, cap);
            w in t.clients ==>
              && t.counter == s.counter + 1 && t.clients[w] < |t.boxes|
              && Emit(f, t.counter) in t.boxes[t.clients[w]].log.accepted
  {
    hide BoxesOk, NoSkip, Owed, Drop, Register, Emit;
    RegisterWired(s, w);
    var r := Register(s, w);
    OfferedWired(r, w, f, cap);
    DropWired(Offered(r, w, f, cap), w);
    var b, x := r.boxes[r.clients[w]], Emit(f, r.counter + 1);
    assert (b.log.accepted + [x])[|b.log.accepted|] == x;
  }

  // ---- Numbers ----

  /** One use of the counter: the frame, the outboxes it was offered to, those that had room. */
  datatype Emission = Emission(frame: Frame, offeredTo: set<nat>, takenBy: set<nat>)

  /** What a step emits, if it does. */
  ghost function Emits(s: State, e: Step, cap: nat): Option<Emission>
    requires Wired(s)
  {
    match e
    case Sending(w, f) =>
      RegisterWired(s, w);
      var r := Register(s, w);
      var id := r.clients[w];
      Some(Emission(f, {id}, if Fits(r.boxes[id], cap) then {id} else {}))
    case Broadcasting(f) =>
      if s.clients == map[] then None
      else Some(Emission(f, s.clients.Values, set i | i in s.clients.Values && i < |s.boxes| && Fits(s.boxes[i], cap)))
    case _ => None
  }

  /** All emissions of a run: the v-th used the number v. */
  ghost function Emissions(steps: seq<Step>, cap: nat): seq<Emission>
    decreases |steps|
  {
    if steps == [] then []
    else
      var init := steps[..|steps| - 1];
      var m := Emits(After(init, cap), steps[|steps| - 1], cap);
      Emissions(init, cap) + if m.Some? then [m.value] else []
  }

  /** The frames of the emissions that were offered to (or taken by) outbox i, with their numbers. */
  function Numbered(em: seq<Emission>, i: nat, taken: bool): seq<Sent> {
    if em == [] then []
    else
      var last := em[|em| - 1];
      Numbered(em[..|em| - 1], i, taken) + if i in (if taken then last.takenBy else last.offeredTo)
          then [Emit(last.frame, |em|)] else []
  }

  lemma NumberedNext(em: seq<Emission>, m: Emission, i: nat, taken: bool)
    ensures Numbered(em + [m], i, taken) ==
              Numbered(em, i, taken) + if i in (if taken then m.takenBy else m.offeredTo)
                  then [Emit(m.frame, |em| + 1)] else []
  {
    assert (em + [m])[..|em|] == em;
  }

  /** The records of every outbox are what the emissions say. */
  ghost predicate Told(s: State, em: seq<Emission>) {
    && s.counter == |em|
    && (forall i :: 0 <= i < |s.boxes| ==>
          s.boxes[i].log.offered == Numbered(em, i, false) && s.boxes[i].log.accepted == Numbered(em, i, true))
    && forall i :: i >= |s.boxes| ==> Numbered(em, i, false) == [] && Numbered(em, i, true) == []
  }

  /** Same records: the same outboxes up to queues, writers and what was delivered; new ones are
      empty. */
  ghost predicate SameRecords(s: State, t: State) {
    && |s.boxes| <= |t.boxes| && t.counter == s.counter
    && (forall i :: 0 <= i < |s.boxes| ==>
          t.boxes[i].log.offered == s.boxes[i].log.offered && t.boxes[i].log.accepted == s.boxes[i].log.accepted)
    && forall i :: |s.boxes| <= i < |t.boxes| ==> t.boxes[i].log.offered == [] && t.boxes[i].log.accepted == []
  }

  lemma SameTold(s: State, t: State, em: seq<Emission>)
    requires Told(s, em) && SameRecords(s, t)
    ensures Told(t, em)
  {
    hide Numbered;
  }

  /** One emission more on the record of each outbox. */
  ghost predicate OneMore(s: State, t: State, m: Emission) {
    && |t.boxes| == |s.boxes| && t.counter == s.counter + 1
    && (forall i :: i in m.offeredTo || i in m.takenBy ==> i < |s.boxes|)
    && forall i :: 0 <= i < |s.boxes| ==>
         var x := Emit(m.frame, s.counter + 1);
         && t.boxes[i].log.offered == s.boxes[i].log.offered + (if i in m.offeredTo then [x] else [])
         && t.boxes[i].log.accepted == s.boxes[i].log.accepted + (if i in m.takenBy then [x] else [])
  }

  lemma MoreTold(s: State, t: State, em: seq<Emission>, m: Emission)
    requires Told(s, em) && OneMore(s, t, m)
    ensures Told(t, em + [m])
  {
    hide Numbered, Emit;
    forall i: nat, taken
      ensures Numbered(em + [m], i, taken) ==
                Numbered(em, i, taken) + if i in (if taken then m.takenBy else m.offeredTo)
                    then [Emit(m.frame, |em| + 1)] else []
    {
      NumberedNext(em, m, i, taken);
    }
  }

  lemma BoxRecords(b: Box, x: Sent, cap: nat)
    ensures Start(b).log == b.log
    ensures Take(b).log.offered == b.log.offered && Take(b).log.accepted == b.log.accepted
    ensures Deliver(b).log.offered == b.log.offered && Deliver(b).log.accepted == b.log.accepted
    ensures Stop(b).log.offered == b.log.offered && Stop(b).log.accepted == b.log.accepted
    ensures Offer(b, x, cap).log.offered == b.log.offered + [x]
    ensures Offer(b, x, cap).log.accepted == b.log.accepted + if Fits(b, cap) then [x] else []
    ensures Start(b).queue == b.queue
  {
  }

  lemma DropRecords(s: State, w: Socket)
    requires Wired(s)
    ensures SameRecords(s, Drop(s, w)) && |Drop(s, w).boxes| == |s.boxes|
  {
    hide Stop;
    if w in s.clients {
      BoxRecords(s.boxes[s.clients[w]], Emit(Frame("", "", None), 0), 0);
    }
  }

  lemma RegisterRecords(s: State, w: Socket)
    requires Wired(s)
    ensures SameRecords(s, Register(s, w))
  {
  }

  lemma SendRecords(s: State, w: Socket, f: Frame, cap: nat)
    requires Wired(s)
    ensures Wired(Register(s, w)) && OneMore(Register(s, w), Send(s, w, f, cap), Emits(s, Sending(w, f), cap).value)
  {
    hide Register, Offer, Drop, Emit, Fits;
    RegisterWired(s, w);
    var r := Register(s, w);
    var id, x := r.clients[w], Emit(f, r.counter + 1);
    OfferedWired(r, w, f, cap);
    BoxRecords(r.boxes[id], x, cap);
    DropRecords(Offered(r, w, f, cap), w);
  }

  lemma BroadcastEmits(s: State, f: Frame, cap: nat)
    requires Wired(s) && s.clients != map[]
    ensures var m := Emits(s, Broadcasting(f), cap);
            && m.Some? && m.value.frame == f
            && (forall i :: i in m.value.offeredTo <==> i in s.clients.Values)
            && (forall i :: i in m.value.offeredTo || i in m.value.takenBy ==> i < |s.boxes|)
            && forall i :: 0 <= i < |s.boxes| ==>
                 (i in m.value.takenBy <==> i in s.clients.Values && Fits(s.boxes[i], cap))
  {
    hide Fits;
  }

  lemma SpreadRecords(s: State, f: Frame, cap: nat)
    requires Wired(s) && s.clients != map[]
    ensures Emits(s, Broadcasting(f), cap).Some? && OneMore(s, Spread(s, f, cap), Emits(s, Broadcasting(f), cap).value)
  {
    hide Offer, Emit, Fits, Emits, Wired, Spread, Start, Stop, Take, Deliver;
    BroadcastEmits(s, f, cap);
    var m, t := Emits(s, Broadcasting(f), cap).value, Spread(s, f, cap);
    SpreadBoxes(s, f, cap);
    forall i | 0 <= i < |s.boxes|
      ensures var x := Emit(m.frame, s.counter + 1);
              && t.boxes[i].log.offered == s.boxes[i].log.offered + (if i in m.offeredTo then [x] else [])
              && t.boxes[i].log.accepted == s.boxes[i].log.accepted + (if i in m.takenBy then [x] else [])
    {
      BoxRecords(s.boxes[i], Emit(f, s.counter + 1), cap);
    }
  }

  lemma SpreadBoxes(s: State, f: Frame, cap: nat)
    requires Wired(s)
    ensures var t := Spread(s, f, cap);
            && |t.boxes| == |s.boxes| && t.counter == s.counter + 1
            && forall i :: 0 <= i < |s.boxes| ==>
                 t.boxes[i] == if i in s.clients.Values then Offer(s.boxes[i], Emit(f, s.counter + 1), cap)
                     else s.boxes[i]
  {
    hide Offer, Emit, Wired, OfferAll;
  }

  lemma OneMoreThen(s: State, r: State, t: State, m: Emission)
    requires OneMore(s, r, m) && SameRecords(r, t) && |t.boxes| == |r.boxes|
    ensures OneMore(s, t, m)
  {
    hide Emit;
  }

  lemma BroadcastRecords(s: State, f: Frame, cap: nat)
    requires Inv(s, cap) && s.clients != map[]
    ensures Emits(s, Broadcasting(f), cap).Some?
    ensures OneMore(s, Broadcast(s, f, cap), Emits(s, Broadcasting(f), cap).value)
  {
    hide BoxesOk, NoSkip, Owed, Drop, Emits, Emit, OneMore, Spread, Dead, SameRecords, Wired;
    SpreadRecords(s, f, cap);
    SpreadOk(s, f, cap);
    var dead, r := Dead(s, s.order, cap), Spread(s, f, cap);
    if dead != [] {
      var t := r.(suspended := s.suspended + [Removals(s, dead[1..])]);
      Suspend(r, t);
      DropRecords(t, dead[0]);
      OneMoreThen(s, r, t, Emits(s, Broadcasting(f), cap).value);
      OneMoreThen(s, t, Drop(t, dead[0]), Emits(s, Broadcasting(f), cap).value);
    }
  }

  lemma Suspend(r: State, t: State)
    requires Wired(r) && t == r.(suspended := t.suspended)
    ensures Wired(t) && SameRecords(r, t) && |t.boxes| == |r.boxes|
  {
  }

  lemma OneBoxRecords(s: State, id: nat)
    requires id < |s.boxes|
    ensures SameRecords(s, s.(boxes := s.boxes[id := Take(s.boxes[id])]))
    ensures SameRecords(s, s.(boxes := s.boxes[id := Deliver(s.boxes[id])]))
    ensures SameRecords(s, s.(boxes := s.boxes[id := Stop(s.boxes[id])]))
  {
    hide Take, Deliver, Stop;
    BoxRecords(s.boxes[id], Emit(Frame("", "", None), 0), 0);
  }

  lemma QuietRecords(s: State, e: Step, cap: nat)
    requires Inv(s, cap) && Emits(s, e, cap).None?
    ensures SameRecords(s, Next(s, e, cap))
  {
    hide BoxesOk, NoSkip, Owed, Register, Drop, Take, Deliver, Stop;
    match e {
      case Connected(w) => RegisterRecords(s, w);
      case Sending(w, f) =>
      case Broadcasting(f) =>
      case Resuming(k) =>
        if k < |s.suspended| && s.suspended[k] != [] {
          DropRecords(s.(suspended := s.suspended[k := s.suspended[k][1..]]), s.suspended[k][0].w);
        }
      case Disconnected(w, id) =>
        if id < |s.boxes| {
          OneBoxRecords(s, id);
        }
      case Taking(id) =>
        if id < |s.boxes| {
          OneBoxRecords(s, id);
        }
      case Delivering(id) =>
        if id < |s.boxes| {
          OneBoxRecords(s, id);
        }
      case Failing(id) =>
        if id < |s.boxes| {
          OneBoxRecords(s, id);
        }
    }
  }

  lemma StepTold(s: State, e: Step, cap: nat, em: seq<Emission>)
    requires Inv(s, cap) && Told(s, em)
    ensures var m := Emits(s, e, cap);
            Told(Next(s, e, cap), em + if m.Some? then [m.value] else [])
  {
    hide BoxesOk, NoSkip, Owed, Told, SameRecords, OneMore, Register, Send, Broadcast, Emits;
    assert em + [] == em;
    var m := Emits(s, e, cap);
    if m.None? {
      QuietRecords(s, e, cap);
      SameTold(s, Next(s, e, cap), em);
    } else {
      EmittingTold(s, e, cap, em);
    }
  }

  lemma EmittingTold(s: State, e: Step, cap: nat, em: seq<Emission>)
    requires Inv(s, cap) && Told(s, em) && Emits(s, e, cap).Some?
    ensures Told(Next(s, e, cap), em + [Emits(s, e, cap).value])
  {
    hide BoxesOk, NoSkip, Owed, Told, SameRecords, OneMore, Register, Send, Broadcast;
    if e.Sending? {
      RegisterRecords(s, e.w);
      SendRecords(s, e.w, e.f, cap);
      SameTold(s, Register(s, e.w), em);
      MoreTold(Register(s, e.w), Next(s, e, cap), em, Emits(s, e, cap).value);
    } else {
      BroadcastRecords(s, e.f, cap);
      MoreTold(s, Next(s, e, cap), em, Emits(s, e, cap).value);
    }
  }

  /** In every run the frames offered to an outbox, and those it took in, are exactly the
      emissions that addressed it, and had room, each with the number of its emission; the
      counter counts the emissions. */
  lemma {:induction false} NumbersAreEmissions(steps: seq<Step>, cap: nat)
    ensures Told(After(steps, cap), Emissions(steps, cap))
    decreases |steps|
  {
    if steps == [] {
      NothingTold();
    } else {
      var init := steps[..|steps| - 1];
      NumbersAreEmissions(init, cap);
      StepTold(After(init, cap), steps[|steps| - 1], cap, Emissions(init, cap));
    }
  }

  lemma NothingTold()
    ensures Told(EMPTY, [])
  {
  }

  /** Where a frame on a record comes from. */
  lemma {:induction false} NumberedFrom(em: seq<Emission>, i: nat, taken: bool, k: nat) returns (v: nat)
    requires k < |Numbered(em, i, taken)|
    ensures 1 <= v <= |em| && i in (if taken then em[v - 1].takenBy else em[v - 1].offeredTo)
    ensures Numbered(em, i, taken)[k] == Emit(em[v - 1].frame, v)
  {
    hide Emit;
    var init := em[..|em| - 1];
    if k < |Numbered(init, i, taken)| {
      v := NumberedFrom(init, i, taken, k);
    } else {
      v := |em|;
    }
  }

  /** The frame of every emission was handed in by a step of the run. */
  lemma {:induction false} EmissionFrom(steps: seq<Step>, cap: nat, v: nat) returns (j: nat)
    requires 1 <= v <= |Emissions(steps, cap)|
    ensures j < |steps|
    ensures steps[j].Sending? || steps[j].Broadcasting?
    ensures steps[j].f == Emissions(steps, cap)[v - 1].frame
  {
    hide After, Emits;
    var init := steps[..|steps| - 1];
    if v <= |Emissions(init, cap)| {
      j := EmissionFrom(init, cap, v);
    } else {
      j := |steps| - 1;
      EmittedFrame(After(init, cap), steps[j], cap);
    }
  }

  lemma EmittedFrame(s: State, e: Step, cap: nat)
    requires Wired(s) && Emits(s, e, cap).Some?
    ensures (e.Sending? || e.Broadcasting?) && Emits(s, e, cap).value.frame == e.f
  {
    hide Register, Fits, Wired;
  }

  /** The frame as the client gets it: kind and payload as handed in; its own number, if it came
      with one, and otherwise the number of its emission. */
  ghost predicate Carries(x: Sent, f: Frame, v: nat) {
    && x.kind == f.kind && x.payload == f.payload
    && (f.own.Some? ==> !x.stamped && x.number == f.own.value)
    && (f.own.None? ==> x.stamped && x.number == v)
  }

  /** Every frame an outbox took in, and so every frame it delivered, carries the kind and payload
      of a frame that some step of the run handed in, under that emission's number. */
  lemma {:induction false} FramesUnchanged(steps: seq<Step>, cap: nat, i: nat, k: nat) returns (j: nat, v: nat)
    requires i < |After(steps, cap).boxes| && k < |After(steps, cap).boxes[i].log.accepted|
    ensures j < |steps| && (steps[j].Sending? || steps[j].Broadcasting?)
    ensures 1 <= v <= |Emissions(steps, cap)| && i in Emissions(steps, cap)[v - 1].takenBy
    ensures Emissions(steps, cap)[v - 1].frame == steps[j].f
    ensures Carries(After(steps, cap).boxes[i].log.accepted[k], steps[j].f, v)
  {
    hide After, Numbered, Emissions, Told;
    var em := Emissions(steps, cap);
    NumbersAreEmissions(steps, cap);
    ToldOf(After(steps, cap), em, i);
    v := NumberedFrom(em, i, true, k);
    j := EmissionFrom(steps, cap, v);
  }

  /** The candles counted in a run: broadcasts of that kind that found a client. */
  ghost function Candles(steps: seq<Step>, cap: nat): nat
    decreases |steps|
  {
    if steps == [] then 0
    else
      var init, e := steps[..|steps| - 1], steps[|steps| - 1];
      Candles(init, cap) +
        if e.Broadcasting? && e.f.kind == "candle" && After(init, cap).clients != map[] then 1 else 0
  }

  lemma CandleMoves(s: State, e: Step, cap: nat)
    requires Inv(s, cap)
    ensures Next(s, e, cap).candles ==
              s.candles + if e.Broadcasting? && e.f.kind == "candle" && s.clients != map[] then 1 else 0
  {
    hide BoxesOk, NoSkip, Owed, Take, Deliver, Stop, Offer, Emit, Dead, OfferAll, Fits;
    if e.Broadcasting? && s.clients != map[] {
      SpreadOk(s, e.f, cap);
    }
  }

  lemma {:induction false} CandlesCounted(steps: seq<Step>, cap: nat)
    ensures After(steps, cap).candles == Candles(steps, cap)
    decreases |steps|
  {
    hide Next;
    if steps != [] {
      var init := steps[..|steps| - 1];
      CandlesCounted(init, cap);
      CandleMoves(After(init, cap), steps[|steps| - 1], cap);
    }
  }

  // ---- Gaps ----

  ghost predicate Ascending(s: seq<Sent>, counter: nat) {
    && (forall k :: 0 <= k < |s| && s[k].stamped ==> 0 < s[k].number <= counter)
    && forall j, k :: 0 <= j < k < |s| && s[j].stamped && s[k].stamped ==> s[j].number < s[k].number
  }

  lemma {:induction false} NumberedAscending(em: seq<Emission>, i: nat, taken: bool)
    ensures Ascending(Numbered(em, i, taken), |em|)
  {
    if em != [] {
      NumberedAscending(em[..|em| - 1], i, taken);
    }
  }

  /** A stamped emission is where its number says. */
  lemma {:induction false} NumberedHas(em: seq<Emission>, i: nat, taken: bool, v: nat) returns (k: nat)
    requires 1 <= v <= |em| && i in (if taken then em[v - 1].takenBy else em[v - 1].offeredTo) &&
        em[v - 1].frame.own.None?
    ensures var s := Numbered(em, i, taken);
            k < |s| && s[k].stamped && s[k].number == v
  {
    var init := em[..|em| - 1];
    if v == |em| {
      k := |Numbered(init, i, taken)|;
    } else {
      k := NumberedHas(init, i, taken, v);
    }
  }

  /** The numbers of the stamped frames a client sees strictly increase. */
  lemma NumbersIncrease(steps: seq<Step>, cap: nat, i: nat)
    requires i < |After(steps, cap).boxes|
    ensures var s := After(steps, cap);
            Ascending(s.boxes[i].log.offered, s.counter) && Ascending(s.boxes[i].log.accepted, s.counter)
  {
    hide Numbered, Ascending, After, Emissions;
    NumbersAreEmissions(steps, cap);
    NumberedAscending(Emissions(steps, cap), i, false);
    NumberedAscending(Emissions(steps, cap), i, true);
  }

  /** Two stamped frames on a record with no stamped one between them. */
  ghost predicate Consecutive(s: seq<Sent>, p: nat, q: nat) {
    p < q < |s| && s[p].stamped && s[q].stamped && forall k :: p < k < q ==> !s[k].stamped
  }

  /** The number v was not for this outbox: its emission went to others only, or its frame
      carried a number of its own. */
  ghost predicate Elsewhere(em: seq<Emission>, i: nat, v: nat) {
    1 <= v <= |em| && (i !in em[v - 1].offeredTo || em[v - 1].frame.own.Some?)
  }

  /** The number v was on a frame this outbox refused. */
  ghost predicate Refused(em: seq<Emission>, i: nat, v: nat) {
    1 <= v <= |em| && i in em[v - 1].offeredTo && em[v - 1].frame.own.None? && i !in em[v - 1].takenBy
  }

  /** Every number between m and n was spent elsewhere or on a refused frame. So they have a gap
      exactly when there was such a number; and when nothing was spent elsewhere, a gap is a
      refused frame. */
  ghost predicate GapExplained(em: seq<Emission>, i: nat, m: nat, n: nat) {
    && m < n
    && (forall v :: m < v < n ==> Elsewhere(em, i, v) || Refused(em, i, v))
    && (n > m + 1 <==> exists v :: m < v < n && (Elsewhere(em, i, v) || Refused(em, i, v)))
    && ((forall v :: m < v < n ==> !Elsewhere(em, i, v)) ==>
        (n > m + 1 <==> exists v :: m < v < n && Refused(em, i, v)))
  }

  /** What a gap between two consecutive stamped frames means, in every run, for every outbox. */
  lemma {:induction false} GapIff(steps: seq<Step>, cap: nat, i: nat, p: nat, q: nat)
    requires i < |After(steps, cap).boxes| && Consecutive(After(steps, cap).boxes[i].log.accepted, p, q)
    ensures var s := After(steps, cap).boxes[i].log.accepted;
            p < |s| && q < |s| && 0 < s[p].number < s[q].number
            && GapExplained(Emissions(steps, cap), i, s[p].number, s[q].number)
  {
    hide Numbered, After, Emissions, Told, GapExplained, Consecutive;
    var em := Emissions(steps, cap);
    var s := After(steps, cap).boxes[i].log.accepted;
    NumbersAreEmissions(steps, cap);
    ToldOf(After(steps, cap), em, i);
    AllSpent(em, i, p, q, s);
    GapHolds(em, i, s[p].number, s[q].number);
  }

  lemma AllSpent(em: seq<Emission>, i: nat, p: nat, q: nat, s: seq<Sent>)
    requires s == Numbered(em, i, true) && Consecutive(s, p, q)
    ensures p < |s| && q < |s| && 0 < s[p].number < s[q].number
    ensures forall v: nat :: s[p].number < v < s[q].number ==> Elsewhere(em, i, v) || Refused(em, i, v)
  {
    hide Numbered, Elsewhere, Refused;
    NumberedAscending(em, i, true);
    forall v: nat | s[p].number < v < s[q].number
      ensures Elsewhere(em, i, v) || Refused(em, i, v)
    {
      SpentBetween(em, i, p, q, v);
    }
  }

  lemma GapHolds(em: seq<Emission>, i: nat, m: nat, n: nat)
    requires m < n && forall v: nat :: m < v < n ==> Elsewhere(em, i, v) || Refused(em, i, v)
    ensures GapExplained(em, i, m, n)
  {
    hide Elsewhere, Refused;
    if n > m + 1 {
      var v := m + 1;
      assert Elsewhere(em, i, v) || Refused(em, i, v);
    }
  }

  lemma ToldOf(s: State, em: seq<Emission>, i: nat)
    requires Told(s, em) && i < |s.boxes|
    ensures s.boxes[i].log.accepted == Numbered(em, i, true)
  {
  }

  lemma SpentBetween(em: seq<Emission>, i: nat, p: nat, q: nat, v: nat)
    requires Consecutive(Numbered(em, i, true), p, q)
    requires Numbered(em, i, true)[p].number < v < Numbered(em, i, true)[q].number
    ensures Elsewhere(em, i, v) || Refused(em, i, v)
  {
    hide Numbered;
    NumberedAscending(em, i, true);
    if i in em[v - 1].takenBy && em[v - 1].frame.own.None? {
      var k := NumberedHas(em, i, true, v);
    }
  }
}
