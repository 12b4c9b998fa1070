/** What each step of the relay does to the register and to the writers. */
module RelayMoves {
  import opened Options
  import opened Collections
  import opened Relay

  /** The first client, in the order of registration, whose outbox is full. */
  ghost predicate FirstFull(s: State, cap: nat, w: Socket)
    requires Wired(s)
  {
    && w in s.clients && !Fits(s.boxes[s.clients[w]], cap)
    && exists k :: 0 <= k < |s.order| && s.order[k] == w &&
         forall j :: 0 <= j < k ==> s.order[j] in s.clients && Fits(s.boxes[s.clients[s.order[j]]], cap)
  }

  /** The step takes a registered client off the register. */
  ghost predicate Leaves(s: State, e: Step, cap: nat, w: Socket)
    requires Wired(s)
  {
    && w in s.clients
    && match e
       case Sending(v, _) => v == w && !Fits(s.boxes[s.clients[w]], cap)
       case Broadcasting(_) => FirstFull(s, cap, w)
       case Resuming(k) => k < |s.suspended| && s.suspended[k] != [] && s.suspended[k][0].w == w
       case Disconnected(v, _) => v == w
       case _ => false
  }

  /** The step enters the client in the register, or finds it there. */
  ghost predicate Enters(e: Step, w: Socket) {
    e == Connected(w) || (e.Sending? && e.w == w)
  }

  /** The register after a step: who is on it, and with which outbox. */
  ghost predicate RegisterMoves(s: State, e: Step, cap: nat)
    requires Wired(s) && Wired(Next(s, e, cap))
  {
    var t := Next(s, e, cap);
    forall w: Socket ::
      && (w in t.clients <==> (Enters(e, w) || w in s.clients) && !Leaves(s, e, cap, w))
      && (w in t.clients ==> t.clients[w] == if w in s.clients then s.clients[w] else |s.boxes|)
  }

  /** The step stops the writer of the i-th outbox: its client leaves the register, unless that is
      by the end of a handler, which stops the outbox the handler started with; or a write fails. */
  ghost predicate Stops(s: State, e: Step, cap: nat, i: nat)
    requires Wired(s)
  {
    || e == Failing(i)
    || (e.Disconnected? && e.id == i)
    || (!e.Disconnected? && exists w: Socket :: Leaves(s, e, cap, w) && s.clients[w] == i)
  }

  /** The step starts the writer of the i-th outbox. */
  ghost predicate Starts(s: State, e: Step, i: nat) {
    exists w: Socket :: Enters(e, w) && i == if w in s.clients then s.clients[w] else |s.boxes|
  }

  /** The writers after a step. */
  ghost predicate WritersMove(s: State, e: Step, cap: nat)
    requires Wired(s)
  {
    var t := Next(s, e, cap);
    forall i: nat :: i < |t.boxes| ==>
      (t.boxes[i].running <==> (Starts(s, e, i) || (i < |s.boxes| && s.boxes[i].running)) && !Stops(s, e, cap, i))
  }

  // ---- Step by step ----

  lemma BoxWriters(b: Box, x: Sent, cap: nat)
    ensures Start(b).running && !Stop(b).running
    ensures Take(b).running == Deliver(b).running == Offer(b, x, cap).running == b.running
    ensures Fits(Start(b), cap) <==> Fits(b, cap)
  {
  }

  lemma DropMoves(s: State, w: Socket)
    requires Wired(s)
    ensures forall v :: v in Drop(s, w).clients <==> v in s.clients && v != w
    ensures forall v :: v in Drop(s, w).clients ==> Drop(s, w).clients[v] == s.clients[v]
    ensures |Drop(s, w).boxes| == |s.boxes|
    ensures forall i: nat :: i < |s.boxes| ==>
              (Drop(s, w).boxes[i].running <==> s.boxes[i].running && !(w in s.clients && s.clients[w] == i))
  {
    hide Stop, Minus;
    if w in s.clients {
      BoxWriters(s.boxes[s.clients[w]], Sent("", "", 0, false), 0);
    }
  }

  lemma ConnectedMoves(s: State, w: Socket, cap: nat)
    requires Wired(s)
    ensures Wired(Next(s, Connected(w), cap))
    ensures RegisterMoves(s, Connected(w), cap) && WritersMove(s, Connected(w), cap)
  {
    hide Start;
    RegisterWired(s, w);
    var b := if w in s.clients then s.boxes[s.clients[w]] else NEW_BOX;
    BoxWriters(b, Sent("", "", 0, false), 0);
    assert Enters(Connected(w), w);
  }

  lemma QuietMoves(s: State, e: Step, cap: nat)
    requires Wired(s) && (e.Taking? || e.Delivering? || e.Failing? || e.Disconnected?)
    ensures Wired(Next(s, e, cap)) ==> RegisterMoves(s, e, cap)
    ensures WritersMove(s, e, cap)
  {
    hide Take, Deliver, Stop, Minus, Wired;
    var id := if e.Taking? then e.id else if e.Delivering? then e.id else if e.Failing? then e.id else e.id;
    if id < |s.boxes| {
      BoxWriters(s.boxes[id], Sent("", "", 0, false), 0);
    }
  }

  lemma ResumingMoves(s: State, k: nat, cap: nat)
    requires Wired(s)
    ensures Wired(Next(s, Resuming(k), cap)) ==> RegisterMoves(s, Resuming(k), cap)
    ensures WritersMove(s, Resuming(k), cap)
  {
    hide Drop;
    if k < |s.suspended| && s.suspended[k] != [] {
      var t, w := s.(suspended := s.suspended[k := s.suspended[k][1..]]), s.suspended[k][0].w;
      DropMoves(t, w);
      assert Next(s, Resuming(k), cap) == Drop(t, w);
      assert Leaves(s, Resuming(k), cap, w) <==> w in s.clients;
    }
  }

  /** A send starts the client's writer, and a frame that does not fit takes the client off. */
  lemma SendEffect(s: State, w: Socket, f: Frame, cap: nat) returns (id: nat, full: bool)
    requires Wired(s) && cap > 0
    ensures id == if w in s.clients then s.clients[w] else |s.boxes|
    ensures full <==> w in s.clients && !Fits(s.boxes[s.clients[w]], cap)
    ensures var t := Send(s, w, f, cap);
            && (forall v :: v in t.clients <==> (v in s.clients || v == w) && !(full && v == w))
            && (forall v :: v in t.clients ==> t.clients[v] == if v in s.clients then s.clients[v] else |s.boxes|)
            && |t.boxes| == (if w in s.clients then |s.boxes| else |s.boxes| + 1)
            && forall i: nat :: i < |t.boxes| ==>
                 (t.boxes[i].running <==> (i == id || (i < |s.boxes| && s.boxes[i].running)) && !(i == id && full))
  {
    hide Drop, Offer, Emit, Start, Fits;
    RegisterWired(s, w);
    var r := Register(s, w);
    id, full := r.clients[w], w in s.clients && !Fits(s.boxes[s.clients[w]], cap);
    var was := if w in s.clients then s.boxes[s.clients[w]] else NEW_BOX;
    BoxWriters(was, Emit(f, r.counter + 1), cap);
    BoxWriters(r.boxes[id], Emit(f, r.counter + 1), cap);
    OfferedWired(r, w, f, cap);
    DropMoves(Offered(r, w, f, cap), w);
    NewFits(cap);
  }

  lemma SendingMoves(s: State, w: Socket, f: Frame, cap: nat)
    requires Wired(s) && cap > 0
    ensures Wired(Next(s, Sending(w, f), cap)) ==> RegisterMoves(s, Sending(w, f), cap)
    ensures WritersMove(s, Sending(w, f), cap)
  {
    hide Send, Fits, Wired;
    var id, full := SendEffect(s, w, f, cap);
    SendLeaves(s, w, f, cap, full);
    SendWriters(s, w, f, cap, id, full);
  }

  lemma SendLeaves(s: State, w: Socket, f: Frame, cap: nat, full: bool)
    requires Wired(s) && (full <==> w in s.clients && !Fits(s.boxes[s.clients[w]], cap))
    ensures forall v: Socket :: Leaves(s, Sending(w, f), cap, v) <==> full && v == w
  {
    hide Fits;
  }

  lemma SendWriters(s: State, w: Socket, f: Frame, cap: nat, id: nat, full: bool)
    requires Wired(s) && id == (if w in s.clients then s.clients[w] else |s.boxes|) && (full ==> w in s.clients)
    requires forall v: Socket :: Leaves(s, Sending(w, f), cap, v) <==> full && v == w
    ensures forall i: nat :: Starts(s, Sending(w, f), i) <==> i == id
    ensures forall i: nat :: Stops(s, Sending(w, f), cap, i) <==> full && i == id
  {
    hide Leaves;
    assert Enters(Sending(w, f), w);
    if full {
      assert Leaves(s, Sending(w, f), cap, w);
    }
  }

  lemma NewFits(cap: nat)
    requires cap > 0
    ensures Fits(NEW_BOX, cap) && Fits(Start(NEW_BOX), cap)
  {
  }

  /** The head of the full clients is the first full one. */
  lemma {:induction false} DeadFirst(s: State, order: seq<Socket>, cap: nat) returns (k: nat)
    requires Wired(s) && Dead(s, order, cap) != [] && forall w :: w in order ==> w in s.clients
    ensures k < |order| && order[k] == Dead(s, order, cap)[0] && !Fits(s.boxes[s.clients[order[k]]], cap)
    ensures forall j :: 0 <= j < k ==> Fits(s.boxes[s.clients[order[j]]], cap)
  {
    hide Fits;
    if Fits(s.boxes[s.clients[order[0]]], cap) {
      k := DeadFirst(s, order[1..], cap);
      k := k + 1;
    } else {
      k := 0;
    }
  }

  lemma FirstUnique(s: State, cap: nat, v: Socket, w: Socket)
    requires Wired(s) && FirstFull(s, cap, v) && FirstFull(s, cap, w)
    ensures v == w
  {
    hide Fits;
  }

  lemma SpreadWriters(s: State, f: Frame, cap: nat)
    requires Wired(s)
    ensures var t := Spread(s, f, cap);
            |t.boxes| == |s.boxes| && forall i: nat :: i < |s.boxes| ==> t.boxes[i].running == s.boxes[i].running
  {
    hide Offer, Emit, Wired, OfferAll;
    forall i: nat | i < |s.boxes|
      ensures Spread(s, f, cap).boxes[i].running == s.boxes[i].running
    {
      BoxWriters(s.boxes[i], Emit(f, s.counter + 1), cap);
    }
  }

  lemma BroadcastingMoves(s: State, f: Frame, cap: nat)
    requires Inv(s, cap)
    ensures Wired(s)
    ensures Wired(Next(s, Broadcasting(f), cap)) ==> RegisterMoves(s, Broadcasting(f), cap)
    ensures WritersMove(s, Broadcasting(f), cap)
  {
    hide Drop, Spread, Fits, BoxesOk, NoSkip, Owed, Dead, FirstFull, Removals, Next;
    var e, dead := Broadcasting(f), Dead(s, s.order, cap);
    SpreadOk(s, f, cap);
    SpreadWriters(s, f, cap);
    WhoIsFirst(s, cap);
    BroadcastParts(s, f, cap);
    if s.clients != map[] && dead != [] {
      var t := Spread(s, f, cap).(suspended := s.suspended + [Removals(s, dead[1..])]);
      DropMoves(t, dead[0]);
      assert Leaves(s, e, cap, dead[0]);
    }
  }

  lemma BroadcastParts(s: State, f: Frame, cap: nat)
    requires Wired(s) && Wired(Spread(s, f, cap)) && Spread(s, f, cap).clients == s.clients
    ensures forall more :: Wired(Spread(s, f, cap).(suspended := more))
    ensures var dead := Dead(s, s.order, cap);
            Next(s, Broadcasting(f), cap) ==
              if s.clients == map[] then s else if dead == [] then Spread(s, f, cap)
              else Drop(Spread(s, f, cap).(suspended := s.suspended + [Removals(s, dead[1..])]), dead[0])
  {
    hide Drop, Spread, Dead, Removals;
  }

  lemma WhoIsFirst(s: State, cap: nat)
    requires Wired(s)
    ensures var dead := Dead(s, s.order, cap);
            forall w: Socket :: FirstFull(s, cap, w) <==> dead != [] && w == dead[0]
  {
    hide Fits, Dead;
    var dead := Dead(s, s.order, cap);
    if dead != [] {
      var k := DeadFirst(s, s.order, cap);
      assert FirstFull(s, cap, dead[0]);
      forall w: Socket | FirstFull(s, cap, w)
        ensures w == dead[0]
      {
        FirstUnique(s, cap, w, dead[0]);
      }
    }
  }

  /** In every run each step moves the register and the writers exactly as told: a client comes
      with its first connect or send and keeps its outbox until it leaves; it leaves by a refused
      send, as the first full one of a broadcast, when a suspended broadcast gets to it, or with
      its handler; and a writer runs from then on until it is stopped. */
  lemma {:induction false} EachStepMoves(steps: seq<Step>, e: Step, cap: nat)
    requires cap > 0
    ensures Wired(After(steps, cap)) && Wired(Next(After(steps, cap), e, cap))
    ensures RegisterMoves(After(steps, cap), e, cap) && WritersMove(After(steps, cap), e, cap)
  {
    hide After, RegisterMoves, WritersMove, BoxesOk, NoSkip, Owed, Next;
    var s := After(steps, cap);
    NextKeeps(s, e, cap);
    match e {
      case Connected(w) => ConnectedMoves(s, w, cap);
      case Sending(w, f) => SendingMoves(s, w, f, cap);
      case Broadcasting(f) => BroadcastingMoves(s, f, cap);
      case Resuming(k) => ResumingMoves(s, k, cap);
      case _ => QuietMoves(s, e, cap);
    }
  }
}
