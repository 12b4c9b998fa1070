/** The outbox and relay objects, tied to the relay's state. */
module RelayServers {
  import opened Options
  import opened Relay

  const OUTBOX_MAX_FRAMES: nat := 10_000

  class Outbox {
    var queue: seq<Sent>
    var overflow: nat
    var running: bool
    var inFlight: Option<Sent>
    ghost var log: Log

    constructor ()
      ensures View() == NEW_BOX
    {
      queue, overflow, running, inFlight := [], 0, false, None;
      log := NEW_BOX.log;
    }

    ghost function View(): Box
      reads this
    {
      Box(queue, overflow, running, inFlight, log)
    }

    /** Start the writer unless it is at work. */
    method StartWriter()
      modifies this
      ensures View() == Start(old(View()))
    {
      if !running {
        running := true;
      }
    }

    /** Queue a frame; false when the client is falling behind. */
    method Put(x: Sent) returns (ok: bool)
      modifies this
      ensures View() == Offer(old(View()), x, OUTBOX_MAX_FRAMES)
      ensures ok == Fits(old(View()), OUTBOX_MAX_FRAMES)
    {
      log := log.(offered := log.offered + [x]);
      if |queue| >= OUTBOX_MAX_FRAMES {
        overflow := overflow + 1;
        return false;
      }
      queue := queue + [x];
      log := log.(accepted := log.accepted + [x]);
      return true;
    }

    /** The writer fetches the next frame. */
    method Fetch()
      modifies this
      ensures View() == Take(old(View()))
    {
      if running && inFlight.None? && queue != [] {
        log := log.(taken := log.taken + [queue[0]]);
        inFlight, queue := Some(queue[0]), queue[1..];
      }
    }

    /** The write of the frame in flight succeeds. */
    method WriteDone()
      modifies this
      ensures View() == Deliver(old(View()))
    {
      if running && inFlight.Some? {
        log := log.(delivered := log.delivered + [inFlight.value]);
        inFlight := None;
      }
    }

    /** The writer ends, on a failed write or when it is cancelled. */
    method EndWriter()
      modifies this
      ensures View() == Stop(old(View()))
    {
      ghost var cut := if inFlight.Some? && log.cut.None? then Some(|log.delivered|) else log.cut;
      log := log.(lost := log.lost + |Flying(View())|, cut := cut);
      running, inFlight := false, None;
    }
  }

  class RelayServer {
    var clients: map<Socket, Outbox>
    /** The sockets as they registered. */
    var order: seq<Socket>
    var seqNo: nat
    var candlesEmitted: nat
    /** The state this server is in, every outbox object ever made, and where each is. */
    ghost var state: State
    ghost var boxes: seq<Outbox>
    ghost var place: map<Outbox, nat>

    /** The objects hold what the state says, and no two clients share one. */
    ghost predicate Tied()
      reads this, boxes
    {
      && state.counter == seqNo && state.candles == candlesEmitted && state.order == order
      && state.clients.Keys == clients.Keys
      && |state.boxes| == |boxes|
      && (forall w :: w in clients ==> state.clients[w] < |boxes| && boxes[state.clients[w]] == clients[w])
      && forall i :: 0 <= i < |boxes| ==> boxes[i] in place && place[boxes[i]] == i && boxes[i].View() == state.boxes[i]
    }

    ghost predicate Valid()
      reads this, boxes
    {
      Tied() && Inv(state, OUTBOX_MAX_FRAMES)
    }

    constructor ()
      ensures Valid() && state == EMPTY
    {
      clients, order, seqNo, candlesEmitted := map[], [], 0, 0;
      state, boxes, place := EMPTY, [], map[];
    }

    // ---- One object at a time ----

    method AddClient(w: Socket)
      requires Tied() && w !in clients
      modifies this`clients, this`order, this`state, this`boxes, this`place
      ensures Tied() && w in clients && fresh(clients[w]) && boxes == old(boxes) + [clients[w]]
      ensures state == Added(old(state), w)
    {
      var box := new Outbox();
      state := Added(state, w);
      clients := clients[w := box];
      order := order + [w];
      place := place[box := |boxes|];
      boxes := boxes + [box];
    }

    method StartOne(box: Outbox, ghost i: nat)
      requires Tied() && i < |boxes| && boxes[i] == box
      modifies box, this`state
      ensures Tied() && state == old(state).(boxes := old(state).boxes[i := Start(old(state).boxes[i])])
    {
      hide Start;
      box.StartWriter();
      state := state.(boxes := state.boxes[i := Start(state.boxes[i])]);
    }

    method PutOne(box: Outbox, ghost i: nat, x: Sent) returns (ok: bool)
      requires Tied() && i < |boxes| && boxes[i] == box
      modifies box, this`state
      ensures Tied() && ok == Fits(old(state).boxes[i], OUTBOX_MAX_FRAMES)
      ensures state == old(state).(boxes := old(state).boxes[i := Offer(old(state).boxes[i], x, OUTBOX_MAX_FRAMES)])
    {
      hide Offer, Fits;
      ok := box.Put(x);
      state := state.(boxes := state.boxes[i := Offer(state.boxes[i], x, OUTBOX_MAX_FRAMES)]);
    }

    method EndOne(box: Outbox, ghost i: nat)
      requires Tied() && i < |boxes| && boxes[i] == box
      modifies box, this`state
      ensures Tied() && state == old(state).(boxes := old(state).boxes[i := Stop(old(state).boxes[i])])
    {
      hide Stop;
      box.EndWriter();
      state := state.(boxes := state.boxes[i := Stop(state.boxes[i])]);
    }

    method FetchOne(box: Outbox, ghost i: nat)
      requires Tied() && i < |boxes| && boxes[i] == box
      modifies box, this`state
      ensures Tied() && state == old(state).(boxes := old(state).boxes[i := Take(old(state).boxes[i])])
    {
      hide Take;
      box.Fetch();
      state := state.(boxes := state.boxes[i := Take(state.boxes[i])]);
    }

    method WriteOne(box: Outbox, ghost i: nat)
      requires Tied() && i < |boxes| && boxes[i] == box
      modifies box, this`state
      ensures Tied() && state == old(state).(boxes := old(state).boxes[i := Deliver(old(state).boxes[i])])
    {
      hide Deliver;
      box.WriteDone();
      state := state.(boxes := state.boxes[i := Deliver(state.boxes[i])]);
    }

    method Forget(w: Socket)
      requires Tied()
      modifies this`clients, this`order, this`state
      ensures Tied() && state == old(state).(clients := old(state).clients - {w}, order := Minus(old(state).order, w))
    {
      clients := clients - {w};
      order := Minus(order, w);
      state := state.(clients := state.clients - {w}, order := Minus(state.order, w));
    }

    ghost method Suspend(suspended: seq<seq<Removal>>)
      requires Tied()
      modifies this`state
      ensures Tied() && state == old(state).(suspended := suspended)
    {
      state := state.(suspended := suspended);
    }

    method CountCandle(f: Frame)
      requires Tied()
      modifies this`candlesEmitted, this`state
      ensures Tied() && state == old(state).(candles := old(state).candles + (if f.kind == "candle" then 1 else 0))
    {
      if f.kind == "candle" {
        candlesEmitted := candlesEmitted + 1;
        state := state.(candles := state.candles + 1);
      }
    }

    /** Number a frame. */
    method Stamp(f: Frame) returns (x: Sent)
      requires Tied()
      modifies this`seqNo, this`state
      ensures Tied() && state == old(state).(counter := old(state).counter + 1) && x == Emit(f, state.counter)
    {
      seqNo := seqNo + 1;
      state := state.(counter := state.counter + 1);
      x := Emit(f, seqNo);
    }

    /** Where an outbox stands among all that were ever made. */
    ghost function PlaceOf(box: Outbox): (i: nat)
      requires Tied() && box in boxes
      reads this, boxes
      ensures i < |boxes| && boxes[i] == box
      ensures |state.boxes| == |boxes|
    {
      place[box]
    }

    ghost function PlaceOfClient(w: Socket): (i: nat)
      requires Tied() && w in clients
      reads this, boxes
      ensures w in state.clients && i == state.clients[w] && i < |boxes| && boxes[i] == clients[w]
      ensures clients[w] in boxes && |state.boxes| == |boxes|
    {
      state.clients[w]
    }

    lemma SameClients()
      requires Tied()
      ensures forall w :: w in clients <==> w in state.clients
      ensures state.order == order
    {
    }

    // ---- The relay's operations ----

    /** Take a client off the register and stop the writer of its outbox. */
    method DropClient(w: Socket)
      requires Tied() && Wired(state)
      modifies this`clients, this`order, this`state, if w in clients then {clients[w]} else {}
      ensures Tied() && boxes == old(boxes) && state == Drop(old(state), w)
    {
      SameClients();
      hide Tied, Stop, Wired;
      if w in clients {
        var box := clients[w];
        ghost var i := PlaceOfClient(w);
        Forget(w);
        EndOne(box, i);
      }
    }

    /** The outbox of a client, made when there is none, its writer at work. */
    method RegisterClient(w: Socket) returns (box: Outbox)
      requires Valid()
      modifies this`clients, this`order, this`state, this`boxes, this`place, boxes
      ensures Valid() && w in clients && box == clients[w]
      ensures state == Register(old(state), w)
      ensures box in old(boxes) || fresh(box)
    {
      hide Inv, Start, Register, Tied, Added, Wired;
      InvWired(state);
      RegisterKeeps(state, w, OUTBOX_MAX_FRAMES);
      RegisterIs(state, w);
      SameClients();
      if w !in clients {
        AddClient(w);
      }
      box := clients[w];
      StartOne(box, PlaceOfClient(w));
    }

    /** One frame for one client; a client it does not fit is removed. */
    method SendFrame(w: Socket, f: Frame)
      requires Valid()
      modifies this, boxes
      ensures Valid() && state == Send(old(state), w, f, OUTBOX_MAX_FRAMES)
    {
      hide Inv, Tied, Register, EmitTo;
      SendKeeps(state, w, f, OUTBOX_MAX_FRAMES);
      InvWired(state);
      ghost var s := state;
      var box := RegisterClient(w);
      RegisterWired(s, w);
      EmitOne(w, box, f);
    }

    method EmitOne(w: Socket, box: Outbox, f: Frame)
      requires Tied() && Wired(state) && w in clients && clients[w] == box && w in state.clients
      modifies this`clients, this`order, this`state, this`seqNo, box
      ensures Tied() && boxes == old(boxes) && state == EmitTo(old(state), w, f, OUTBOX_MAX_FRAMES)
    {
      hide Tied, Wired, Drop, Offer, Fits, Emit;
      OfferedWired(state, w, f, OUTBOX_MAX_FRAMES);
      ghost var i := PlaceOfClient(w);
      var x := Stamp(f);
      var ok := PutOne(box, i, x);
      if !ok {
        DropClient(w);
      }
    }

    /** One frame for every client. The first full one goes at once; rest are those to be removed
        when the broadcast resumes. */
    method BroadcastFrame(f: Frame) returns (rest: seq<Socket>)
      requires Valid()
      modifies this, boxes
      ensures Valid() && state == Broadcast(old(state), f, OUTBOX_MAX_FRAMES)
      ensures state.suspended == old(state).suspended || SuspendedWith(old(state).suspended, state.suspended, rest)
    {
      hide Inv, Tied, Broadcast, Spread, Dead, Wired, Drop;
      InvWired(state);
      BroadcastKeeps(state, f, OUTBOX_MAX_FRAMES);
      rest := [];
      var nobody := Deserted();
      BroadcastParts(state, f, OUTBOX_MAX_FRAMES);
      if !nobody {
        rest := SpreadAndDrop(f);
      }
    }

    method SpreadAndDrop(f: Frame) returns (rest: seq<Socket>)
      requires Tied() && Wired(state)
      modifies this, boxes
      ensures Tied() && boxes == old(boxes) && state == AfterSpread(old(state), f, OUTBOX_MAX_FRAMES)
      ensures state.suspended == old(state).suspended || SuspendedWith(old(state).suspended, state.suspended, rest)
    {
      ghost var s := state;
      SpreadWired(s, f, OUTBOX_MAX_FRAMES);
      hide Tied, Spread, Wired, Drop, Dead;
      var dead := EmitAll(f);
      rest := [];
      if dead != [] {
        rest := dead[1..];
        Suspend(state.suspended + [Removals(s, rest)]);
        SuspendedNow(s, rest);
        DropWired(state, dead[0]);
        DropClient(dead[0]);
      }
    }

    method Deserted() returns (nobody: bool)
      requires Tied()
      ensures nobody <==> state.clients == map[]
    {
      nobody := |clients| == 0;
      assert |clients| == |clients.Keys| && (|state.clients.Keys| == 0 <==> state.clients == map[]);
    }

    method EmitAll(f: Frame) returns (dead: seq<Socket>)
      requires Tied() && Wired(state)
      modifies this, boxes
      ensures Tied() && boxes == old(boxes)
      ensures state == Spread(old(state), f, OUTBOX_MAX_FRAMES) &&
          dead == Dead(old(state), old(state).order, OUTBOX_MAX_FRAMES)
    {
      hide Tied, Offer, Fits, Emit, OfferAll, Dead, Wired;
      ghost var s := state;
      CountCandle(f);
      var data := Stamp(f);
      SameWires(s, state, s.order, OUTBOX_MAX_FRAMES);
      dead := PutAll(data);
    }

    /** Every client is offered the frame once, in the order they registered. */
    method PutAll(x: Sent) returns (dead: seq<Socket>)
      requires Tied() && Wired(state)
      modifies boxes, this`state
      ensures Tied()
      ensures state == old(state).(boxes := OfferAll(old(state).boxes, old(state).clients.Values, x, OUTBOX_MAX_FRAMES))
      ensures dead == Dead(old(state), old(state).order, OUTBOX_MAX_FRAMES)
    {
      ghost var s := state;
      SameClients();
      hide Offer, Fits, Tied, IdsOf, Dead, OfferAll, Wired, Minus;
      dead := [];
      NoneOffered(s, x, OUTBOX_MAX_FRAMES);
      for i := 0 to |order|
        invariant Tied() && order == s.order
        invariant state == s.(boxes := OfferAll(s.boxes, IdsOf(s, order[..i]), x, OUTBOX_MAX_FRAMES))
        invariant dead == Dead(s, order[..i], OUTBOX_MAX_FRAMES)
      {
        DeadNext(s, i, OUTBOX_MAX_FRAMES);
        var ok := OfferOne(i, x, s);
        if !ok {
          dead := dead + [order[i]];
        }
      }
      AllOffered(s);
    }

    method OfferOne(i: nat, x: Sent, ghost s: State) returns (ok: bool)
      requires Tied() && Wired(s) && i < |order| && order == s.order
      requires state == s.(boxes := OfferAll(s.boxes, IdsOf(s, order[..i]), x, OUTBOX_MAX_FRAMES))
      modifies boxes, this`state
      ensures Tied()
      ensures state == s.(boxes := OfferAll(s.boxes, IdsOf(s, order[..i + 1]), x, OUTBOX_MAX_FRAMES))
      ensures order[i] in s.clients && s.clients[order[i]] < |s.boxes|
      ensures ok == Fits(s.boxes[s.clients[order[i]]], OUTBOX_MAX_FRAMES)
    {
      OfferNext(s, i, x, OUTBOX_MAX_FRAMES);
      SameClients();
      hide Offer, Fits, IdsOf, OfferAll, Tied, Wired;
      ok := PutOne(clients[order[i]], PlaceOfClient(order[i]), x);
    }

    /** A suspended broadcast removes its next client, with the outbox it has by now. */
    method ResumeBroadcast(rest: seq<Socket>, ghost k: nat) returns (left: seq<Socket>)
      requires Valid() && rest != [] && k < |state.suspended| && Sockets(state.suspended[k]) == rest
      modifies this, boxes
      ensures Valid() && state == Resume(old(state), k) && left == rest[1..] && k < |state.suspended| &&
          Sockets(state.suspended[k]) == left
    {
      hide Inv, Tied, Drop, Wired, Resume, Resumed, Sockets;
      InvWired(state);
      ResumeKeeps(state, k, OUTBOX_MAX_FRAMES);
      ResumeParts(state, k, rest);
      left := rest[1..];
      ghost var s := state;
      Suspend(Resumed(state, k));
      SameWires(s, state, [], OUTBOX_MAX_FRAMES);
      DropWired(state, rest[0]);
      DropClient(rest[0]);
    }

    /** A handler ends: its socket goes, and the outbox it started with stops. */
    method DisconnectClient(w: Socket, box: Outbox)
      requires Valid() && box in boxes
      modifies this`clients, this`order, this`state, box
      ensures Valid() && state == Disconnect(old(state), w, old(PlaceOf(box)))
    {
      ghost var i := PlaceOf(box);
      NextKeeps(state, Disconnected(w, i), OUTBOX_MAX_FRAMES);
      hide Inv, Tied, Stop;
      Forget(w);
      EndOne(box, i);
    }

    /** The writer of one outbox fetches a frame. */
    method WriterFetches(box: Outbox)
      requires Valid() && box in boxes
      modifies this`state, box
      ensures Valid() && state == Next(old(state), Taking(old(PlaceOf(box))), OUTBOX_MAX_FRAMES)
    {
      hide Inv, Tied, Next;
      ghost var i := PlaceOf(box);
      TouchKeeps(state, i, OUTBOX_MAX_FRAMES);
      hide Take;
      FetchOne(box, i);
    }

    /** The writer of one outbox finishes a write. */
    method WriterWrites(box: Outbox)
      requires Valid() && box in boxes
      modifies this`state, box
      ensures Valid() && state == Next(old(state), Delivering(old(PlaceOf(box))), OUTBOX_MAX_FRAMES)
    {
      hide Inv, Tied, Next;
      ghost var i := PlaceOf(box);
      TouchKeeps(state, i, OUTBOX_MAX_FRAMES);
      hide Deliver;
      WriteOne(box, i);
    }

    /** A write fails and ends the writer. */
    method WriterFails(box: Outbox)
      requires Valid() && box in boxes
      modifies this`state, box
      ensures Valid() && state == Next(old(state), Failing(old(PlaceOf(box))), OUTBOX_MAX_FRAMES)
    {
      hide Inv, Tied, Next;
      ghost var i := PlaceOf(box);
      TouchKeeps(state, i, OUTBOX_MAX_FRAMES);
      hide Stop;
      EndOne(box, i);
    }
  }

  ghost function Added(s: State, w: Socket): State {
    s.(clients := s.clients[w := |s.boxes|], order := s.order + [w], boxes := s.boxes + [NEW_BOX])
  }

  lemma RegisterIs(s: State, w: Socket)
    requires Wired(s)
    ensures w in s.clients ==> Register(s, w) == s.(boxes := s.boxes[s.clients[w] := Start(s.boxes[s.clients[w]])])
    ensures w !in s.clients ==>
              var t := Added(s, w);
              w in t.clients && t.clients[w] == |s.boxes| &&
              Register(s, w) == t.(boxes := t.boxes[|s.boxes| := Start(t.boxes[|s.boxes|])])
  {
    var all := s.boxes + [NEW_BOX];
    assert all[|s.boxes| := Start(all[|s.boxes|])] == s.boxes + [Start(NEW_BOX)];
  }

  lemma TouchKeeps(s: State, i: nat, cap: nat)
    requires Inv(s, cap) && i < |s.boxes|
    ensures Wired(s)
    ensures var t := s.(boxes := s.boxes[i := Take(s.boxes[i])]);
            Next(s, Taking(i), cap) == t && Inv(t, cap)
    ensures var t := s.(boxes := s.boxes[i := Deliver(s.boxes[i])]);
            Next(s, Delivering(i), cap) == t && Inv(t, cap)
    ensures var t := s.(boxes := s.boxes[i := Stop(s.boxes[i])]);
            Next(s, Failing(i), cap) == t && Inv(t, cap)
  {
    hide BoxesOk, NoSkip, Take, Deliver, Stop;
    OneBoxKeeps(s, i, cap);
  }

  /** One broadcast more is suspended, with these sockets left. */
  ghost predicate SuspendedWith(before: seq<seq<Removal>>, after: seq<seq<Removal>>, rest: seq<Socket>) {
    |after| == |before| + 1 && after[..|before|] == before && Sockets(after[|before|]) == rest
  }

  lemma SuspendedNow(s: State, rest: seq<Socket>)
    requires forall w :: w in rest ==> w in s.clients
    ensures SuspendedWith(s.suspended, s.suspended + [Removals(s, rest)], rest)
  {
  }

  ghost function Resumed(s: State, k: nat): seq<seq<Removal>>
    requires k < |s.suspended| && s.suspended[k] != []
  {
    s.suspended[k := s.suspended[k][1..]]
  }

  lemma ResumeParts(s: State, k: nat, rest: seq<Socket>)
    requires Wired(s) && k < |s.suspended| && rest != [] && Sockets(s.suspended[k]) == rest
    ensures s.suspended[k] != [] && Wired(s.(suspended := Resumed(s, k)))
    ensures Resume(s, k) == Drop(s.(suspended := Resumed(s, k)), rest[0])
    ensures k < |Resumed(s, k)| && Sockets(Resumed(s, k)[k]) == rest[1..]
  {
    hide Drop;
  }

  lemma InvWired(s: State)
    requires Inv(s, OUTBOX_MAX_FRAMES)
    ensures Wired(s)
  {
  }

  /** What a broadcast does once there are clients. */
  ghost function AfterSpread(s: State, f: Frame, cap: nat): State
    requires Wired(s)
  {
    SpreadWired(s, f, cap);
    var dead := Dead(s, s.order, cap);
    if dead == [] then Spread(s, f, cap)
    else Drop(Spread(s, f, cap).(suspended := s.suspended + [Removals(s, dead[1..])]), dead[0])
  }

  lemma SpreadWired(s: State, f: Frame, cap: nat)
    requires Wired(s)
    ensures Wired(Spread(s, f, cap)) && Spread(s, f, cap).suspended == s.suspended
    ensures forall more :: Wired(Spread(s, f, cap).(suspended := more))
  {
    hide Offer, Emit, OfferAll;
  }

  lemma BroadcastParts(s: State, f: Frame, cap: nat)
    requires Wired(s)
    ensures Broadcast(s, f, cap) == if s.clients == map[] then s else AfterSpread(s, f, cap)
  {
    hide Wired, Spread, Drop, Dead;
  }

  lemma SameWires(s: State, t: State, order: seq<Socket>, cap: nat)
    requires Wired(s) && t.clients == s.clients && t.boxes == s.boxes && t.order == s.order
    ensures Wired(t) && Dead(t, order, cap) == Dead(s, order, cap)
  {
    if order != [] {
      SameWires(s, t, order[1..], cap);
    }
  }

  ghost function IdsOf(s: State, ws: seq<Socket>): set<nat> {
    set w | w in ws && w in s.clients :: s.clients[w]
  }

  lemma NoneOffered(s: State, x: Sent, cap: nat)
    requires Wired(s)
    ensures OfferAll(s.boxes, IdsOf(s, s.order[..0]), x, cap) == s.boxes && Dead(s, s.order[..0], cap) == []
  {
    hide Offer;
    assert IdsOf(s, s.order[..0]) == {};
    SameBoxes(OfferAll(s.boxes, {}, x, cap), s.boxes);
  }

  lemma AllOffered(s: State)
    requires Wired(s)
    ensures s.order[..|s.order|] == s.order && IdsOf(s, s.order) == s.clients.Values
  {
    assert forall i :: i in IdsOf(s, s.order) <==> i in s.clients.Values;
  }

  lemma {:induction false} DeadJoin(s: State, a: seq<Socket>, w: Socket, cap: nat)
    requires Wired(s) && w in s.clients
    ensures Dead(s, a + [w], cap) == Dead(s, a, cap) + if Fits(s.boxes[s.clients[w]], cap) then [] else [w]
  {
    hide Fits, Wired;
    if a == [] {
      assert [] + [w] == [w] && [w][1..] == [];
    } else {
      assert (a + [w])[1..] == a[1..] + [w];
      DeadJoin(s, a[1..], w, cap);
    }
  }

  lemma DeadNext(s: State, i: nat, cap: nat)
    requires Wired(s) && i < |s.order|
    ensures s.order[i] in s.clients && s.clients[s.order[i]] < |s.boxes|
    ensures Dead(s, s.order[..i + 1], cap) ==
              Dead(s, s.order[..i], cap) + if Fits(s.boxes[s.clients[s.order[i]]], cap) then [] else [s.order[i]]
  {
    hide Fits, Dead;
    assert s.order[..i + 1] == s.order[..i] + [s.order[i]];
    assert s.order[i] in s.order;
    DeadJoin(s, s.order[..i], s.order[i], cap);
  }

  lemma OfferNext(s: State, i: nat, x: Sent, cap: nat)
    requires Wired(s) && i < |s.order|
    ensures s.order[i] in s.clients && s.clients[s.order[i]] < |s.boxes|
    ensures var now, id := OfferAll(s.boxes, IdsOf(s, s.order[..i]), x, cap), s.clients[s.order[i]];
            now[id] == s.boxes[id] && now[id := Offer(now[id], x, cap)] ==
                OfferAll(s.boxes, IdsOf(s, s.order[..i + 1]), x, cap)
  {
    hide Offer;
    var w := s.order[i];
    assert w in s.order;
    var id := s.clients[w];
    NewId(s, i);
    var now, next := OfferAll(s.boxes, IdsOf(s, s.order[..i]), x, cap),
        OfferAll(s.boxes, IdsOf(s, s.order[..i + 1]), x, cap);
    hide IdsOf, Wired;
    SameBoxes(now[id := Offer(now[id], x, cap)], next);
  }

  lemma NewId(s: State, i: nat)
    requires Wired(s) && i < |s.order| && s.order[i] in s.clients
    ensures s.clients[s.order[i]] !in IdsOf(s, s.order[..i])
    ensures forall j :: j in IdsOf(s, s.order[..i + 1]) <==> j in IdsOf(s, s.order[..i]) || j == s.clients[s.order[i]]
  {
    assert forall v :: v in s.order[..i + 1] <==> v in s.order[..i] || v == s.order[i];
    assert s.order[i] !in s.order[..i];
  }

  lemma SameBoxes(s: seq<Box>, t: seq<Box>)
    requires |s| == |t| && forall i :: 0 <= i < |s| ==> s[i] == t[i]
    ensures s == t
  {
  }
}
