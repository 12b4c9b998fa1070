/** The relay's outboxes: one bounded queue per client, one counter for every emitted frame. */
module Relay {
  import opened Options
  import opened Collections

  type Socket = nat

  /** A frame as a producer hands it over; it may already carry a sequence number. */
  datatype Frame = Frame(kind: string, payload: string, own: Option<int>)

  /** An emitted frame. A stamped one has its number from the relay's counter. */
  datatype Sent = Sent(kind: string, payload: string, number: int, stamped: bool)

  function Emit(f: Frame, counter: nat): Sent {
    if f.own.Some? then Sent(f.kind, f.payload, f.own.value, false) else Sent(f.kind, f.payload, counter, true)
  }

  // ---- One outbox ----

  /** What happened to an outbox so far: frames offered to it, frames it took in, frames its
      writer fetched and frames it wrote; how many fetched ones were lost with a writer; and
      how many had been written when the first one was lost. */
  datatype Log = Log(
    offered: seq<Sent>, accepted: seq<Sent>, taken: seq<Sent>, delivered: seq<Sent>, lost: nat, cut: Option<nat>)

  datatype Box = Box(queue: seq<Sent>, overflow: nat, running: bool, inFlight: Option<Sent>, log: Log)

  const NEW_BOX: Box := Box([], 0, false, None, Log([], [], [], [], 0, None))

  predicate Fits(b: Box, cap: nat) { |b.queue| < cap }

  function Start(b: Box): Box {
    b.(running := true)
  }

  function Offer(b: Box, x: Sent, cap: nat): Box {
    if Fits(b, cap) then
      b.(queue := b.queue + [x], log := b.log.(offered := b.log.offered + [x], accepted := b.log.accepted + [x]))
    else b.(overflow := b.overflow + 1, log := b.log.(offered := b.log.offered + [x]))
  }

  function Take(b: Box): Box {
    if b.running && b.inFlight.None? && b.queue != [] then
      b.(queue := b.queue[1..], inFlight := Some(b.queue[0]), log := b.log.(taken := b.log.taken + [b.queue[0]]))
    else b
  }

  function Deliver(b: Box): Box {
    if b.running && b.inFlight.Some? then
      b.(inFlight := None, log := b.log.(delivered := b.log.delivered + [b.inFlight.value]))
    else b
  }

  function Flying(b: Box): seq<Sent> {
    if b.inFlight.Some? then [b.inFlight.value] else []
  }

  /** The writer ends, by a failed write or by cancellation; a frame in flight is lost. */
  function Stop(b: Box): Box {
    var cut := if b.inFlight.Some? && b.log.cut.None? then Some(|b.log.delivered|) else b.log.cut;
    b.(running := false, inFlight := None, log := b.log.(lost := b.log.lost + |Flying(b)|, cut := cut))
  }

  // ---- Subsequences ----

  /** s is what is left of t when some elements are dropped. */
  ghost predicate SubSeq<T>(s: seq<T>, t: seq<T>)
    decreases |t|
  {
    || s == []
    || (t != [] && SubSeq(s, t[..|t| - 1]))
    || (t != [] && s[|s| - 1] == t[|t| - 1] && SubSeq(s[..|s| - 1], t[..|t| - 1]))
  }

  lemma SubAppend<T>(s: seq<T>, t: seq<T>, x: T)
    requires SubSeq(s, t)
    ensures SubSeq(s, t + [x]) && SubSeq(s + [x], t + [x])
  {
    assert (t + [x])[..|t|] == t && (s + [x])[..|s|] == s;
  }

  lemma {:induction false} SubDrop<T>(s: seq<T>, x: T, t: seq<T>)
    requires SubSeq(s + [x], t)
    ensures SubSeq(s, t)
    decreases |t|
  {
    var init := t[..|t| - 1];
    if SubSeq(s + [x], init) {
      SubDrop(s, x, init);
    } else {
      assert (s + [x])[..|s|] == s;
    }
  }

  lemma {:induction false} SubMore<T>(s: seq<T>, t: seq<T>, u: seq<T>)
    requires SubSeq(s, t)
    ensures SubSeq(s, t + u)
    decreases |u|
  {
    if u == [] {
      assert t + u == t;
    } else {
      SubMore(s, t, u[..|u| - 1]);
      SubAppend(s, t + u[..|u| - 1], u[|u| - 1]);
      assert t + u == t + u[..|u| - 1] + [u[|u| - 1]];
    }
  }

  lemma {:induction false} SubAll<T>(s: seq<T>)
    ensures SubSeq(s, s)
  {
    if s != [] {
      SubAll(s[..|s| - 1]);
    }
  }

  lemma {:induction false} SubMember<T>(s: seq<T>, t: seq<T>, x: T)
    requires SubSeq(s, t) && x in s
    ensures x in t
    decreases |t|
  {
    var init := t[..|t| - 1];
    assert t == init + [t[|t| - 1]];
    if SubSeq(s, init) {
      SubMember(s, init, x);
    } else if x != t[|t| - 1] {
      assert s == s[..|s| - 1] + [s[|s| - 1]];
      SubMember(s[..|s| - 1], init, x);
    }
  }

  ghost predicate Prefix<T>(s: seq<T>, t: seq<T>) {
    |s| <= |t| && s == t[..|s|]
  }

  // ---- What every outbox keeps ----

  /** Up to the first loss the frames fetched were written one by one; that frame was skipped,
      and what was written since is among the frames fetched since. */
  ghost predicate CutOk(b: Box) {
    match b.log.cut
    case None => b.log.lost == 0 && b.log.taken == b.log.delivered + Flying(b)
    case Some(d) =>
      && b.log.lost > 0 && d <= |b.log.delivered| && d < |b.log.taken|
      && b.log.delivered[..d] == b.log.taken[..d]
      && SubSeq(b.log.delivered[d..] + Flying(b), b.log.taken[d + 1..])
  }

  ghost predicate BoxOk(b: Box, cap: nat) {
    && |b.queue| <= cap
    && b.log.accepted == b.log.taken + b.queue
    && |b.log.offered| == |b.log.accepted| + b.overflow
    && (b.overflow == 0 ==> b.log.offered == b.log.accepted)
    && |b.log.taken| == |b.log.delivered| + b.log.lost + |Flying(b)|
    && (b.inFlight.Some? ==> b.running)
    && SubSeq(b.log.delivered + Flying(b), b.log.taken)
    && CutOk(b)
  }

  lemma NewBoxOk(cap: nat)
    ensures BoxOk(Start(NEW_BOX), cap) && Start(NEW_BOX).overflow == 0
  {
  }

  lemma StartOk(b: Box, cap: nat)
    requires BoxOk(b, cap)
    ensures BoxOk(Start(b), cap)
  {
  }

  lemma OfferOk(b: Box, x: Sent, cap: nat)
    requires BoxOk(b, cap)
    ensures BoxOk(Offer(b, x, cap), cap)
  {
    hide SubSeq;
    assert b.log.taken + (b.queue + [x]) == b.log.taken + b.queue + [x];
  }

  lemma TakeOk(b: Box, cap: nat)
    requires BoxOk(b, cap)
    ensures BoxOk(Take(b), cap)
  {
    hide SubSeq;
    var t := Take(b);
    if t != b {
      var x, d := b.queue[0], b.log.delivered;
      assert b.queue == [x] + b.queue[1..];
      assert b.log.taken + [x] + b.queue[1..] == b.log.taken + b.queue;
      assert d + [] == d;
      SubAppend(d, b.log.taken, x);
      if b.log.cut.Some? {
        TakeCut(b, x, b.log.cut.value);
      }
    }
  }

  lemma TakeCut(b: Box, x: Sent, d: nat)
    requires d <= |b.log.delivered| && d < |b.log.taken|
    requires SubSeq(b.log.delivered[d..] + [], b.log.taken[d + 1..]) && b.log.delivered[..d] == b.log.taken[..d]
    ensures SubSeq(b.log.delivered[d..] + [x], (b.log.taken + [x])[d + 1..])
    ensures b.log.delivered[..d] == (b.log.taken + [x])[..d]
  {
    hide SubSeq;
    assert b.log.delivered[d..] + [] == b.log.delivered[d..];
    SubAppend(b.log.delivered[d..], b.log.taken[d + 1..], x);
    assert (b.log.taken + [x])[d + 1..] == b.log.taken[d + 1..] + [x];
  }

  lemma DeliverOk(b: Box, cap: nat)
    requires BoxOk(b, cap)
    ensures BoxOk(Deliver(b), cap)
  {
    hide SubSeq;
    var t := Deliver(b);
    if t != b {
      var x, d := b.inFlight.value, b.log.delivered;
      assert d + [x] + [] == d + [x];
      if b.log.cut.Some? {
        var n := b.log.cut.value;
        assert (d + [x])[n..] + [] == d[n..] + [x] && (d + [x])[..n] == d[..n];
      }
    }
  }

  lemma StopOk(b: Box, cap: nat)
    requires BoxOk(b, cap)
    ensures BoxOk(Stop(b), cap)
  {
    hide SubSeq;
    if b.inFlight.Some? {
      var x, d := b.inFlight.value, b.log.delivered;
      SubDrop(d, x, b.log.taken);
      assert d + [] == d;
      if b.log.cut.Some? {
        var n := b.log.cut.value;
        SubDrop(d[n..], x, b.log.taken[n + 1..]);
        assert d[n..] + [] == d[n..];
      } else {
        FirstLoss(d, x, b.log.taken);
      }
    }
  }

  lemma FirstLoss(d: seq<Sent>, x: Sent, taken: seq<Sent>)
    requires taken == d + [x]
    ensures d[..|d|] == taken[..|d|] && SubSeq(d[|d|..] + [], taken[|d| + 1..])
  {
    assert d[|d|..] + [] == [];
  }

  lemma KeepsRefusals(b: Box)
    ensures Start(b).overflow == Take(b).overflow == Deliver(b).overflow == Stop(b).overflow == b.overflow
  {
  }

  lemma OfferRefuses(b: Box, x: Sent, cap: nat)
    ensures Offer(b, x, cap).overflow == b.overflow + if Fits(b, cap) then 0 else 1
  {
  }

  // ---- The relay ----

  /** A client that a broadcast has still to remove, with the outbox that was full. The relay
      keeps the socket alone: by then the client may have another outbox. */
  datatype Removal = Removal(w: Socket, id: nat)

  /** clients maps a socket to its outbox and order lists the sockets as they registered; boxes
      are all outboxes ever made, oldest first; suspended holds, for every broadcast that found
      clients full and waits between two removals, those it has still to remove. */
  datatype State = State(
    clients: map<Socket, nat>, order: seq<Socket>, boxes: seq<Box>, counter: nat, candles: nat,
    suspended: seq<seq<Removal>>)

  const EMPTY: State := State(map[], [], [], 0, 0, [])

  ghost predicate Wired(s: State) {
    && Distinct(s.order)
    && (forall w :: w in s.order <==> w in s.clients)
    && (forall w :: w in s.clients ==> s.clients[w] < |s.boxes|)
    && forall v, w :: v in s.clients && w in s.clients && s.clients[v] == s.clients[w] ==> v == w
  }

  function Minus(order: seq<Socket>, w: Socket): (r: seq<Socket>)
    ensures forall v :: v in r <==> v in order && v != w
  {
    if order == [] then []
    else if order[0] == w then Minus(order[1..], w)
    else [order[0]] + Minus(order[1..], w)
  }

  lemma {:induction false} MinusDistinct(order: seq<Socket>, w: Socket)
    requires Distinct(order)
    ensures Distinct(Minus(order, w))
  {
    if order != [] {
      var rest := order[1..];
      assert forall i :: 0 <= i < |rest| ==> rest[i] == order[i + 1];
      MinusDistinct(rest, w);
      assert order[0] !in Minus(rest, w);
    }
  }

  function Register(s: State, w: Socket): State
    requires Wired(s)
  {
    if w in s.clients then s.(boxes := s.boxes[s.clients[w] := Start(s.boxes[s.clients[w]])])
    else s.(clients := s.clients[w := |s.boxes|], order := s.order + [w], boxes := s.boxes + [Start(NEW_BOX)])
  }

  /** Off the register, its writer cancelled. */
  function Drop(s: State, w: Socket): State
    requires Wired(s)
  {
    if w in s.clients then
      s.(clients := s.clients - {w}, order := Minus(s.order, w),
         boxes := s.boxes[s.clients[w] := Stop(s.boxes[s.clients[w]])])
    else s
  }

  function Offered(r: State, w: Socket, f: Frame, cap: nat): State
    requires Wired(r) && w in r.clients
  {
    var id := r.clients[w];
    r.(boxes := r.boxes[id := Offer(r.boxes[id], Emit(f, r.counter + 1), cap)], counter := r.counter + 1)
  }

  /** A frame for a client that has an outbox; a client it does not fit is removed. */
  function EmitTo(r: State, w: Socket, f: Frame, cap: nat): State
    requires Wired(r) && w in r.clients
  {
    OfferedWired(r, w, f, cap);
    if Fits(r.boxes[r.clients[w]], cap) then Offered(r, w, f, cap) else Drop(Offered(r, w, f, cap), w)
  }

  function Send(s: State, w: Socket, f: Frame, cap: nat): State
    requires Wired(s)
  {
    RegisterWired(s, w);
    EmitTo(Register(s, w), w, f, cap)
  }

  /** Every outbox of a registered client is offered the frame. */
  function OfferAll(boxes: seq<Box>, ids: set<nat>, x: Sent, cap: nat): (r: seq<Box>)
    ensures |r| == |boxes|
    ensures forall i :: 0 <= i < |r| ==> r[i] == if i in ids then Offer(boxes[i], x, cap) else boxes[i]
  {
    seq(|boxes|, i requires 0 <= i < |boxes| => if i in ids then Offer(boxes[i], x, cap) else boxes[i])
  }

  /** Those of some clients whose outbox is full. */
  function Dead(s: State, order: seq<Socket>, cap: nat): (r: seq<Socket>)
    requires Wired(s)
    ensures forall w :: w in r <==> w in order && w in s.clients && !Fits(s.boxes[s.clients[w]], cap)
  {
    if order == [] then []
    else if order[0] in s.clients && !Fits(s.boxes[s.clients[order[0]]], cap) then [order[0]] + Dead(s, order[1..], cap)
    else Dead(s, order[1..], cap)
  }

  /** Those clients with the outboxes they have now. */
  function Removals(s: State, ws: seq<Socket>): (r: seq<Removal>)
    requires forall w :: w in ws ==> w in s.clients
    ensures |r| == |ws| && forall i :: 0 <= i < |r| ==> r[i] == Removal(ws[i], s.clients[ws[i]])
  {
    seq(|ws|, i requires 0 <= i < |ws| => Removal(ws[i], s.clients[ws[i]]))
  }

  /** The sockets alone. */
  function Sockets(rs: seq<Removal>): (ws: seq<Socket>)
    ensures |ws| == |rs| && forall i :: 0 <= i < |ws| ==> ws[i] == rs[i].w
  {
    seq(|rs|, i requires 0 <= i < |rs| => rs[i].w)
  }

  /** The frame is offered to every client. */
  function Spread(s: State, f: Frame, cap: nat): State
    requires Wired(s)
  {
    s.(boxes := OfferAll(s.boxes, s.clients.Values, Emit(f, s.counter + 1), cap), counter := s.counter + 1,
       candles := s.candles + (if f.kind == "candle" then 1 else 0))
  }

  /** The first full client goes at once, the others one by one as the broadcast resumes. */
  function Broadcast(s: State, f: Frame, cap: nat): State
    requires Wired(s)
  {
    if s.clients == map[] then s
    else
      var dead := Dead(s, s.order, cap);
      if dead == [] then Spread(s, f, cap)
      else Drop(Spread(s, f, cap).(suspended := s.suspended + [Removals(s, dead[1..])]), dead[0])
  }

  /** A suspended broadcast removes its next client, with whatever outbox that has by then. */
  function Resume(s: State, k: nat): State
    requires Wired(s)
  {
    if k < |s.suspended| && s.suspended[k] != [] then
      Drop(s.(suspended := s.suspended[k := s.suspended[k][1..]]), s.suspended[k][0].w)
    else s
  }

  /** A connection's handler ends: its socket goes, and the outbox it started with stops. */
  function Disconnect(s: State, w: Socket, id: nat): State {
    s.(clients := s.clients - {w}, order := Minus(s.order, w),
       boxes := if id < |s.boxes| then s.boxes[id := Stop(s.boxes[id])] else s.boxes)
  }

  datatype Step =
    | Connected(w: Socket)
    | Sending(w: Socket, f: Frame)
    | Broadcasting(f: Frame)
    | Resuming(k: nat)
    | Disconnected(w: Socket, id: nat)
    | Taking(id: nat)
    | Delivering(id: nat)
    | Failing(id: nat)

  function Next(s: State, e: Step, cap: nat): State
    requires Wired(s)
  {
    match e
    case Connected(w) => Register(s, w)
    case Sending(w, f) => Send(s, w, f, cap)
    case Broadcasting(f) => Broadcast(s, f, cap)
    case Resuming(k) => Resume(s, k)
    case Disconnected(w, id) => Disconnect(s, w, id)
    case Taking(id) => if id < |s.boxes| then s.(boxes := s.boxes[id := Take(s.boxes[id])]) else s
    case Delivering(id) => if id < |s.boxes| then s.(boxes := s.boxes[id := Deliver(s.boxes[id])]) else s
    case Failing(id) => if id < |s.boxes| then s.(boxes := s.boxes[id := Stop(s.boxes[id])]) else s
  }

  /** Some suspended broadcast still holds the client with the outbox it has. */
  ghost predicate Doomed(s: State, w: Socket) {
    w in s.clients && exists k :: 0 <= k < |s.suspended| && Removal(w, s.clients[w]) in s.suspended[k]
  }

  /** A registered outbox that refused a frame belongs to a client about to be removed. */
  ghost predicate NoSkip(s: State)
    requires Wired(s)
  {
    forall w :: w in s.clients && s.boxes[s.clients[w]].overflow > 0 ==> Doomed(s, w)
  }

  /** Every removal still due is due to an outbox that refused a frame. */
  ghost predicate Owed(boxes: seq<Box>, suspended: seq<seq<Removal>>) {
    forall k: int, x: Removal :: 0 <= k < |suspended| && x in suspended[k] ==>
      x.id < |boxes| && boxes[x.id].overflow > 0
  }

  ghost predicate BoxesOk(s: State, cap: nat) {
    forall i :: 0 <= i < |s.boxes| ==> BoxOk(s.boxes[i], cap)
  }

  ghost predicate Inv(s: State, cap: nat) {
    Wired(s) && BoxesOk(s, cap) && NoSkip(s) && Owed(s.boxes, s.suspended)
  }

  // ---- Every step keeps the invariant ----

  lemma RegisterWired(s: State, w: Socket)
    requires Wired(s)
    ensures Wired(Register(s, w)) && w in Register(s, w).clients
    ensures Register(s, w).counter == s.counter && Register(s, w).suspended == s.suspended
  {
    hide Start;
  }

  /** Replacing one outbox by one in order with no more refusals keeps all. */
  lemma ReplaceOne(s: State, id: nat, b: Box, cap: nat)
    requires Inv(s, cap) && id < |s.boxes| && BoxOk(b, cap) && b.overflow == s.boxes[id].overflow
    ensures Inv(s.(boxes := s.boxes[id := b]), cap)
  {
    hide BoxOk, Doomed, Owed;
    var r := s.(boxes := s.boxes[id := b]);
    StillOwed(s.boxes, r.boxes, s.suspended);
    forall w | w in r.clients && r.boxes[r.clients[w]].overflow > 0
      ensures Doomed(r, w)
    {
      SameDoom(s, r, w);
    }
  }

  lemma SameDoom(s: State, r: State, w: Socket)
    requires r.suspended == s.suspended && w in s.clients && w in r.clients && s.clients[w] == r.clients[w]
    ensures Doomed(r, w) <==> Doomed(s, w)
  {
  }

  /** No outbox takes a refusal back. */
  ghost predicate RefusalsStand(boxes: seq<Box>, now: seq<Box>) {
    |boxes| <= |now| && forall i :: 0 <= i < |boxes| && boxes[i].overflow > 0 ==> now[i].overflow > 0
  }

  lemma StillOwed(boxes: seq<Box>, now: seq<Box>, suspended: seq<seq<Removal>>)
    requires Owed(boxes, suspended) && RefusalsStand(boxes, now)
    ensures Owed(now, suspended)
  {
  }

  lemma RegisterKeeps(s: State, w: Socket, cap: nat)
    requires Inv(s, cap)
    ensures Inv(Register(s, w), cap) && w in Register(s, w).clients
  {
    hide BoxOk, Doomed, Start, Owed;
    RegisterWired(s, w);
    NewBoxOk(cap);
    var r := Register(s, w);
    if w in s.clients {
      var id := s.clients[w];
      StartOk(s.boxes[id], cap);
      KeepsRefusals(s.boxes[id]);
      ReplaceOne(s, id, Start(s.boxes[id]), cap);
    } else {
      StillOwed(s.boxes, r.boxes, s.suspended);
      forall v | v in s.clients
        ensures Doomed(r, v) <==> Doomed(s, v)
      {
        SameDoom(s, r, v);
      }
    }
  }

  lemma DropWired(s: State, w: Socket)
    requires Wired(s)
    ensures Wired(Drop(s, w)) && Drop(s, w).suspended == s.suspended && Drop(s, w).counter == s.counter
    ensures w !in Drop(s, w).clients && forall v :: v != w ==> (v in Drop(s, w).clients <==> v in s.clients)
    ensures forall v :: v in Drop(s, w).clients ==> Drop(s, w).clients[v] == s.clients[v]
  {
    hide Stop, Minus;
    MinusDistinct(s.order, w);
  }

  lemma DropBoxes(s: State, w: Socket, cap: nat)
    requires Wired(s) && BoxesOk(s, cap)
    ensures BoxesOk(Drop(s, w), cap) && |Drop(s, w).boxes| == |s.boxes|
    ensures forall i :: 0 <= i < |s.boxes| ==> Drop(s, w).boxes[i].overflow == s.boxes[i].overflow
  {
    hide BoxOk, Stop;
    if w in s.clients {
      StopOk(s.boxes[s.clients[w]], cap);
      KeepsRefusals(s.boxes[s.clients[w]]);
    }
  }

  /** A client may go if nobody else depends on its removal. */
  lemma DropKeeps(s: State, w: Socket, cap: nat)
    requires Wired(s) && BoxesOk(s, cap) && OthersDoomed(s, w) && Owed(s.boxes, s.suspended)
    ensures Inv(Drop(s, w), cap)
  {
    hide BoxesOk, Drop, Doomed, Owed;
    DropWired(s, w);
    DropBoxes(s, w, cap);
    var r := Drop(s, w);
    StillOwed(s.boxes, r.boxes, s.suspended);
    forall v | v in r.clients && r.boxes[r.clients[v]].overflow > 0
      ensures Doomed(r, v)
    {
      SameDoom(s, r, v);
    }
  }

  /** Everyone but w is accounted for. */
  ghost predicate OthersDoomed(t: State, w: Socket)
    requires Wired(t)
  {
    forall v :: v in t.clients && v != w && t.boxes[t.clients[v]].overflow > 0 ==> Doomed(t, v)
  }

  lemma OfferedWired(r: State, w: Socket, f: Frame, cap: nat)
    requires Wired(r) && w in r.clients
    ensures Wired(Offered(r, w, f, cap)) && r.clients[w] < |r.boxes|
  {
    hide Offer, Emit;
  }

  lemma OfferedOk(r: State, w: Socket, f: Frame, cap: nat)
    requires Inv(r, cap) && w in r.clients
    ensures var t := Offered(r, w, f, cap);
            && Wired(t) && BoxesOk(t, cap) && OthersDoomed(t, w) && Owed(t.boxes, t.suspended)
            && (Fits(r.boxes[r.clients[w]], cap) ==> Inv(t, cap))
  {
    hide BoxOk, Doomed, Offer, Emit, Fits, Owed;
    var id, x := r.clients[w], Emit(f, r.counter + 1);
    var t := Offered(r, w, f, cap);
    OfferOk(r.boxes[id], x, cap);
    OfferRefuses(r.boxes[id], x, cap);
    StillOwed(r.boxes, t.boxes, r.suspended);
    forall v | v in r.clients
      ensures Doomed(t, v) <==> Doomed(r, v)
    {
      SameDoom(r, t, v);
    }
  }

  lemma EmitKeeps(r: State, w: Socket, f: Frame, cap: nat)
    requires Inv(r, cap) && w in r.clients
    ensures Wired(r) && Inv(EmitTo(r, w, f, cap), cap)
  {
    hide BoxesOk, NoSkip, Offered, Drop, Wired, OthersDoomed, Fits, Owed;
    OfferedWired(r, w, f, cap);
    OfferedOk(r, w, f, cap);
    if !Fits(r.boxes[r.clients[w]], cap) {
      DropKeeps(Offered(r, w, f, cap), w, cap);
    }
  }

  lemma SendKeeps(s: State, w: Socket, f: Frame, cap: nat)
    requires Inv(s, cap)
    ensures Inv(Send(s, w, f, cap), cap)
  {
    hide Register, EmitTo, BoxesOk, NoSkip, Wired, Owed;
    RegisterKeeps(s, w, cap);
    EmitKeeps(Register(s, w), w, f, cap);
  }

  /** A direct send that does not fit removes the client at once, and touches no other. */
  lemma OverfullSendRemoves(s: State, w: Socket, f: Frame, cap: nat)
    requires Inv(s, cap) && cap > 0
    ensures w in Send(s, w, f, cap).clients <==> w !in s.clients || Fits(s.boxes[s.clients[w]], cap)
    ensures forall v :: v != w ==> (v in Send(s, w, f, cap).clients <==> v in s.clients)
  {
    hide BoxesOk, NoSkip, Drop, Offer, Emit, Owed;
    RegisterWired(s, w);
    var r := Register(s, w);
    OfferedWired(r, w, f, cap);
    DropWired(Offered(r, w, f, cap), w);
  }

  lemma SpreadOk(s: State, f: Frame, cap: nat)
    requires Wired(s) && BoxesOk(s, cap)
    ensures Wired(Spread(s, f, cap)) && BoxesOk(Spread(s, f, cap), cap)
    ensures Spread(s, f, cap).suspended == s.suspended && Spread(s, f, cap).clients == s.clients
  {
    hide BoxOk, Offer, Emit, BoxesOk, OfferAll;
    OfferAllOk(s, Emit(f, s.counter + 1), cap);
    var r := Spread(s, f, cap);
    assert r.boxes == OfferAll(s.boxes, s.clients.Values, Emit(f, s.counter + 1), cap);
    AllOk(r, cap);
  }

  lemma AllOk(r: State, cap: nat)
    requires forall i :: 0 <= i < |r.boxes| ==> BoxOk(r.boxes[i], cap)
    ensures BoxesOk(r, cap)
  {
  }

  lemma OfferAllOk(s: State, x: Sent, cap: nat)
    requires BoxesOk(s, cap)
    ensures var r := OfferAll(s.boxes, s.clients.Values, x, cap);
            forall i :: 0 <= i < |r| ==> BoxOk(r[i], cap)
  {
    hide BoxOk, Offer;
    forall i | 0 <= i < |s.boxes|
      ensures BoxOk(Offer(s.boxes[i], x, cap), cap)
    {
      OfferOk(s.boxes[i], x, cap);
    }
  }

  /** After a frame for all, a client that refused one was doomed before or is found full now. */
  lemma SpreadRefuses(s: State, f: Frame, w: Socket, cap: nat)
    requires Inv(s, cap) && w in s.clients
    ensures w in Spread(s, f, cap).clients && s.clients[w] < |Spread(s, f, cap).boxes|
    ensures Spread(s, f, cap).boxes[s.clients[w]].overflow > 0 ==> Doomed(s, w) || w in Dead(s, s.order, cap)
    ensures w in Dead(s, s.order, cap) ==> Spread(s, f, cap).boxes[s.clients[w]].overflow > 0
  {
    hide BoxOk, Doomed, Offer, Emit, OfferAll, Owed;
    OfferRefuses(s.boxes[s.clients[w]], Emit(f, s.counter + 1), cap);
    assert s.clients[w] in s.clients.Values;
  }

  lemma SpreadStands(s: State, f: Frame, cap: nat)
    requires Wired(s)
    ensures RefusalsStand(s.boxes, Spread(s, f, cap).boxes)
  {
    hide Offer, Emit, OfferAll, Wired;
    forall i | 0 <= i < |s.boxes|
      ensures Spread(s, f, cap).boxes[i].overflow >= s.boxes[i].overflow
    {
      OfferRefuses(s.boxes[i], Emit(f, s.counter + 1), cap);
    }
  }

  lemma NewDoom(s: State, r: State, more: seq<Socket>, w: Socket)
    requires (forall v :: v in more ==> v in s.clients) && r.clients == s.clients && w in s.clients
    requires r.suspended == s.suspended + [Removals(s, more)]
    ensures Doomed(s, w) || w in more ==> Doomed(r, w)
  {
    if Doomed(s, w) {
      var k :| 0 <= k < |s.suspended| && Removal(w, s.clients[w]) in s.suspended[k];
      assert r.suspended[k] == s.suspended[k];
    } else if w in more {
      var i :| 0 <= i < |more| && more[i] == w;
      assert r.suspended[|s.suspended|][i] == Removal(w, s.clients[w]);
    }
  }

  lemma BroadcastKeeps(s: State, f: Frame, cap: nat)
    requires Inv(s, cap)
    ensures Inv(Broadcast(s, f, cap), cap)
  {
    if s.clients != map[] {
      SpreadOk(s, f, cap);
      SpreadStands(s, f, cap);
      var dead, r := Dead(s, s.order, cap), Spread(s, f, cap);
      hide BoxesOk, Doomed, Spread, Drop, Dead, Owed, RefusalsStand, Removals;
      StillOwed(s.boxes, r.boxes, s.suspended);
      if dead == [] {
        forall w | w in r.clients && r.boxes[r.clients[w]].overflow > 0
          ensures Doomed(r, w)
        {
          SpreadRefuses(s, f, w, cap);
          SameDoom(s, r, w);
        }
      } else {
        BroadcastDrops(s, f, cap, r, dead);
      }
    }
  }

  lemma BroadcastDrops(s: State, f: Frame, cap: nat, r: State, dead: seq<Socket>)
    requires Inv(s, cap) && r == Spread(s, f, cap) && dead == Dead(s, s.order, cap) && dead != []
    requires Wired(r) && BoxesOk(r, cap) && r.suspended == s.suspended && r.clients == s.clients
    requires Owed(r.boxes, s.suspended)
    ensures Wired(r.(suspended := s.suspended + [Removals(s, dead[1..])]))
    ensures Inv(Drop(r.(suspended := s.suspended + [Removals(s, dead[1..])]), dead[0]), cap)
  {
    hide BoxOk, Doomed, Spread, Drop, Dead, Owed, Removals;
    var more := dead[1..];
    var t := r.(suspended := s.suspended + [Removals(s, more)]);
    forall v | v in t.clients && v != dead[0] && t.boxes[t.clients[v]].overflow > 0
      ensures Doomed(t, v)
    {
      SpreadRefuses(s, f, v, cap);
      NewDoom(s, t, more, v);
      assert v in dead ==> v in more;
    }
    forall v | v in more
      ensures v in s.clients && r.boxes[s.clients[v]].overflow > 0
    {
      SpreadRefuses(s, f, v, cap);
    }
    MoreOwed(s, r, more);
    DropKeeps(t, dead[0], cap);
  }

  lemma MoreOwed(s: State, r: State, more: seq<Socket>)
    requires Wired(r) && r.clients == s.clients && Owed(r.boxes, s.suspended)
    requires forall v :: v in more ==> v in s.clients && r.boxes[s.clients[v]].overflow > 0
    ensures Owed(r.boxes, s.suspended + [Removals(s, more)])
  {
  }

  lemma ResumeKeeps(s: State, k: nat, cap: nat)
    requires Inv(s, cap)
    ensures Inv(Resume(s, k), cap)
  {
    hide BoxesOk, Drop, Doomed, Owed, NoSkip, Wired, OthersDoomed;
    if k < |s.suspended| && s.suspended[k] != [] {
      var t := s.(suspended := s.suspended[k := s.suspended[k][1..]]);
      ResumeDooms(s, t, k, cap);
      LessOwed(s.boxes, s.suspended, k);
      DropKeeps(t, s.suspended[k][0].w, cap);
    }
  }

  lemma ResumeDooms(s: State, t: State, k: nat, cap: nat)
    requires Inv(s, cap) && k < |s.suspended| && s.suspended[k] != []
    requires t == s.(suspended := s.suspended[k := s.suspended[k][1..]])
    ensures Wired(t) && BoxesOk(t, cap) && OthersDoomed(t, s.suspended[k][0].w)
  {
    hide BoxOk, Doomed, Owed;
    forall v | v in t.clients && v != s.suspended[k][0].w && t.boxes[t.clients[v]].overflow > 0
      ensures Doomed(t, v)
    {
      OtherDoom(s, t, k, v);
    }
  }

  lemma LessOwed(boxes: seq<Box>, suspended: seq<seq<Removal>>, k: nat)
    requires Owed(boxes, suspended) && k < |suspended| && suspended[k] != []
    ensures Owed(boxes, suspended[k := suspended[k][1..]])
  {
    var now := suspended[k := suspended[k][1..]];
    forall j: int, x: Removal | 0 <= j < |now| && x in now[j]
      ensures x.id < |boxes| && boxes[x.id].overflow > 0
    {
      assert x in suspended[j];
    }
  }

  lemma OtherDoom(s: State, t: State, k: nat, v: Socket)
    requires k < |s.suspended| && s.suspended[k] != [] && v != s.suspended[k][0].w && Doomed(s, v)
    requires t.suspended == s.suspended[k := s.suspended[k][1..]] && t.clients == s.clients
    ensures Doomed(t, v)
  {
    var x := Removal(v, s.clients[v]);
    var j :| 0 <= j < |s.suspended| && x in s.suspended[j];
    assert x in t.suspended[j];
  }

  lemma DisconnectKeeps(s: State, w: Socket, id: nat, cap: nat)
    requires Inv(s, cap)
    ensures Inv(Disconnect(s, w, id), cap)
  {
    hide BoxOk, Stop, Doomed, Minus, Owed;
    MinusDistinct(s.order, w);
    var r := Disconnect(s, w, id);
    if id < |s.boxes| {
      StopOk(s.boxes[id], cap);
      KeepsRefusals(s.boxes[id]);
    }
    StillOwed(s.boxes, r.boxes, s.suspended);
    forall v | v in r.clients && r.boxes[r.clients[v]].overflow > 0
      ensures Doomed(r, v)
    {
      SameDoom(s, r, v);
    }
  }

  lemma NextKeeps(s: State, e: Step, cap: nat)
    requires Inv(s, cap)
    ensures Inv(Next(s, e, cap), cap)
  {
    hide BoxesOk, NoSkip, Owed, Register, Send, Broadcast, Resume, Take, Deliver, Stop, Disconnect;
    match e {
      case Connected(w) => RegisterKeeps(s, w, cap);
      case Sending(w, f) => SendKeeps(s, w, f, cap);
      case Broadcasting(f) => BroadcastKeeps(s, f, cap);
      case Resuming(k) => ResumeKeeps(s, k, cap);
      case Disconnected(w, id) => DisconnectKeeps(s, w, id, cap);
      case Taking(id) => OneBoxKeeps(s, id, cap);
      case Delivering(id) => OneBoxKeeps(s, id, cap);
      case Failing(id) => OneBoxKeeps(s, id, cap);
    }
  }

  lemma OneBoxKeeps(s: State, id: nat, cap: nat)
    requires Inv(s, cap)
    ensures id < |s.boxes| ==> Inv(s.(boxes := s.boxes[id := Take(s.boxes[id])]), cap)
    ensures id < |s.boxes| ==> Inv(s.(boxes := s.boxes[id := Deliver(s.boxes[id])]), cap)
    ensures id < |s.boxes| ==> Inv(s.(boxes := s.boxes[id := Stop(s.boxes[id])]), cap)
  {
    hide BoxOk, Take, Deliver, Stop, Inv;
    if id < |s.boxes| {
      var b := s.boxes[id];
      BoxIsOk(s, id, cap);
      TakeOk(b, cap);
      DeliverOk(b, cap);
      StopOk(b, cap);
      KeepsRefusals(b);
      ReplaceOne(s, id, Take(b), cap);
      ReplaceOne(s, id, Deliver(b), cap);
      ReplaceOne(s, id, Stop(b), cap);
    }
  }

  lemma BoxIsOk(s: State, id: nat, cap: nat)
    requires Inv(s, cap) && id < |s.boxes|
    ensures BoxOk(s.boxes[id], cap)
  {
  }

  /** The state after a run of steps. */
  ghost function After(steps: seq<Step>, cap: nat): (s: State)
    ensures Inv(s, cap)
    decreases |steps|
  {
    if steps == [] then EMPTY
    else
      var s := After(steps[..|steps| - 1], cap);
      NextKeeps(s, steps[|steps| - 1], cap);
      Next(s, steps[|steps| - 1], cap)
  }

  lemma AfterNext(steps: seq<Step>, e: Step, cap: nat)
    ensures Wired(After(steps, cap)) && After(steps + [e], cap) == Next(After(steps, cap), e, cap)
  {
    assert (steps + [e])[..|steps|] == steps;
  }
}
