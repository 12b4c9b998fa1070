/** The bridge's own bookkeeping of live-stream slots, updated in place. */
module ReaderSlots {
  import opened Options
  import opened Slots

  datatype Reservation = Granted | Evicting(victim: string) | Refused

  class SlotBook {
    const budget: nat
    const primary: string
    var clients: seq<string>
    var pending: set<string>
    var tasks: set<string>
    var subs: set<string>
    var subscribedAt: map<string, int>
    var lastTick: map<string, int>
    var buffered: set<string>
    /** Where the coroutines are, and the count of overlapping releases. */
    ghost var closing: set<string>
    ghost var waiting: set<string>
    ghost var holder: Option<(string, string)>
    ghost var inflight: set<string>
    ghost var overlaps: nat

    ghost function Now(): State
      reads this
    {
      State(budget, primary, clients, pending, tasks, subs, subscribedAt, lastTick, buffered,
            closing, waiting, holder, inflight, overlaps)
    }

    constructor (budget: nat, primary: string)
      ensures Now() == Initial(budget, primary)
    {
      this.budget, this.primary := budget, primary;
      clients, pending, tasks, subs, subscribedAt, lastTick, buffered := [], {}, {}, {}, map[], map[], {};
      closing, waiting, holder, inflight, overlaps := {}, {}, None, {}, 0;
    }

    function Activity(x: string): (t: int)
      reads this
      ensures t == ActivityAt(Now(), x)
    {
      var tick := if x in lastTick then lastTick[x] else 0;
      var sub := if x in subscribedAt then subscribedAt[x] else 0;
      if tick >= sub then tick else sub
    }

    method FindVictim(exclude: string) returns (victim: Option<string>)
      ensures victim == Victim(Now(), exclude)
    {
      victim := None;
      ghost var chosen: seq<string> := [];
      for i := 0 to |clients|
        invariant chosen == Evictable(Now(), clients[..i], exclude)
        invariant victim == if chosen == [] then None else Some(LeastActive(Now(), chosen))
      {
        assert clients[..i + 1][..i] == clients[..i];
        var x := clients[i];
        if x != exclude && x != primary {
          assert (chosen + [x])[..|chosen|] == chosen;
          chosen := chosen + [x];
          if victim.None? || Activity(x) < Activity(victim.value) {
            victim := Some(x);
          }
        }
      }
      assert clients[..|clients|] == clients;
    }

    method HasEvictable(x: string) returns (found: bool)
      ensures found == (Evictable(Now(), clients, x) != [])
    {
      var victim := FindVictim(x);
      found := victim.Some?;
    }

    method SlotsFree(x: string) returns (free: bool)
      ensures free == SlotsAvailable(Now(), x)
    {
      if x == primary || x in clients || x in tasks {
        return true;
      }
      if |clients| + |pending| < budget {
        return true;
      }
      free := HasEvictable(x);
    }

    /** The stretch under the slot lock up to the first await. */
    method ReserveSlot(x: string) returns (r: Reservation)
      requires x in waiting && holder.None?
      modifies this
      ensures Now() == Apply(old(Now()), Reserve(x))
      ensures r.Refused? <==> CapReached(old(Now()), x)
      ensures r.Evicting? ==> holder == Some((x, r.victim)) && |old(clients)| + |old(pending)| >= budget
      ensures r.Granted? ==> x in pending && x in inflight
    {
      var free := SlotsFree(x);
      if !free {
        waiting := waiting - {x};
        return Refused;
      }
      if |clients| + |pending| >= budget {
        var victim := FindVictim(x);
        if victim.None? {
          waiting := waiting - {x};
          return Refused;
        }
        TakeOutReader(victim.value, x);
        return Evicting(victim.value);
      }
      pending := pending + {x};
      waiting, inflight := waiting - {x}, inflight + {x};
      return Granted;
    }

    method TakeOutReader(victim: string, x: string)
      modifies this
      ensures Now() == TakeOut(old(Now()), victim, x)
    {
      hide Without, Evictable, LeastActive, ActivityAt;
      tasks := tasks - {victim};
      pending := pending - {victim};
      subs := subs - {victim};
      subscribedAt := subscribedAt - {victim};
      clients := Without(clients, victim);
      holder, waiting := Some((x, victim)), waiting - {x};
    }

    /** The victim's client is gone: park it, reserve, and start the handshake. */
    method FinishEviction(x: string, victim: string)
      requires holder == Some((x, victim))
      modifies this
      ensures Now() == Apply(old(Now()), FinishEvict)
    {
      buffered := buffered + {victim};
      pending := pending + {x};
      holder, inflight := None, inflight + {x};
    }

    /** The handshake ended: the client is registered on success, the reservation goes either way. */
    method FinishHandshake(x: string, ok: bool)
      requires x in inflight && Inv(Now())
      modifies this
      ensures Now() == Apply(old(Now()), if ok then Complete(x) else Abort(x))
    {
      InFlightOnly(Now(), x);
      hide Inv, Evictable, LeastActive, Without, ActivityAt, CapReached, SlotsAvailable, TakeOut;
      if ok {
        clients := clients + [x];
      }
      pending := pending - {x};
      inflight := inflight - {x};
      assert closing - {x} == closing && waiting - {x} == waiting;
    }

    /** Drop only this symbol's client. */
    method ReleaseReader(x: string)
      modifies this
      ensures Now() == Apply(old(Now()), Release(x))
    {
      hide Without, Evictable, LeastActive, ActivityAt, CapReached, SlotsAvailable, TakeOut, Victim, Busy;
      pending := pending - {x};
      subs := subs - {x};
      subscribedAt := subscribedAt - {x};
      if x != primary {
        clients := Without(clients, x);
      }
      overlaps := overlaps + (if x in inflight then 1 else 0);
    }

    /** Drop every client; reservations stay with their handshakes. */
    method ReleaseEveryClient()
      modifies this
      ensures Now() == Apply(old(Now()), ReleaseAll)
    {
      clients, subs, subscribedAt := [], {}, map[];
    }
  }

  lemma InFlightOnly(s: State, x: string)
    requires Inv(s) && x in s.inflight
    ensures x !in s.closing && x !in s.waiting && (s.holder.Some? ==> s.holder.value.0 != x)
  {
  }
}
