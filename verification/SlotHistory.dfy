/** What a run has recorded: where a reader's stamps come from, and which steps open and close
    clients, reserve and free slots. */
module SlotHistory {
  import opened Options
  import opened Collections
  import opened Slots
  import opened SlotRuns

  // ---- Stamps ----

  /** The i-th step is the last tick of the symbol. */
  ghost predicate LastTickOf(steps: seq<Step>, i: int, x: string) {
    && 0 <= i < |steps| && steps[i].TickSeen? && steps[i].symbol == x
    && forall j :: i < j < |steps| ==> !(steps[j].TickSeen? && steps[j].symbol == x)
  }

  /** The step evicts the symbol's reader. */
  ghost predicate Evicts(s: State, e: Step, x: string) {
    e.Reserve? && s.holder.None? && Apply(s, e).holder == Some((e.symbol, x))
  }

  /** The step ends the symbol's subscription. */
  ghost predicate Unsubscribes(s: State, e: Step, x: string) {
    e == Release(x) || e.ReleaseAll? || Evicts(s, e, x)
  }

  /** The i-th step is a subscription of the symbol that nothing has ended or renewed since. */
  ghost predicate StandingSubscription(start: State, steps: seq<Step>, i: int, x: string) {
    && 0 <= i < |steps| && steps[i].Subscribed? && steps[i].symbol == x
    && forall j :: i < j < |steps| ==>
         !(steps[j].Subscribed? && steps[j].symbol == x) && !Unsubscribes(Run(start, steps[..j]), steps[j], x)
  }

  lemma TickMoves(s: State, e: Step, x: string)
    ensures var t := Apply(s, e);
            if e.TickSeen? && e.symbol == x then x in t.lastTick && t.lastTick[x] == e.at
            else (x in t.lastTick <==> x in s.lastTick) && (x in s.lastTick ==> t.lastTick[x] == s.lastTick[x])
  {
    hide Without, LeastActive, Evictable, ActivityAt;
  }

  lemma SubscriptionMoves(s: State, e: Step, x: string)
    ensures var t := Apply(s, e);
            if e.Subscribed? && e.symbol == x then x in t.subs && x in t.subscribedAt && t.subscribedAt[x] == e.at
            else if Unsubscribes(s, e, x) then x !in t.subs && x !in t.subscribedAt
            else (x in t.subs <==> x in s.subs) && (x in t.subscribedAt <==> x in s.subscribedAt)
                 && (x in s.subscribedAt ==> t.subscribedAt[x] == s.subscribedAt[x])
  {
    hide Without, LeastActive, Evictable, ActivityAt;
  }

  /** In every run a symbol's last tick is the one of its last TickSeen, and it has none if and
      only if there was no such step. */
  lemma {:induction false} LastTickRecorded(start: State, steps: seq<Step>, x: string)
    requires start.lastTick == map[]
    ensures var s := Run(start, steps);
            && (x in s.lastTick <==> exists i :: LastTickOf(steps, i, x))
            && forall i :: LastTickOf(steps, i, x) ==> s.lastTick[x] == steps[i].at
  {
    if steps != [] {
      hide Apply;
      var init, e := steps[..|steps| - 1], steps[|steps| - 1];
      LastTickRecorded(start, init, x);
      TickMoves(Run(start, init), e, x);
      if e.TickSeen? && e.symbol == x {
        assert LastTickOf(steps, |steps| - 1, x);
      } else {
        forall i
          ensures LastTickOf(steps, i, x) <==> LastTickOf(init, i, x)
        {
          SameLast(steps, i, x);
        }
      }
    }
  }

  lemma SameLast(steps: seq<Step>, i: int, x: string)
    requires steps != []
    requires var e := steps[|steps| - 1];
             !(e.TickSeen? && e.symbol == x)
    ensures LastTickOf(steps, i, x) <==> LastTickOf(steps[..|steps| - 1], i, x)
  {
    var init := steps[..|steps| - 1];
    if LastTickOf(init, i, x) {
      assert forall j :: i < j < |steps| - 1 ==> steps[j] == init[j];
    }
    if LastTickOf(steps, i, x) {
      assert forall j :: i < j < |init| ==> init[j] == steps[j];
    }
  }

  lemma SameStanding(start: State, steps: seq<Step>, i: int, x: string)
    requires steps != []
    ensures var init, e := steps[..|steps| - 1], steps[|steps| - 1];
            i < |steps| - 1 ==>
              (StandingSubscription(start, steps, i, x) <==>
                 && StandingSubscription(start, init, i, x)
                 && !(e.Subscribed? && e.symbol == x) && !Unsubscribes(Run(start, init), e, x))
  {
    hide Run, Apply, Unsubscribes;
    var init := steps[..|steps| - 1];
    assert forall j :: 0 <= j < |init| ==> init[..j] == steps[..j];
  }

  /** In every run a symbol is subscribed, with the stamp of the last time, if and only if that
      subscription has not been ended by a release, a release of all or an eviction. */
  lemma {:induction false} SubscriptionRecorded(start: State, steps: seq<Step>, x: string)
    requires start.subscribedAt == map[] && start.subs == {}
    ensures var s := Run(start, steps);
            && (x in s.subs <==> x in s.subscribedAt)
            && (x in s.subscribedAt <==> exists i :: StandingSubscription(start, steps, i, x))
            && forall i :: StandingSubscription(start, steps, i, x) ==> s.subscribedAt[x] == steps[i].at
  {
    if steps != [] {
      hide Apply, Unsubscribes, StandingSubscription;
      var init, e, last := steps[..|steps| - 1], steps[|steps| - 1], |steps| - 1;
      var s := Run(start, init);
      SubscriptionRecorded(start, init, x);
      SubscriptionMoves(s, e, x);
      StandsLast(start, steps, x);
      forall i
        ensures i < last ==>
                  (StandingSubscription(start, steps, i, x) <==>
                     && StandingSubscription(start, init, i, x)
                     && !(e.Subscribed? && e.symbol == x) && !Unsubscribes(s, e, x))
      {
        SameStanding(start, steps, i, x);
      }
      forall i
        ensures StandingSubscription(start, init, i, x) ==> i < last
        ensures StandingSubscription(start, steps, i, x) ==> i <= last
      {
        StandsWithin(start, init, i, x);
        StandsWithin(start, steps, i, x);
      }
    }
  }

  lemma StandsWithin(start: State, steps: seq<Step>, i: int, x: string)
    ensures StandingSubscription(start, steps, i, x) ==> 0 <= i < |steps|
  {
  }

  lemma StandsLast(start: State, steps: seq<Step>, x: string)
    requires steps != []
    ensures var e := steps[|steps| - 1];
            StandingSubscription(start, steps, |steps| - 1, x) <==> e.Subscribed? && e.symbol == x
  {
  }

  // ---- Who comes and goes ----

  /** The symbol's handshake starts: a free slot is reserved, or its eviction is finished. */
  ghost predicate Grants(s: State, e: Step, y: string) {
    || (e == Reserve(y) && y in s.waiting && s.holder.None? && |s.clients| + |s.pending| < s.budget)
    || (e.FinishEvict? && s.holder.Some? && s.holder.value.0 == y)
  }

  /** The symbol's open client goes. */
  ghost predicate Closes(s: State, e: Step, y: string) {
    e == Release(y) || e.ReleaseAll? || (e == DropStale(y) && y in s.closing) || Evicts(s, e, y)
  }

  /** What one step does to the bookkeeping of one symbol. */
  ghost predicate Moved(s: State, e: Step, y: string) {
    var t := Apply(s, e);
    && (y in t.clients <==> (e == Complete(y) && y in s.inflight) || (y in s.clients && !Closes(s, e, y)))
    && (y in t.inflight <==>
          Grants(s, e, y) || (y in s.inflight && e != Complete(y) && e != Abort(y)))
    && (y in t.pending <==>
          Grants(s, e, y) || (y in s.pending && e != Complete(y) && e != Abort(y) && e != Release(y)))
    && (y in t.tasks <==> e == Spawn(y) || (y in s.tasks && e != TaskDone(y) && !Evicts(s, e, y)))
    && (y in t.buffered <==>
          (e.FinishEvict? && s.holder.Some? && s.holder.value.1 == y) ||
          (y in s.buffered && !(e.Subscribed? && e.symbol == y)))
  }

  /** Where one symbol's coroutine stands after a step: closing a stale client of its own, waiting
      for the lock, or holding it while its victim is disconnected. */
  ghost predicate Stands(s: State, e: Step, y: string) {
    var t := Apply(s, e);
    var armed := e.Arm? && e.symbol == y && y != s.primary && !Busy(s, y);
    && (y in t.closing <==>
          (armed && y in s.clients && !e.alive) || (y in s.closing && e != DropStale(y) && e != Abort(y)))
    && (y in t.waiting <==>
          || (armed && y !in s.clients) || (e == DropStale(y) && y in s.closing)
          || (y in s.waiting && !(e == Reserve(y) && s.holder.None?) && e != Abort(y)))
    && ((t.holder.Some? && t.holder.value.0 == y) <==>
          || (e == Reserve(y) && s.holder.None? && t.holder.Some?)
          || (s.holder.Some? && s.holder.value.0 == y && e != FinishEvict && e != Abort(y)))
  }

  lemma StepStands(s: State, e: Step, y: string)
    requires Bookkept(s)
    ensures Stands(s, e, y)
  {
    hide LeastActive, Evictable, ActivityAt, Without, CapReached;
    match e {
      case Reserve(x) =>
        ReserveStands(s, x, y);
      case _ =>
    }
  }

  lemma ReserveStands(s: State, x: string, y: string)
    requires Bookkept(s)
    ensures Stands(s, Reserve(x), y)
  {
    hide Victim, CapReached, Without;
  }

  lemma ClientsAfter(s: State, x: string, y: string)
    ensures y in Without(s.clients, x) <==> y in s.clients && y != x
    ensures y in s.clients + [x] <==> y in s.clients || y == x
  {
    WithoutMember(s.clients, x, y);
  }

  lemma ReserveMoves(s: State, x: string, y: string)
    requires Bookkept(s)
    ensures Moved(s, Reserve(x), y)
  {
    hide LeastActive, Evictable, ActivityAt, Without, Moved, Apply;
    if x in s.waiting && s.holder.None? && !CapReached(s, x) && Reserved(s) >= s.budget {
      EvictableIffOpen(s, s.clients, x);
      VictimOpen(s, x);
      EvictionMoves(s, x, Victim(s, x).value, y);
    } else {
      NoEvictionMoves(s, x, y);
    }
  }

  lemma EvictionMoves(s: State, x: string, v: string, y: string)
    requires Bookkept(s) && x in s.waiting && s.holder.None? && !CapReached(s, x) && Reserved(s) >= s.budget
    requires Victim(s, x) == Some(v) && v in s.clients
    ensures Moved(s, Reserve(x), y)
  {
    hide Victim, CapReached, Without;
    assert Apply(s, Reserve(x)) == TakeOut(s, v, x);
    ClientsAfter(s, v, y);
  }

  /** Without an eviction the step reserves a free slot, or only gives up waiting. */
  lemma NoEviction(s: State, x: string)
    requires !(x in s.waiting && s.holder.None? && !CapReached(s, x) && Reserved(s) >= s.budget)
    ensures var t := Apply(s, Reserve(x));
            if x in s.waiting && s.holder.None? && Reserved(s) < s.budget then
              t == s.(pending := s.pending + {x}, waiting := s.waiting - {x}, inflight := s.inflight + {x})
            else t == s || t == s.(waiting := s.waiting - {x})
  {
    hide Victim, Without, Evictable, TakeOut;
  }

  lemma NoEvictionMoves(s: State, x: string, y: string)
    requires !(x in s.waiting && s.holder.None? && !CapReached(s, x) && Reserved(s) >= s.budget)
    ensures Moved(s, Reserve(x), y)
  {
    hide CapReached, Apply;
    NoEviction(s, x);
  }

  lemma CompleteMoves(s: State, x: string, y: string)
    requires Bookkept(s)
    ensures Moved(s, Complete(x), y)
  {
    hide LeastActive, Evictable, ActivityAt, Without;
    ClientsAfter(s, x, y);
  }

  lemma ReleaseMoves(s: State, x: string, y: string)
    requires Bookkept(s)
    ensures Moved(s, Release(x), y)
  {
    hide LeastActive, Evictable, ActivityAt, Without;
    ClientsAfter(s, x, y);
  }

  lemma DropStaleMoves(s: State, x: string, y: string)
    requires Bookkept(s)
    ensures Moved(s, DropStale(x), y)
  {
    hide LeastActive, Evictable, ActivityAt, Without;
    ClientsAfter(s, x, y);
  }

  lemma FinishMoves(s: State, y: string)
    requires Bookkept(s)
    ensures Moved(s, FinishEvict, y)
  {
    hide LeastActive, Evictable, ActivityAt, Without;
  }

  lemma AbortMoves(s: State, x: string, y: string)
    requires Bookkept(s)
    ensures Moved(s, Abort(x), y)
  {
    hide LeastActive, Evictable, ActivityAt, Without;
  }

  lemma QuietMoves(s: State, e: Step, y: string)
    requires e.Arm? || e.ReleaseAll? || e.Spawn? || e.TaskDone? || e.Subscribed? || e.TickSeen?
    ensures Moved(s, e, y)
  {
  }

  /** In every run each step opens and closes clients, starts and ends handshakes, reserves and
      frees slots, parks readers and moves coroutines exactly as told, and touches no other
      symbol. */
  lemma {:induction false} EachStepMoves(budget: nat, primary: string, steps: seq<Step>, e: Step, y: string)
    ensures Moved(Run(Initial(budget, primary), steps), e, y) && Stands(Run(Initial(budget, primary), steps), e, y)
  {
    InitialInv(budget, primary);
    RunKeepsInv(Initial(budget, primary), steps);
    hide Run, Moved, Stands;
    StepMoves(Run(Initial(budget, primary), steps), e, y);
    StepStands(Run(Initial(budget, primary), steps), e, y);
  }

  lemma StepMoves(s: State, e: Step, y: string)
    requires Bookkept(s)
    ensures Moved(s, e, y)
  {
    hide Moved, Bookkept;
    match e {
      case Reserve(x) => ReserveMoves(s, x, y);
      case Complete(x) => CompleteMoves(s, x, y);
      case Release(x) => ReleaseMoves(s, x, y);
      case DropStale(x) => DropStaleMoves(s, x, y);
      case FinishEvict => FinishMoves(s, y);
      case Abort(x) => AbortMoves(s, x, y);
      case _ => QuietMoves(s, e, y);
    }
  }
}
