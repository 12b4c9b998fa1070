/** What holds after every run of the slot allocator. */
module SlotRuns {
  import opened Options
  import opened Slots
  import opened Collections

  lemma {:induction false} RunKeepsInv(s: State, steps: seq<Step>)
    requires Inv(s)
    ensures Inv(Run(s, steps)) && Run(s, steps).budget == s.budget && Run(s, steps).primary == s.primary
  {
    if steps != [] {
      RunKeepsInv(s, steps[..|steps| - 1]);
      StepKeepsInv(Run(s, steps[..|steps| - 1]), steps[|steps| - 1]);
    }
  }

  // ---- Main results ----

  lemma InitialInv(budget: nat, primary: string)
    ensures Inv(Initial(budget, primary))
  {
  }

  /** In every interleaving the open secondaries and the handshakes in flight exceed the budget
      by no more than the number of releases that hit a handshake in flight; without such a
      release the reservations are exactly the handshakes and the budget is never exceeded.
      The primary never has a secondary client, so it is never evicted. */
  lemma {:induction false} BudgetHolds(budget: nat, primary: string, steps: seq<Step>)
    ensures var s := Run(Initial(budget, primary), steps);
            && |s.clients| + |s.inflight| <= budget + s.overlaps
            && (s.overlaps == 0 ==> s.pending == s.inflight && |s.clients| + |s.pending| <= budget)
            && Distinct(s.clients) && primary !in s.clients && primary !in s.inflight
  {
    InitialInv(budget, primary);
    RunKeepsInv(Initial(budget, primary), steps);
    var s := Run(Initial(budget, primary), steps);
    if s.overlaps == 0 {
      assert s.inflight - s.pending == {};
    }
  }

  // ---- Who keeps the budget ----

  /** Every release in the run finds no handshake of its symbol in flight, as when a reader
      releases its own client, or when it has been cancelled and awaited before. */
  ghost predicate Disciplined(budget: nat, primary: string, steps: seq<Step>) {
    forall i :: 0 <= i < |steps| && steps[i].Release? ==>
        steps[i].symbol !in Run(Initial(budget, primary), steps[..i]).inflight
  }

  lemma {:induction false} DisciplinedOverlaps(budget: nat, primary: string, steps: seq<Step>)
    requires Disciplined(budget, primary, steps)
    ensures Run(Initial(budget, primary), steps).overlaps == 0
  {
    hide Inv;
    if steps != [] {
      hide Without, Victim, CapReached, TakeOut;
      var init := steps[..|steps| - 1];
      forall i | 0 <= i < |init| && init[i].Release?
        ensures init[i].symbol !in Run(Initial(budget, primary), init[..i]).inflight
      {
        assert init[..i] == steps[..i] && init[i] == steps[i];
      }
      DisciplinedOverlaps(budget, primary, init);
    }
  }

  /** While nobody releases a symbol in mid-handshake, the open secondaries and the handshakes in
      flight never exceed the budget, in any interleaving. */
  lemma {:induction false} DisciplineKeepsBudget(budget: nat, primary: string, steps: seq<Step>)
    requires Disciplined(budget, primary, steps)
    ensures var s := Run(Initial(budget, primary), steps);
            |s.clients| + |s.inflight| <= budget && s.pending == s.inflight
  {
    hide Run, Disciplined;
    DisciplinedOverlaps(budget, primary, steps);
    BudgetHolds(budget, primary, steps);
  }

  // ---- When the budget can still be exceeded ----

  ghost predicate Over(s: State) {
    |s.clients| + |s.inflight| > s.budget
  }

  lemma ApplyCalm(s: State, e: Step, k: nat)
    ensures Apply(s, e).overlaps >= s.overlaps
    ensures Apply(s.(overlaps := k), e) == Apply(s, e).(overlaps := Apply(s, e).overlaps - s.overlaps + k)
  {
    hide LeastActive, ActivityAt, Without;
    match e {
      case Reserve(x) => ReserveCalm(s, x, k);
      case _ =>
    }
  }

  lemma {:induction false} EvictableCalm(s: State, cs: seq<string>, x: string, k: nat)
    ensures Evictable(s.(overlaps := k), cs, x) == Evictable(s, cs, x)
  {
    if cs != [] {
      EvictableCalm(s, cs[..|cs| - 1], x, k);
    }
  }

  lemma {:induction false} LeastCalm(s: State, cs: seq<string>, k: nat)
    requires cs != []
    ensures LeastActive(s.(overlaps := k), cs) == LeastActive(s, cs)
  {
    if |cs| > 1 {
      LeastCalm(s, cs[..|cs| - 1], k);
    }
  }

  lemma ReserveCalm(s: State, x: string, k: nat)
    ensures Apply(s.(overlaps := k), Reserve(x)) == Apply(s, Reserve(x)).(overlaps := k)
    ensures Apply(s, Reserve(x)).overlaps == s.overlaps
  {
    hide LeastActive, ActivityAt, Without, Evictable;
    EvictableCalm(s, s.clients, x, k);
    if Evictable(s, s.clients, x) != [] {
      LeastCalm(s, Evictable(s, s.clients, x), k);
    }
  }

  /** Overlaps are only counted: a run does the same with another count. */
  lemma {:induction false} RunCalm(s: State, steps: seq<Step>)
    ensures Run(s, steps).overlaps >= s.overlaps
    ensures Run(s.(overlaps := 0), steps) == Run(s, steps).(overlaps := Run(s, steps).overlaps - s.overlaps)
  {
    hide Run, Apply;
    RunLast(s, steps);
    RunLast(s.(overlaps := 0), steps);
    if steps != [] {
      RunCalm(s, steps[..|steps| - 1]);
      StepCalm(Run(s, steps[..|steps| - 1]), steps[|steps| - 1], s.overlaps);
    }
  }

  lemma RunLast(s: State, steps: seq<Step>)
    ensures Run(s, steps) == if steps == [] then s else Apply(Run(s, steps[..|steps| - 1]), steps[|steps| - 1])
  {
    hide Apply;
  }

  lemma StepCalm(t: State, e: Step, k: nat)
    requires t.overlaps >= k
    ensures Apply(t, e).overlaps >= t.overlaps
    ensures Apply(t.(overlaps := t.overlaps - k), e) == Apply(t, e).(overlaps := Apply(t, e).overlaps - k)
  {
    hide Apply;
    ApplyCalm(t, e, t.overlaps - k);
  }

  lemma {:induction false} RunJoin(s: State, a: seq<Step>, b: seq<Step>)
    ensures Run(s, a + b) == Run(Run(s, a), b)
  {
    hide Apply;
    if b == [] {
      assert a + b == a;
    } else {
      var init, e := b[..|b| - 1], b[|b| - 1];
      RunJoin(s, a, init);
      RunSnoc(s, a + init, e);
      assert a + b == a + init + [e];
    }
  }

  lemma {:induction false} Longer(avoid: set<string>) returns (n: nat)
    ensures forall s :: s in avoid ==> |s| < n
  {
    if avoid == {} {
      n := 0;
    } else {
      var s :| s in avoid;
      var m := Longer(avoid - {s});
      n := if |s| < m then m else |s| + 1;
      forall t | t in avoid
        ensures |t| < n
      {
        if t != s {
          assert t in avoid - {s};
        }
      }
    }
  }

  lemma FreshSymbol(s: State) returns (z: string)
    ensures z != s.primary && z !in s.clients && !Busy(s, z)
  {
    var held := if s.holder.Some? then {s.holder.value.0} else {};
    var n := Longer({s.primary} + (set x | x in s.clients) + s.closing + s.waiting + s.inflight + held);
    z := seq(n, i => 'z');
    assert |z| == n;
  }

  /** A fresh symbol takes a free slot. */
  lemma TakeSlot(s: State, z: string)
    requires Bookkept(s) && s.holder.None? && Reserved(s) < s.budget
    requires z != s.primary && z !in s.clients && !Busy(s, z)
    ensures Run(s, [Arm(z, true), Reserve(z)]) == s.(pending := s.pending + {z}, inflight := s.inflight + {z})
  {
    hide Apply;
    var a := s.(waiting := s.waiting + {z});
    FreshWaits(s, z, a);
    RunSnoc(s, [], Arm(z, true));
    RunSnoc(s, [Arm(z, true)], Reserve(z));
    assert [] + [Arm(z, true)] == [Arm(z, true)] && [Arm(z, true)] + [Reserve(z)] == [Arm(z, true), Reserve(z)];
  }

  lemma FreshWaits(s: State, z: string, a: State)
    requires s.holder.None? && Reserved(s) < s.budget && z != s.primary && z !in s.clients && !Busy(s, z)
    requires a == s.(waiting := s.waiting + {z})
    ensures Apply(s, Arm(z, true)) == a
    ensures Apply(a, Reserve(z)) == s.(pending := s.pending + {z}, inflight := s.inflight + {z})
  {
    hide Evictable, LeastActive, Without, ActivityAt;
    assert a.waiting - {z} == s.waiting;
  }

  /** With a handshake whose reservation is gone, filling up the budget exceeds it. */
  lemma {:induction false} FillUp(s: State) returns (more: seq<Step>)
    requires Inv(s) && s.holder.None? && s.pending != s.inflight
    ensures Run(s, more).overlaps == s.overlaps && Over(Run(s, more))
    decreases s.budget - Reserved(s)
  {
    if Reserved(s) >= s.budget {
      more := [];
      Split(s.pending, s.inflight);
      assert s.inflight - s.pending != {};
    } else {
      var z := FreshSymbol(s);
      var two := [Arm(z, true), Reserve(z)];
      TakeSlot(s, z);
      RunKeepsInv(s, two);
      var t := Run(s, two);
      assert z !in s.inflight && z !in s.pending;
      assert t.pending - {z} == s.pending && t.inflight - {z} == s.inflight;
      var rest := FillUp(t);
      more := two + rest;
      RunJoin(s, two, rest);
    }
  }

  /** An eviction under way can be finished, and its symbol's handshake starts. */
  lemma FinishFirst(s: State) returns (t: State)
    requires Inv(s) && s.holder.Some?
    ensures t == Run(s, [FinishEvict]) && Inv(t) && t.holder.None? && t.overlaps == s.overlaps && t.budget == s.budget
    ensures |t.clients| + |t.inflight| == Outstanding(s)
    ensures s.pending != s.inflight ==> t.pending != t.inflight
  {
    RunSnoc(s, [], FinishEvict);
    assert [] + [FinishEvict] == [FinishEvict];
    t := Apply(s, FinishEvict);
    StepKeepsInv(s, FinishEvict);
    var x := s.holder.value.0;
    assert t.inflight - {x} == s.inflight && t.pending - {x} == s.pending;
  }

  /** From a consistent state, some continuation without a release in mid-handshake exceeds the
      budget, if more is outstanding than allowed or a handshake has lost its reservation. */
  lemma CanExceed(s: State) returns (more: seq<Step>)
    requires Inv(s) && (Outstanding(s) > s.budget || s.pending != s.inflight)
    ensures Run(s, more).overlaps == s.overlaps && Over(Run(s, more))
  {
    hide Inv, Apply;
    if s.holder.None? {
      if Outstanding(s) > s.budget {
        more := [];
      } else {
        more := FillUp(s);
      }
    } else {
      var t := FinishFirst(s);
      if Outstanding(s) > s.budget {
        more := [FinishEvict];
      } else {
        var rest := FillUp(t);
        more := [FinishEvict] + rest;
        RunJoin(s, [FinishEvict], rest);
      }
    }
  }

  lemma CalmInv(s: State)
    requires Inv(s) && Outstanding(s) <= s.budget && s.pending == s.inflight
    ensures Inv(s.(overlaps := 0))
  {
    assert s.inflight - s.pending == {};
  }

  lemma CalmWithin(s: State)
    requires Inv(s) && s.overlaps == 0
    ensures !Over(s)
  {
  }

  /** Otherwise none does. */
  lemma CannotExceed(s: State, more: seq<Step>)
    requires Inv(s) && Outstanding(s) <= s.budget && s.pending == s.inflight
    requires Run(s, more).overlaps == s.overlaps
    ensures !Over(Run(s, more))
  {
    hide Inv, Run, Apply;
    CalmInv(s);
    RunCalm(s, more);
    RunKeepsInv(s.(overlaps := 0), more);
    CalmWithin(Run(s.(overlaps := 0), more));
  }

  /** Exactly when damage is done: from a state of any run, releases in mid-handshake included,
      some continuation without a further one exceeds the budget if and only if more is
      outstanding than the budget allows or a handshake has lost its reservation. */
  lemma {:induction false} ExceedsIff(budget: nat, primary: string, steps: seq<Step>)
    ensures var s := Run(Initial(budget, primary), steps);
            (exists more :: Run(s, more).overlaps == s.overlaps && Over(Run(s, more))) <==>
            Outstanding(s) > s.budget || s.pending != s.inflight
  {
    hide Inv, Outstanding, Over, Apply;
    InitialInv(budget, primary);
    RunKeepsInv(Initial(budget, primary), steps);
    var s := Run(Initial(budget, primary), steps);
    if Outstanding(s) > s.budget || s.pending != s.inflight {
      var more := CanExceed(s);
    } else {
      forall more | Run(s, more).overlaps == s.overlaps
        ensures !Over(Run(s, more))
      {
        CannotExceed(s, more);
      }
    }
  }

  /** An arming symbol is refused exactly when no secondary is open and the whole budget is
      taken by handshakes (or is 0). */
  lemma {:induction false} RefusedIffFull(budget: nat, primary: string, steps: seq<Step>, x: string)
    ensures var s := Run(Initial(budget, primary), steps);
            x in s.waiting ==>
              && (CapReached(s, x) <==> s.clients == [] && |s.pending| >= budget)
              && (CapReached(s, x) && s.overlaps == 0 ==> |s.pending| == budget)
  {
    InitialInv(budget, primary);
    RunKeepsInv(Initial(budget, primary), steps);
    BudgetHolds(budget, primary, steps);
    var s := Run(Initial(budget, primary), steps);
    if x in s.waiting {
      EvictableIffOpen(s, s.clients, x);
    }
  }

  /** What the reservation does once a victim is chosen. */
  ghost predicate Evicted(s: State, x: string, k: int)
    requires 0 <= k < |s.clients|
  {
    var v, t := s.clients[k], Apply(s, Reserve(x));
    var u := Apply(t, FinishEvict);
    && t.holder == Some((x, v))
    && t.clients == s.clients[..k] + s.clients[k + 1..]
    && v !in t.clients && v !in t.tasks && v !in t.subs && t.pending == s.pending
    && u.clients == t.clients && v in u.buffered && u.pending == s.pending + {x}
  }

  lemma VictimEvicted(s: State, x: string, k: int)
    requires Bookkept(s) && x in s.waiting && s.holder.None? && !CapReached(s, x) && Reserved(s) >= s.budget
    requires 0 <= k < |s.clients| && Victim(s, x) == Some(s.clients[k])
    ensures Evicted(s, x, k)
  {
    hide Victim, CapReached, Without, ActivityAt, Run;
    var v := s.clients[k];
    assert Apply(s, Reserve(x)) == TakeOut(s, v, x);
    WithoutAt(s.clients, k);
    WithoutMember(s.clients, v, v);
    assert v !in s.pending;
  }

  /** A stamp as it is read: 0 when there is none. */
  function Stamp(m: map<string, int>, x: string): (t: int)
    ensures x in m ==> t == m[x]
    ensures x !in m ==> t == 0
  {
    if x in m then m[x] else 0
  }

  /** The last tick or the subscription of y is no earlier than either stamp of v. */
  ghost predicate NoLessActive(s: State, y: string, v: string) {
    var vt, vs := Stamp(s.lastTick, v), Stamp(s.subscribedAt, v);
    || (Stamp(s.lastTick, y) >= vt && Stamp(s.lastTick, y) >= vs)
    || (Stamp(s.subscribedAt, y) >= vt && Stamp(s.subscribedAt, y) >= vs)
  }

  /** The last tick or the subscription of y is later than both stamps of v. */
  ghost predicate MoreActive(s: State, y: string, v: string) {
    var vt, vs := Stamp(s.lastTick, v), Stamp(s.subscribedAt, v);
    || (Stamp(s.lastTick, y) > vt && Stamp(s.lastTick, y) > vs)
    || (Stamp(s.subscribedAt, y) > vt && Stamp(s.subscribedAt, y) > vs)
  }

  lemma StampsOrder(s: State, k: int)
    requires FirstLeast(s, s.clients, k)
    ensures 0 <= k < |s.clients|
    ensures forall i :: 0 <= i < |s.clients| ==> NoLessActive(s, s.clients[i], s.clients[k])
    ensures forall i :: 0 <= i < k ==> MoreActive(s, s.clients[i], s.clients[k])
  {
  }

  /** An eviction takes the least recently active open reader: every other open reader had a tick
      or its subscription no earlier than either of the victim's, and those opened before it
      strictly later. It never takes the primary or the arming symbol, removes the victim
      everywhere, and leaves every other reader as it was; once the victim is disconnected it is
      parked and the symbol reserved. */
  lemma {:induction false} EvictsLeastActive(budget: nat, primary: string, steps: seq<Step>, x: string, s: State)
    returns (k: int)
    requires s == Run(Initial(budget, primary), steps)
    requires x in s.waiting && s.holder.None? && !CapReached(s, x) && Reserved(s) >= budget
    ensures 0 <= k < |s.clients| && s.clients[k] != x && s.clients[k] != primary
    ensures forall i :: 0 <= i < |s.clients| ==> NoLessActive(s, s.clients[i], s.clients[k])
    ensures forall i :: 0 <= i < k ==> MoreActive(s, s.clients[i], s.clients[k])
    ensures Evicted(s, x, k)
  {
    hide ActivityAt, LeastActive, Evicted, FirstLeast, NoLessActive, MoreActive;
    InitialInv(budget, primary);
    RunKeepsInv(Initial(budget, primary), steps);
    EvictableIffOpen(s, s.clients, x);
    k := LeastActiveSpec(s, s.clients);
    StampsOrder(s, k);
    VictimEvicted(s, x, k);
  }

  lemma WithoutNone(cs: seq<string>, x: string)
    requires x !in cs
    ensures Without(cs, x) == cs
  {
    if cs != [] {
      assert cs == cs[..|cs| - 1] + [cs[|cs| - 1]];
      WithoutNone(cs[..|cs| - 1], x);
    }
  }

  lemma {:induction false} WithoutAt(cs: seq<string>, k: int)
    requires Distinct(cs) && 0 <= k < |cs|
    ensures Without(cs, cs[k]) == cs[..k] + cs[k + 1..]
  {
    var init := cs[..|cs| - 1];
    if k == |cs| - 1 {
      WithoutNone(init, cs[k]);
    } else {
      WithoutAt(init, k);
      assert init[..k] + init[k + 1..] + [cs[|cs| - 1]] == cs[..k] + cs[k + 1..];
    }
  }

  lemma RunSnoc(s: State, steps: seq<Step>, e: Step)
    ensures Run(s, steps + [e]) == Apply(Run(s, steps), e)
  {
    assert (steps + [e])[..|steps|] == steps;
  }

  /** The bound is tight: one release of a symbol in mid-handshake would let two readers open on
      a budget of one. */
  lemma OverlapOvershoots(x: string, y: string, p: string)
    requires x != y && x != p && y != p
    ensures var steps := [Arm(x, true), Reserve(x), Release(x), Arm(y, true), Reserve(y), Complete(x), Complete(y)];
            var s := Run(Initial(1, p), steps);
            s.clients == [x, y] && s.budget == 1 && s.overlaps == 1
  {
    hide Apply, Run;
    var s0 := Initial(1, p);
    var s2 := FirstHandshake(s0, x, 0, {});
    var s3 := s0.(inflight := {x}, overlaps := 1);
    assert Apply(s2, Release(x)) == s3 by { ReleasedInFlight(s2, x, s3); }
    var s5 := FirstHandshake(s3, y, 1, {x});
    var s7 := s0.(clients := [x, y], overlaps := 1);
    BothComplete(s5, x, y, s7);
    RunOf7(s0, [Arm(x, true), Reserve(x), Release(x), Arm(y, true), Reserve(y), Complete(x), Complete(y)]);
  }

  lemma FirstHandshake(s: State, x: string, overlaps: nat, others: set<string>) returns (t: State)
    requires x != s.primary && x !in others && s.budget == 1
    requires s == Initial(1, s.primary).(inflight := others, overlaps := overlaps)
    ensures t == Apply(Apply(s, Arm(x, true)), Reserve(x))
    ensures t == s.(pending := {x}, inflight := others + {x})
  {
    var a := Apply(s, Arm(x, true));
    assert a == s.(waiting := {x});
    t := Apply(a, Reserve(x));
    assert t.waiting == {};
  }

  lemma ReleasedInFlight(s: State, x: string, t: State)
    requires s == Initial(1, s.primary).(pending := {x}, inflight := {x}) && x != s.primary
    requires t == Initial(1, s.primary).(inflight := {x}, overlaps := 1)
    ensures Apply(s, Release(x)) == t
  {
  }

  lemma BothComplete(s: State, x: string, y: string, t: State)
    requires x != y && s == Initial(1, s.primary).(pending := {y}, inflight := {x} + {y}, overlaps := 1)
    requires t == Initial(1, s.primary).(clients := [x, y], overlaps := 1)
    ensures Apply(Apply(s, Complete(x)), Complete(y)) == t
  {
    var a := Apply(s, Complete(x));
    assert a == s.(clients := [x], inflight := {y});
    assert Apply(a, Complete(y)).inflight == {};
  }

  lemma RunOf7(s: State, steps: seq<Step>)
    requires |steps| == 7
    ensures Run(s, steps) ==
            Apply(Apply(Apply(Apply(Apply(Apply(Apply(s, steps[0]), steps[1]), steps[2]), steps[3]), steps[4]),
                steps[5]), steps[6])
  {
    hide Apply;
    assert steps == [] + [steps[0]] + [steps[1]] + [steps[2]] + [steps[3]] + [steps[4]] + [steps[5]] + [steps[6]];
    RunSnoc(s, [], steps[0]);
    RunSnoc(s, [] + [steps[0]], steps[1]);
    RunSnoc(s, [] + [steps[0]] + [steps[1]], steps[2]);
    RunSnoc(s, [] + [steps[0]] + [steps[1]] + [steps[2]], steps[3]);
    RunSnoc(s, [] + [steps[0]] + [steps[1]] + [steps[2]] + [steps[3]], steps[4]);
    RunSnoc(s, [] + [steps[0]] + [steps[1]] + [steps[2]] + [steps[3]] + [steps[4]], steps[5]);
    RunSnoc(s, [] + [steps[0]] + [steps[1]] + [steps[2]] + [steps[3]] + [steps[4]] + [steps[5]], steps[6]);
  }
}
