/** The live-stream budget: reader coroutines reserve a slot, evict the least recently active
    reader when the budget is full, handshake, and release. Between two awaits a coroutine
    runs alone, so a run is any sequence of the steps below. */
module Slots {
  import opened Options
  import opened Collections

  /** holder: the coroutine that holds the slot lock while its victim is being disconnected.
      closing, waiting, inflight: the coroutines that are disconnecting a stale client of their
      own, waiting for the slot lock, or in a handshake. overlaps: how many releases hit a
      symbol whose handshake was in flight. The last five are the coroutines' positions; the
      rest is the bridge's bookkeeping. */
  datatype State = State(
    budget: nat, primary: string,
    clients: seq<string>, pending: set<string>, tasks: set<string>, subs: set<string>,
    subscribedAt: map<string, int>, lastTick: map<string, int>, buffered: set<string>,
    closing: set<string>, waiting: set<string>, holder: Option<(string, string)>,
    inflight: set<string>, overlaps: nat)

  function Initial(budget: nat, primary: string): State {
    State(budget, primary, [], {}, {}, {}, map[], map[], {}, {}, {}, None, {}, 0)
  }

  // ---- Sequences of open clients, in the order they were opened ----

  function Without(cs: seq<string>, x: string): seq<string> {
    if cs == [] then []
    else if cs[|cs| - 1] == x then Without(cs[..|cs| - 1], x)
    else Without(cs[..|cs| - 1], x) + [cs[|cs| - 1]]
  }

  lemma WithoutMember(cs: seq<string>, x: string, y: string)
    ensures y in Without(cs, x) <==> y in cs && y != x
  {
    if cs != [] {
      WithoutMember(cs[..|cs| - 1], x, y);
      assert cs == cs[..|cs| - 1] + [cs[|cs| - 1]];
    }
  }

  lemma {:induction false} WithoutDistinct(cs: seq<string>, x: string)
    requires Distinct(cs)
    ensures Distinct(Without(cs, x))
    ensures |Without(cs, x)| == |cs| - (if x in cs then 1 else 0)
  {
    if cs != [] {
      var init, z := cs[..|cs| - 1], cs[|cs| - 1];
      assert cs == init + [z];
      WithoutDistinct(init, x);
      WithoutMember(init, x, z);
    }
  }

  // ---- Choosing a victim ----

  function ActivityAt(s: State, x: string): int {
    var t := if x in s.lastTick then s.lastTick[x] else 0;
    var u := if x in s.subscribedAt then s.subscribedAt[x] else 0;
    if t >= u then t else u
  }

  /** Open readers other than the one being armed and the primary. */
  function Evictable(s: State, cs: seq<string>, exclude: string): seq<string> {
    if cs == [] then []
    else
      var z := cs[|cs| - 1];
      var init := Evictable(s, cs[..|cs| - 1], exclude);
      if z != exclude && z != s.primary then init + [z] else init
  }

  /** The first of the least recently active. */
  function LeastActive(s: State, cs: seq<string>): string
    requires cs != []
  {
    if |cs| == 1 then cs[0]
    else
      var best, z := LeastActive(s, cs[..|cs| - 1]), cs[|cs| - 1];
      if ActivityAt(s, z) < ActivityAt(s, best) then z else best
  }

  function Victim(s: State, exclude: string): Option<string> {
    var cs := Evictable(s, s.clients, exclude);
    if cs == [] then None else Some(LeastActive(s, cs))
  }

  // ---- Steps ----

  /** Arm: a coroutine for the symbol takes the symbol's lock; alive tells whether the client
      it may find is still connected. FinishEvict, Complete, Abort end an await; Abort is a
      failed handshake or a cancellation at any point. */
  datatype Step =
    | Arm(symbol: string, alive: bool)
    | DropStale(symbol: string)
    | Reserve(symbol: string)
    | FinishEvict
    | Complete(symbol: string)
    | Abort(symbol: string)
    | Release(symbol: string)
    | ReleaseAll
    | Spawn(symbol: string)
    | TaskDone(symbol: string)
    | Subscribed(symbol: string, at: int)
    | TickSeen(symbol: string, at: int)

  predicate Busy(s: State, x: string) {
    x in s.closing || x in s.waiting || x in s.inflight || (s.holder.Some? && s.holder.value.0 == x)
  }

  function Reserved(s: State): nat {
    |s.clients| + |s.pending|
  }

  /** The early budget test: true as well for a symbol that has a client or a reader task. */
  predicate SlotsAvailable(s: State, x: string) {
    || x == s.primary || x in s.clients || x in s.tasks
    || Reserved(s) < s.budget
    || Evictable(s, s.clients, x) != []
  }

  /** ReaderCapReached: refused by the early test, or nothing to evict at a full budget. */
  predicate CapReached(s: State, x: string) {
    !SlotsAvailable(s, x) || (Reserved(s) >= s.budget && Victim(s, x).None?)
  }

  /** Take the victim off every list before its client is disconnected. */
  function TakeOut(s: State, victim: string, x: string): State {
    s.(clients := Without(s.clients, victim), tasks := s.tasks - {victim}, pending := s.pending - {victim},
       subs := s.subs - {victim}, subscribedAt := s.subscribedAt - {victim},
       holder := Some((x, victim)), waiting := s.waiting - {x})
  }

  function Apply(s: State, e: Step): State {
    match e
    case Arm(x, alive) =>
      if x == s.primary || Busy(s, x) || (x in s.clients && alive) then s
      else if x in s.clients then s.(closing := s.closing + {x})
      else s.(waiting := s.waiting + {x})
    case DropStale(x) =>
      if x !in s.closing then s
      else s.(clients := Without(s.clients, x), closing := s.closing - {x}, waiting := s.waiting + {x})
    case Reserve(x) =>
      if x !in s.waiting || s.holder.Some? then s
      else if CapReached(s, x) then s.(waiting := s.waiting - {x})
      else if Reserved(s) >= s.budget then TakeOut(s, Victim(s, x).value, x)
      else s.(pending := s.pending + {x}, waiting := s.waiting - {x}, inflight := s.inflight + {x})
    case FinishEvict =>
      if s.holder.None? then s
      else
        var x, victim := s.holder.value.0, s.holder.value.1;
        s.(buffered := s.buffered + {victim}, holder := None, pending := s.pending + {x}, inflight := s.inflight + {x})
    case Complete(x) =>
      if x !in s.inflight then s
      else s.(clients := s.clients + [x], pending := s.pending - {x}, inflight := s.inflight - {x})
    case Abort(x) =>
      if !Busy(s, x) then s
      else s.(closing := s.closing - {x}, waiting := s.waiting - {x},
              holder := if s.holder.Some? && s.holder.value.0 == x then None else s.holder,
              pending := if x in s.inflight then s.pending - {x} else s.pending,
              inflight := s.inflight - {x})
    case Release(x) =>
      s.(pending := s.pending - {x}, subs := s.subs - {x}, subscribedAt := s.subscribedAt - {x},
         clients := if x == s.primary then s.clients else Without(s.clients, x),
         overlaps := s.overlaps + (if x in s.inflight then 1 else 0))
    case ReleaseAll => s.(clients := [], subs := {}, subscribedAt := map[])
    case Spawn(x) => s.(tasks := s.tasks + {x})
    case TaskDone(x) => s.(tasks := s.tasks - {x})
    case Subscribed(x, t) => s.(subs := s.subs + {x}, buffered := s.buffered - {x},
        subscribedAt := s.subscribedAt[x := t])
    case TickSeen(x, t) => s.(lastTick := s.lastTick[x := t])
  }

  function Run(s: State, steps: seq<Step>): State {
    if steps == [] then s else Apply(Run(s, steps[..|steps| - 1]), steps[|steps| - 1])
  }

  // ---- The invariant ----

  /** Open secondaries, handshakes in flight, and the slot an eviction has just freed. */
  function Outstanding(s: State): nat {
    |s.clients| + |s.inflight| + (if s.holder.Some? then 1 else 0)
  }

  ghost predicate Bookkept(s: State) {
    && Distinct(s.clients)
    && s.primary !in s.clients
    && !Busy(s, s.primary)
    && s.pending <= s.inflight
    && (forall x :: x in s.waiting || x in s.inflight ==> x !in s.clients)
    && (s.holder.Some? ==>
          && s.holder.value.0 !in s.clients && s.holder.value.0 !in s.inflight
          && s.holder.value.0 !in s.waiting)
    && s.waiting !! s.inflight && s.closing !! s.waiting && s.closing !! s.inflight
    && (s.holder.Some? ==> s.holder.value.0 !in s.closing)
  }

  ghost predicate WithinBudget(s: State) {
    && Outstanding(s) <= s.budget + s.overlaps
    && |s.inflight - s.pending| <= s.overlaps
  }

  ghost predicate Inv(s: State) {
    Bookkept(s) && WithinBudget(s)
  }

  lemma Split(a: set<string>, b: set<string>)
    requires a <= b
    ensures |b| == |a| + |b - a|
  {
    assert b == a + (b - a);
  }

  lemma SubsetCard(a: set<string>, b: set<string>)
    requires a <= b
    ensures |a| <= |b|
  {
    Split(a, b);
  }

  /** At the budget test an arming symbol can evict exactly when some client is open. */
  lemma EvictableIffOpen(s: State, cs: seq<string>, x: string)
    requires x !in cs && s.primary !in cs
    ensures Evictable(s, cs, x) == cs
  {
    if cs != [] {
      assert cs == cs[..|cs| - 1] + [cs[|cs| - 1]];
      EvictableIffOpen(s, cs[..|cs| - 1], x);
    }
  }

  /** cs[k] is least recently active, and the first such. */
  ghost predicate FirstLeast(s: State, cs: seq<string>, k: int) {
    && 0 <= k < |cs|
    && (forall i :: 0 <= i < |cs| ==> ActivityAt(s, cs[k]) <= ActivityAt(s, cs[i]))
    && (forall i :: 0 <= i < k ==> ActivityAt(s, cs[k]) < ActivityAt(s, cs[i]))
  }

  lemma {:induction false} LeastActiveSpec(s: State, cs: seq<string>) returns (k: int)
    requires cs != []
    ensures FirstLeast(s, cs, k) && LeastActive(s, cs) == cs[k]
  {
    if |cs| == 1 {
      k := 0;
    } else {
      var init := cs[..|cs| - 1];
      k := LeastActiveSpec(s, init);
      hide ActivityAt;
      assert forall i :: 0 <= i < |init| ==> cs[i] == init[i];
      if ActivityAt(s, cs[|cs| - 1]) < ActivityAt(s, cs[k]) {
        k := |cs| - 1;
      }
    }
  }

  lemma VictimOpen(s: State, x: string)
    requires Bookkept(s) && x in s.waiting && s.clients != []
    ensures Victim(s, x).Some? && Victim(s, x).value in s.clients
  {
    EvictableIffOpen(s, s.clients, x);
    var k := LeastActiveSpec(s, s.clients);
  }

  // ---- Every step keeps the invariant ----

  lemma ReserveKeepsInv(s: State, x: string)
    requires Inv(s)
    ensures Inv(Apply(s, Reserve(x)))
  {
    if x in s.waiting && s.holder.None? && !CapReached(s, x) {
      if Reserved(s) >= s.budget {
        EvictableIffOpen(s, s.clients, x);
        VictimOpen(s, x);
        TakeOutKeepsInv(s, Victim(s, x).value, x);
      } else {
        Split(s.pending, s.inflight);
        var t := Apply(s, Reserve(x));
        assert t.inflight - t.pending == s.inflight - s.pending;
      }
    }
  }

  lemma TakeOutKeepsInv(s: State, victim: string, x: string)
    requires Inv(s) && s.holder.None? && victim in s.clients && x in s.waiting
    ensures Inv(TakeOut(s, victim, x))
  {
    WithoutDistinct(s.clients, victim);
    forall y ensures y in Without(s.clients, victim) <==> y in s.clients && y != victim {
      WithoutMember(s.clients, victim, y);
    }
    assert victim !in s.pending;
    assert s.pending - {victim} == s.pending;
  }

  lemma FinishEvictKeepsInv(s: State)
    requires Inv(s)
    ensures Inv(Apply(s, FinishEvict))
  {
    if s.holder.Some? {
      var t := Apply(s, FinishEvict);
      assert t.inflight - t.pending == s.inflight - s.pending;
    }
  }

  lemma CompleteKeepsInv(s: State, x: string)
    requires Inv(s)
    ensures Inv(Apply(s, Complete(x)))
  {
    if x in s.inflight {
      var t := Apply(s, Complete(x));
      SubsetCard(t.inflight - t.pending, s.inflight - s.pending);
    }
  }

  lemma AbortKeepsInv(s: State, x: string)
    requires Inv(s)
    ensures Inv(Apply(s, Abort(x)))
  {
    var t := Apply(s, Abort(x));
    if x in s.inflight {
      SubsetCard(t.inflight - t.pending, s.inflight - s.pending);
    } else {
      assert s.inflight - {x} == s.inflight;
    }
  }

  lemma ReleaseKeepsInv(s: State, x: string)
    requires Inv(s)
    ensures Inv(Apply(s, Release(x)))
  {
    var t := Apply(s, Release(x));
    WithoutDistinct(s.clients, x);
    forall y ensures y in Without(s.clients, x) <==> y in s.clients && y != x {
      WithoutMember(s.clients, x, y);
    }
    SubsetCard(t.inflight - t.pending, (s.inflight - s.pending) + {x});
    if x !in s.inflight {
      assert t.pending == s.pending;
    }
  }

  lemma DropStaleKeepsInv(s: State, x: string)
    requires Inv(s)
    ensures Inv(Apply(s, DropStale(x)))
  {
    WithoutDistinct(s.clients, x);
    forall y ensures y in Without(s.clients, x) <==> y in s.clients && y != x {
      WithoutMember(s.clients, x, y);
    }
  }

  lemma ArmKeepsInv(s: State, x: string, alive: bool)
    requires Inv(s)
    ensures Inv(Apply(s, Arm(x, alive)))
  {
  }

  lemma StepKeepsInv(s: State, e: Step)
    requires Inv(s)
    ensures Inv(Apply(s, e))
    ensures Apply(s, e).budget == s.budget && Apply(s, e).primary == s.primary
  {
    match e {
      case Reserve(x) => ReserveKeepsInv(s, x);
      case FinishEvict => FinishEvictKeepsInv(s);
      case Complete(x) => CompleteKeepsInv(s, x);
      case Abort(x) => AbortKeepsInv(s, x);
      case Release(x) => ReleaseKeepsInv(s, x);
      case DropStale(x) => DropStaleKeepsInv(s, x);
      case Arm(x, alive) => ArmKeepsInv(s, x, alive);
      case ReleaseAll =>
      case Spawn(_) =>
      case TaskDone(_) =>
      case Subscribed(_, _) =>
      case TickSeen(_, _) =>
    }
  }
}
