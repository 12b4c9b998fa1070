/** What an American option is worth: the most that any way of exercising it can earn. */
module OptionPolicies {
  import opened Reals
  import opened OptionTree

  /** A way of exercising: at which nodes (layer, down moves) to stop. */
  type Policy = (nat, nat) -> bool

  /** Value of exercising where the policy says so, and at expiry in any case: what exercise pays
      there, or the discounted mean of what the two successors earn. */
  function Earned(t: Tree, stop: Policy, i: nat, j: nat): real
    requires j <= i <= t.steps
    decreases t.steps - i
  {
    if i == t.steps || stop(i, j) then
      var s := t.spot * Pow(t.u, i - j) * Pow(t.d, j);
      Max(if t.kind == Call then s - t.strike else t.strike - s, 0.0)
    else t.disc * (t.p * Earned(t, stop, i + 1, j) + (1.0 - t.p) * Earned(t, stop, i + 1, j + 1))
  }

  /** Exercise at once wherever that pays at least what the option would be worth if held. */
  function Best(t: Tree): Policy {
    (i: nat, j: nat) =>
      j <= i < t.steps && Exercise(t, i, j) >= Hold(t, American(t, i + 1, j), American(t, i + 1, j + 1))
  }

  lemma EarnedStep(t: Tree, stop: Policy, i: nat, j: nat)
    requires j <= i <= t.steps
    ensures Earned(t, stop, i, j) ==
              if i == t.steps || stop(i, j) then Exercise(t, i, j)
              else Hold(t, Earned(t, stop, i + 1, j), Earned(t, stop, i + 1, j + 1))
  {
    hide Pow;
  }

  /** No way of exercising earns more than the American value, at any node. */
  lemma {:induction false} NoPolicyBeats(t: Tree, stop: Policy, i: nat, j: nat)
    requires Sane(t) && j <= i <= t.steps
    ensures Earned(t, stop, i, j) <= American(t, i, j)
    decreases t.steps - i
  {
    hide Earned, Hold, Exercise;
    EarnedStep(t, stop, i, j);
    if i < t.steps && !stop(i, j) {
      NoPolicyBeats(t, stop, i + 1, j);
      NoPolicyBeats(t, stop, i + 1, j + 1);
      HoldMonotone(t, American(t, i + 1, j), American(t, i + 1, j + 1), Earned(t, stop, i + 1, j),
          Earned(t, stop, i + 1, j + 1));
    }
  }

  /** And the one that stops where holding is worth no more earns exactly that. */
  lemma {:induction false} BestEarns(t: Tree, i: nat, j: nat)
    requires j <= i <= t.steps
    ensures Earned(t, Best(t), i, j) == American(t, i, j)
    decreases t.steps - i
  {
    hide Earned, Hold, Exercise;
    EarnedStep(t, Best(t), i, j);
    if i < t.steps {
      BestEarns(t, i + 1, j);
      BestEarns(t, i + 1, j + 1);
    }
  }

  /** The value the tree computes is therefore the best over all ways of exercising. */
  lemma AmericanIsBest(t: Tree, i: nat, j: nat)
    requires Sane(t) && j <= i <= t.steps
    ensures forall stop: Policy :: Earned(t, stop, i, j) <= American(t, i, j)
    ensures exists stop: Policy :: Earned(t, stop, i, j) == American(t, i, j)
  {
    hide Earned, American;
    forall stop: Policy
      ensures Earned(t, stop, i, j) <= American(t, i, j)
    {
      NoPolicyBeats(t, stop, i, j);
    }
    BestEarns(t, i, j);
  }

  const NEVER: Policy := (i: nat, j: nat) => false

  /** The European value is what never stopping early earns. */
  lemma {:induction false} EuropeanNeverStops(t: Tree, i: nat, j: nat)
    requires j <= i <= t.steps
    ensures European(t, i, j) == Earned(t, NEVER, i, j)
    decreases t.steps - i
  {
    hide Earned, Hold, Exercise;
    EarnedStep(t, NEVER, i, j);
    if i < t.steps {
      EuropeanNeverStops(t, i + 1, j);
      EuropeanNeverStops(t, i + 1, j + 1);
    }
  }

  // ---- The least value that covers the option ----

  type NodeValues = (nat, nat) -> real

  /** Enough at a node to pay the exercise. */
  ghost predicate PaysExercise(t: Tree, v: NodeValues, i: nat, j: nat)
    requires j <= i
  {
    var s := t.spot * Pow(t.u, i - j) * Pow(t.d, j);
    v(i, j) >= 0.0 && v(i, j) >= if t.kind == Call then s - t.strike else t.strike - s
  }

  /** Enough at a node to buy the discounted mean of what is needed next. */
  ghost predicate BuysNext(t: Tree, v: NodeValues, i: nat, j: nat) {
    v(i, j) >= t.disc * (t.p * v(i + 1, j) + (1.0 - t.p) * v(i + 1, j + 1))
  }

  ghost predicate Covers(t: Tree, v: NodeValues) {
    && (forall i: nat, j: nat :: j <= i <= t.steps ==> PaysExercise(t, v, i, j))
    && (forall i: nat, j: nat :: j <= i < t.steps ==> BuysNext(t, v, i, j))
  }

  lemma CoversNode(t: Tree, v: NodeValues, i: nat, j: nat)
    requires j <= i
    ensures PaysExercise(t, v, i, j) <==> v(i, j) >= Exercise(t, i, j)
    ensures BuysNext(t, v, i, j) <==> v(i, j) >= Hold(t, v(i + 1, j), v(i + 1, j + 1))
  {
    hide Pow;
  }

  /** Whatever covers the option at every node is worth at least the American value. */
  lemma {:induction false} AmericanIsLeast(t: Tree, v: NodeValues, i: nat, j: nat)
    requires Sane(t) && Covers(t, v) && j <= i <= t.steps
    ensures American(t, i, j) <= v(i, j)
    decreases t.steps - i
  {
    hide Hold, Exercise, PaysExercise, BuysNext;
    CoversNode(t, v, i, j);
    if i < t.steps {
      AmericanIsLeast(t, v, i + 1, j);
      AmericanIsLeast(t, v, i + 1, j + 1);
      HoldMonotone(t, v(i + 1, j), v(i + 1, j + 1), American(t, i + 1, j), American(t, i + 1, j + 1));
    }
  }

  ghost function Values(t: Tree): NodeValues {
    (i: nat, j: nat) => if j <= i <= t.steps then American(t, i, j) else 0.0
  }

  /** And the American value does cover it: it is the least value that does. */
  lemma AmericanCovers(t: Tree)
    ensures Covers(t, Values(t))
  {
    hide Hold, Exercise, PaysExercise, BuysNext;
    forall i: nat, j: nat | j <= i <= t.steps
      ensures PaysExercise(t, Values(t), i, j) && (i < t.steps ==> BuysNext(t, Values(t), i, j))
    {
      CoversNode(t, Values(t), i, j);
      ExerciseAtExpiry(t, i, j);
    }
  }

  lemma ExerciseAtExpiry(t: Tree, i: nat, j: nat)
    requires j <= i <= t.steps
    ensures American(t, i, j) >= Exercise(t, i, j)
    ensures i < t.steps ==> American(t, i, j) >= Hold(t, American(t, i + 1, j), American(t, i + 1, j + 1))
  {
    hide Hold, Exercise;
  }
}
