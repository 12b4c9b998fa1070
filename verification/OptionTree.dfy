/** The binomial tree for American options: the in-place backward induction, the recursive
    value it computes, and the classic theorems about that value. Prices are reals. */
module OptionTree {
  import opened Reals

  datatype OptionType = Call | Put

  datatype Outcome = Invalid | Price(value: real)

  function Pow(x: real, n: nat): real {
    if n == 0 then 1.0 else x * Pow(x, n - 1)
  }

  /** The tree's parameters: up and down factors, probability of up, one-step discount. */
  datatype Tree = Tree(spot: real, strike: real, kind: OptionType, steps: nat, u: real, d: real, p: real, disc: real)

  ghost predicate Sane(t: Tree) {
    t.spot > 0.0 && t.u > 0.0 && t.d > 0.0 && 0.0 <= t.p <= 1.0 && t.disc > 0.0
  }

  /** Spot at layer i after j down moves. */
  function SpotAt(t: Tree, i: nat, j: nat): real
    requires j <= i
  {
    t.spot * Pow(t.u, i - j) * Pow(t.d, j)
  }

  function Payoff(kind: OptionType, strike: real, s: real): real {
    Max(if kind == Call then s - strike else strike - s, 0.0)
  }

  function Exercise(t: Tree, i: nat, j: nat): real
    requires j <= i
  {
    Payoff(t.kind, t.strike, SpotAt(t, i, j))
  }

  /** Discounted expectation of the two successors. */
  function Hold(t: Tree, up: real, down: real): real {
    t.disc * (t.p * up + (1.0 - t.p) * down)
  }

  function American(t: Tree, i: nat, j: nat): real
    requires j <= i <= t.steps
    decreases t.steps - i
  {
    if i == t.steps then Exercise(t, i, j)
    else Max(Hold(t, American(t, i + 1, j), American(t, i + 1, j + 1)), Exercise(t, i, j))
  }

  function European(t: Tree, i: nat, j: nat): real
    requires j <= i <= t.steps
    decreases t.steps - i
  {
    if i == t.steps then Exercise(t, i, j)
    else Hold(t, European(t, i + 1, j), European(t, i + 1, j + 1))
  }

  // ---- The loop ----

  /** The probability of an up move, clamped into [0, 1]; 1/2 when the tree does not move. */
  function UpProbability(u: real, d: real, growth: real): (p: real)
    ensures 0.0 <= p <= 1.0
    ensures u > d && d <= growth <= u ==> p * u + (1.0 - p) * d == growth
    ensures u > d && growth <= d ==> p == 0.0
    ensures u > d && growth >= u ==> p == 1.0
    ensures u == d ==> p == 0.5
  {
    if u == d then 0.5
    else
      var raw := (growth - d) / (u - d);
      Unclamped(u, d, growth);
      RawSides(u, d, growth);
      Max(0.0, Min(1.0, raw))
  }

  lemma RawSides(u: real, d: real, growth: real)
    ensures u > d && growth <= d ==> (growth - d) / (u - d) <= 0.0
    ensures u > d && growth >= u ==> (growth - d) / (u - d) >= 1.0
  {
    if u > d {
      var raw, gap := (growth - d) / (u - d), u - d;
      assert Times(raw, gap) == growth - d;
      RatioSides(gap, raw);
    }
  }

  lemma RatioSides(g: real, x: real)
    requires g > 0.0
    ensures Times(x, g) <= 0.0 ==> x <= 0.0
    ensures Times(x, g) >= g ==> x >= 1.0
  {
    hide Times;
    TimesSwap(x, g);
    TimesOne(g);
    if x > 0.0 {
      TimesLt(g, 0.0, x);
    }
    if x < 1.0 {
      TimesLt(g, x, 1.0);
    }
  }

  lemma Unclamped(u: real, d: real, growth: real)
    ensures u > d && d <= growth <= u ==>
              var raw := (growth - d) / (u - d);
              0.0 <= raw <= 1.0 && raw * u + (1.0 - raw) * d == growth
  {
    if u > d && d <= growth <= u {
      var raw, gap := (growth - d) / (u - d), u - d;
      assert Times(raw, gap) == growth - d;
      UnitRatio(gap, raw);
      assert raw * u + (1.0 - raw) * d == Times(raw, gap) + d;
    }
  }

  lemma UnitRatio(g: real, x: real)
    requires g > 0.0 && 0.0 <= Times(x, g) <= g
    ensures 0.0 <= x <= 1.0
  {
    hide Times;
    TimesSwap(x, g);
    TimesOne(g);
    if x < 0.0 {
      TimesLt(g, x, 0.0);
    } else if x > 1.0 {
      TimesLt(g, 1.0, x);
    }
  }

  /** A call on a strike of at least zero, without dividend, with a rate of at least zero and a
      growth factor the tree can reach. */
  predicate PlainCall(kind: OptionType, strike: real, u: real, growth: real, disc: real) {
    kind == Call && strike >= 0.0 && u > 1.0 && 1.0 <= growth <= u && disc * growth == 1.0
  }

  /** The tree built for such a call prices it at every node as if it could not be exercised
      early. */
  lemma PlainCallIsEuropean(t: Tree, growth: real)
    requires t.spot > 0.0 && PlainCall(t.kind, t.strike, t.u, growth, t.disc) && t.steps >= 0
    requires t.d == 1.0 / t.u && t.p == UpProbability(t.u, t.d, growth)
    ensures American(t, 0, 0) == European(t, 0, 0)
  {
    hide American, European, FairGame, UpProbability, Times;
    DownBelowOne(t.u);
    DiscountOf(t.disc, growth);
    FairIffUnclamped(t.u, t.d, growth, t.disc, t);
    AmericanCallIsEuropean(t, 0, 0);
  }

  lemma DownBelowOne(u: real)
    requires u > 1.0
    ensures 0.0 < 1.0 / u < 1.0
  {
    hide Times;
    Divided(1.0, u);
    if 1.0 / u >= 1.0 {
      Widen(u, 1.0, 1.0 / u);
      TimesOne(u);
    }
  }

  lemma DiscountOf(disc: real, growth: real)
    requires disc * growth == 1.0 && growth >= 1.0
    ensures 0.0 < disc <= 1.0
  {
    hide Times;
    Inverse(disc, growth);
    Widen(disc, 1.0, growth);
    TimesOne(disc);
  }

  /** The price by backward induction in one array. u, growth and disc stand for the
      exponentials of the inputs; they are used only when time is left. */
  method BinomialAmericanPrice(spot: real, strike: real, ttm: real, volatility: real, steps: int,
                               kind: OptionType, u: real, growth: real, disc: real)
    returns (r: Outcome)
    requires u > 0.0
    ensures r.Invalid? <==> spot <= 0.0 || ttm < 0.0 || volatility < 0.0 || steps < 1
    ensures !r.Invalid? && ttm == 0.0 ==> r.value == Payoff(kind, strike, spot)
    ensures !r.Invalid? && ttm > 0.0 ==>
              var p := UpProbability(u, 1.0 / u, growth);
              r.value == American(Tree(spot, strike, kind, steps, u, 1.0 / u, p, disc), 0, 0)
    ensures !r.Invalid? && ttm > 0.0 && PlainCall(kind, strike, u, growth, disc) ==>
              var p := UpProbability(u, 1.0 / u, growth);
              r.value == European(Tree(spot, strike, kind, steps, u, 1.0 / u, p, disc), 0, 0)
  {
    if spot <= 0.0 || ttm < 0.0 || volatility < 0.0 || steps < 1 {
      return Invalid;
    }
    var dt := ttm / steps as real;
    StepSize(ttm, steps);
    if dt <= 0.0 {
      return Price(Payoff(kind, strike, spot));
    }
    var t := Tree(spot, strike, kind, steps, u, 1.0 / u, UpProbability(u, 1.0 / u, growth), disc);
    var values := new real[steps + 1];
    for j := 0 to steps + 1
      invariant forall k :: 0 <= k < j ==> values[k] == American(t, steps, k)
    {
      values[j] := Exercise(t, steps, j);
    }
    if PlainCall(kind, strike, u, growth, disc) {
      PlainCallIsEuropean(t, growth);
    }
    for i := steps downto 0
      invariant forall k :: 0 <= k <= i ==> values[k] == American(t, i, k)
    {
      RollBack(t, values, i);
    }
    return Price(values[0]);
  }

  lemma StepSize(ttm: real, steps: int)
    requires steps >= 1 && ttm >= 0.0
    ensures ttm / steps as real <= 0.0 <==> ttm == 0.0
  {
    if ttm > 0.0 {
      assert ttm / steps as real > 0.0;
    }
  }

  /** One layer, in place: entry j is overwritten from entries j and j + 1. */
  method RollBack(t: Tree, values: array<real>, i: nat)
    requires i < t.steps && values.Length == t.steps + 1
    requires forall k :: 0 <= k <= i + 1 ==> values[k] == American(t, i + 1, k)
    modifies values
    ensures forall k :: 0 <= k <= i ==> values[k] == American(t, i, k)
    ensures forall k :: i < k < values.Length ==> values[k] == old(values[k])
  {
    for j := 0 to i + 1
      invariant forall k :: 0 <= k < j ==> values[k] == American(t, i, k)
      invariant forall k :: j <= k < values.Length ==> values[k] == old(values[k])
    {
      var hold := Hold(t, values[j], values[j + 1]);
      values[j] := Max(hold, Exercise(t, i, j));
    }
  }

  // ---- Bounds ----

  lemma HoldIs(t: Tree, a: real, b: real)
    ensures Hold(t, a, b) == Times(t.disc, Times(t.p, a) + Times(1.0 - t.p, b))
  {
  }

  lemma HoldMonotone(t: Tree, a: real, b: real, c: real, d: real)
    requires Sane(t) && a >= c && b >= d
    ensures Hold(t, a, b) >= Hold(t, c, d)
  {
    hide Hold, Times;
    HoldIs(t, a, b);
    HoldIs(t, c, d);
    Widen(t.p, c, a);
    Widen(1.0 - t.p, d, b);
    Widen(t.disc, Times(t.p, c) + Times(1.0 - t.p, d), Times(t.p, a) + Times(1.0 - t.p, b));
  }

  /** The American option is worth at least the European one and at least its immediate
      exercise, at every node. */
  lemma {:induction false} AmericanDominates(t: Tree, i: nat, j: nat)
    requires Sane(t) && j <= i <= t.steps
    ensures American(t, i, j) >= European(t, i, j)
    ensures American(t, i, j) >= Exercise(t, i, j) >= 0.0
    decreases t.steps - i
  {
    if i < t.steps {
      AmericanDominates(t, i + 1, j);
      AmericanDominates(t, i + 1, j + 1);
      HoldMonotone(t, American(t, i + 1, j), American(t, i + 1, j + 1), European(t, i + 1, j),
          European(t, i + 1, j + 1));
    }
  }

  lemma SpotIs(t: Tree, i: nat, j: nat)
    requires j <= i
    ensures SpotAt(t, i, j) == Times(Times(t.spot, Pow(t.u, i - j)), Pow(t.d, j))
  {
  }

  lemma PowNext(x: real, n: nat)
    ensures Pow(x, n + 1) == Times(x, Pow(x, n))
  {
  }

  lemma SpotMoves(t: Tree, i: nat, j: nat)
    requires j <= i
    ensures SpotAt(t, i + 1, j) == Times(SpotAt(t, i, j), t.u)
    ensures SpotAt(t, i + 1, j + 1) == Times(SpotAt(t, i, j), t.d)
  {
    hide SpotAt, Times, Pow;
    var a, b := Pow(t.u, i - j), Pow(t.d, j);
    SpotIs(t, i, j);
    SpotIs(t, i + 1, j);
    SpotIs(t, i + 1, j + 1);
    PowNext(t.u, i - j);
    PowNext(t.d, j);
    MoveUp(t.spot, a, b, t.u);
    MoveDown(t.spot, a, b, t.d);
  }

  lemma MoveUp(s: real, a: real, b: real, u: real)
    ensures Times(Times(s, Times(u, a)), b) == Times(Times(Times(s, a), b), u)
  {
  }

  lemma MoveDown(s: real, a: real, b: real, d: real)
    ensures Times(Times(s, a), Times(d, b)) == Times(Times(Times(s, a), b), d)
  {
  }

  lemma PowPositive(x: real, n: nat)
    requires x > 0.0
    ensures Pow(x, n) > 0.0
  {
  }

  /** The discounted underlying is a fair game under the tree's probability. */
  ghost predicate FairGame(t: Tree) {
    t.disc * (t.p * t.u + (1.0 - t.p) * t.d) == 1.0
  }

  lemma FairMean(t: Tree)
    ensures FairGame(t) <==> Times(t.disc, Times(t.p, t.u) + Times(1.0 - t.p, t.d)) == 1.0
  {
  }

  lemma HoldDifference(t: Tree, a: real, b: real, c: real, d: real)
    ensures Hold(t.(kind := Call), a, b) - Hold(t.(kind := Put), c, d) == Hold(t, a - c, b - d)
    ensures Hold(t, a, b) - Hold(t, c, d) == Hold(t, a - c, b - d)
  {
    hide Hold, Times;
    HoldIs(t, a, b);
    HoldIs(t, c, d);
    HoldIs(t.(kind := Call), a, b);
    HoldIs(t.(kind := Put), c, d);
    HoldIs(t, a - c, b - d);
    TimesMinus(t.p, a, c);
    TimesMinus(1.0 - t.p, b, d);
    TimesMinus(t.disc, Times(t.p, a) + Times(1.0 - t.p, b), Times(t.p, c) + Times(1.0 - t.p, d));
  }

  /** Holding the underlying itself keeps its value. */
  lemma HoldOfUnderlying(t: Tree, s: real, a: real, b: real)
    requires FairGame(t) && a == Times(s, t.u) && b == Times(s, t.d)
    ensures Hold(t, a, b) == s
  {
    hide Hold, Times, FairGame;
    HoldIs(t, a, b);
    FairMean(t);
    var e := Times(t.p, t.u) + Times(1.0 - t.p, t.d);
    Exchange(t.p, s, t.u);
    Exchange(1.0 - t.p, s, t.d);
    TimesPlus(s, Times(t.p, t.u), Times(1.0 - t.p, t.d));
    Exchange(t.disc, s, e);
    TimesOne(s);
  }

  /** Holding a sum of money discounts it. */
  lemma HoldOfConstant(t: Tree, k: real)
    ensures Hold(t, k, k) == Times(t.disc, k)
  {
    hide Hold, Times;
    HoldIs(t, k, k);
    TimesSwap(t.p, k);
    TimesSwap(1.0 - t.p, k);
    TimesPlus(k, t.p, 1.0 - t.p);
    TimesOne(k);
  }

  /** The strike discounted from expiry back to layer i. */
  function DiscountedStrike(t: Tree, i: nat): real
    requires i <= t.steps
  {
    t.strike * Pow(t.disc, t.steps - i)
  }

  lemma StrikeIs(t: Tree, i: nat)
    requires i <= t.steps
    ensures DiscountedStrike(t, i) == Times(t.strike, Pow(t.disc, t.steps - i))
  {
  }

  lemma DiscountStep(t: Tree, i: nat)
    requires i < t.steps
    ensures DiscountedStrike(t, i) == Times(t.disc, DiscountedStrike(t, i + 1))
  {
    hide Times, DiscountedStrike, Pow;
    StrikeIs(t, i);
    StrikeIs(t, i + 1);
    PowNext(t.disc, t.steps - (i + 1));
    Exchange(t.strike, t.disc, Pow(t.disc, t.steps - (i + 1)));
  }

  /** One step of parity: call values a and b, put values c and d. */
  lemma ParityStep(t: Tree, a: real, b: real, c: real, d: real, s: real, k: real)
    requires FairGame(t) && a - c == Times(s, t.u) - k && b - d == Times(s, t.d) - k
    ensures Hold(t.(kind := Call), a, b) - Hold(t.(kind := Put), c, d) == s - Times(t.disc, k)
  {
    hide Hold, Times, FairGame;
    HoldDifference(t, a, b, c, d);
    HoldDifference(t, Times(s, t.u), Times(s, t.d), k, k);
    HoldOfUnderlying(t, s, Times(s, t.u), Times(s, t.d));
    HoldOfConstant(t, k);
  }

  /** Put-call parity on the tree: the European call minus the European put is the spot minus
      the discounted strike, at every node. */
  lemma {:induction false} PutCallParity(t: Tree, i: nat, j: nat)
    requires FairGame(t) && j <= i <= t.steps
    ensures European(t.(kind := Call), i, j) - European(t.(kind := Put), i, j) ==
        SpotAt(t, i, j) - DiscountedStrike(t, i)
    decreases t.steps - i
  {
    if i == t.steps {
      ParityAtExpiry(t, j);
    } else {
      hide Hold, SpotAt, DiscountedStrike, Pow, FairGame, Exercise, Times;
      var c, p := t.(kind := Call), t.(kind := Put);
      PutCallParity(t, i + 1, j);
      PutCallParity(t, i + 1, j + 1);
      SpotMoves(t, i, j);
      DiscountStep(t, i);
      ParityStep(t, European(c, i + 1, j), European(c, i + 1, j + 1), European(p, i + 1, j), European(p, i + 1, j + 1),
                 SpotAt(t, i, j), DiscountedStrike(t, i + 1));
    }
  }

  lemma ParityAtExpiry(t: Tree, j: nat)
    requires j <= t.steps
    ensures European(t.(kind := Call), t.steps, j) - European(t.(kind := Put), t.steps, j) ==
            SpotAt(t, t.steps, j) - DiscountedStrike(t, t.steps)
  {
    hide Pow, SpotAt, DiscountedStrike, Times;
    SameSpot(t, t.(kind := Call), t.steps, j);
    SameSpot(t, t.(kind := Put), t.steps, j);
    StrikeIs(t, t.steps);
    PowZero(t.disc);
    TimesOne(t.strike);
  }

  lemma SameSpot(t: Tree, v: Tree, i: nat, j: nat)
    requires j <= i && v == t.(kind := v.kind)
    ensures SpotAt(v, i, j) == SpotAt(t, i, j)
  {
  }

  lemma PowZero(x: real)
    ensures Pow(x, 0) == 1.0
  {
  }

  lemma {:induction false} EuropeanNonNegative(t: Tree, i: nat, j: nat)
    requires Sane(t) && j <= i <= t.steps
    ensures European(t, i, j) >= 0.0
    decreases t.steps - i
  {
    if i < t.steps {
      EuropeanNonNegative(t, i + 1, j);
      EuropeanNonNegative(t, i + 1, j + 1);
      HoldMonotone(t, European(t, i + 1, j), European(t, i + 1, j + 1), 0.0, 0.0);
    }
  }

  lemma {:induction false} DiscountAtMostOne(x: real, n: nat)
    requires 0.0 < x <= 1.0
    ensures 0.0 < Pow(x, n) <= 1.0
  {
    hide Times;
    if n > 0 {
      DiscountAtMostOne(x, n - 1);
      PowNext(x, n - 1);
      TimesSwap(x, Pow(x, n - 1));
      TimesOne(Pow(x, n - 1));
      Widen(Pow(x, n - 1), x, 1.0);
      TimesPositive(x, Pow(x, n - 1));
    }
  }

  /** Without dividends and with a rate of at least zero, holding a call is never worse than
      exercising it. */
  lemma {:induction false} CallNotExercised(t: Tree, i: nat, j: nat)
    requires Sane(t) && FairGame(t) && t.disc <= 1.0 && t.strike >= 0.0 && t.kind == Call && j <= i <= t.steps
    ensures European(t, i, j) >= Exercise(t, i, j)
  {
    hide European, SpotAt, DiscountedStrike, Pow, Times, FairGame;
    PutCallParity(t, i, j);
    assert t.(kind := Call) == t;
    EuropeanNonNegative(t.(kind := Put), i, j);
    EuropeanNonNegative(t, i, j);
    DiscountAtMostOne(t.disc, t.steps - i);
    StrikeIs(t, i);
    Widen(t.strike, Pow(t.disc, t.steps - i), 1.0);
    TimesOne(t.strike);
  }

  /** So the American call is worth exactly the European call, at every node. */
  lemma {:induction false} AmericanCallIsEuropean(t: Tree, i: nat, j: nat)
    requires Sane(t) && FairGame(t) && t.disc <= 1.0 && t.strike >= 0.0 && t.kind == Call && j <= i <= t.steps
    ensures American(t, i, j) == European(t, i, j)
    decreases t.steps - i
  {
    if i < t.steps {
      AmericanCallIsEuropean(t, i + 1, j);
      AmericanCallIsEuropean(t, i + 1, j + 1);
      CallNotExercised(t, i, j);
    }
  }

  // ---- Where the theorem stops ----

  lemma DiscountBelowOne(x: real, n: nat)
    requires 0.0 < x < 1.0 && n >= 1
    ensures Pow(x, n) < 1.0
  {
    hide Times, Pow;
    DiscountAtMostOne(x, n - 1);
    PowNext(x, n - 1);
    TimesSwap(x, Pow(x, n - 1));
    TimesLt(Pow(x, n - 1), x, 1.0);
    TimesOne(Pow(x, n - 1));
  }

  /** A put on a negative strike is worthless. */
  lemma {:induction false} WorthlessPut(t: Tree, i: nat, j: nat)
    requires Sane(t) && t.kind == Put && t.strike < 0.0 && j <= i <= t.steps
    ensures European(t, i, j) == 0.0
    decreases t.steps - i
  {
    if i == t.steps {
      SpotPositive(t, i, j);
    } else {
      WorthlessPut(t, i + 1, j);
      WorthlessPut(t, i + 1, j + 1);
    }
  }

  lemma SpotPositive(t: Tree, i: nat, j: nat)
    requires Sane(t) && j <= i
    ensures SpotAt(t, i, j) > 0.0
  {
    hide Times, SpotAt, Pow;
    SpotIs(t, i, j);
    PowPositive(t.u, i - j);
    PowPositive(t.d, j);
    TimesPositive(t.spot, Pow(t.u, i - j));
    TimesPositive(Times(t.spot, Pow(t.u, i - j)), Pow(t.d, j));
  }

  /** The source takes any strike. With a positive rate and time left, the American and the
      European call agree exactly when the strike is not negative. */
  lemma {:induction false} CallsAgreeIffStrikeNonNegative(t: Tree, i: nat, j: nat)
    requires Sane(t) && FairGame(t) && t.disc < 1.0 && t.kind == Call && j <= i < t.steps
    ensures American(t, i, j) == European(t, i, j) <==> t.strike >= 0.0
  {
    if t.strike >= 0.0 {
      AmericanCallIsEuropean(t, i, j);
    } else {
      hide European, American, SpotAt, DiscountedStrike, Pow, Times, FairGame;
      PutCallParity(t, i, j);
      assert t.(kind := Call) == t;
      WorthlessPut(t.(kind := Put), i, j);
      AmericanDominates(t, i, j);
      DiscountBelowOne(t.disc, t.steps - i);
      StrikeIs(t, i);
      TimesLt(1.0 - Pow(t.disc, t.steps - i), t.strike, 0.0);
      TimesSwap(1.0 - Pow(t.disc, t.steps - i), t.strike);
      TimesMinus(t.strike, 1.0, Pow(t.disc, t.steps - i));
      TimesOne(t.strike);
      TimesOne(1.0 - Pow(t.disc, t.steps - i));
    }
  }

  /** The tree the pricing method builds is a fair game exactly when the growth factor is not
      clamped, given that it is the inverse of the discount (no dividend). */
  lemma {:induction false} FairIffUnclamped(u: real, d: real, growth: real, disc: real, t: Tree)
    requires u > d > 0.0 && growth > 0.0 && disc * growth == 1.0
    requires t.u == u && t.d == d && t.disc == disc && t.p == UpProbability(u, d, growth)
    ensures FairGame(t) <==> d <= growth <= u
  {
    hide UpProbability, FairGame, Times;
    var mean := Times(t.p, u) + Times(1.0 - t.p, d);
    FairMean(t);
    Inverse(disc, growth);
    MeanBetween(t.p, u, d);
    if d <= growth <= u {
      MeanIsGrowth(u, d, growth);
    } else if Times(disc, mean) == 1.0 {
      TimesCancel(disc, mean, growth);
    }
  }

  lemma Inverse(disc: real, growth: real)
    requires disc * growth == 1.0 && growth > 0.0
    ensures Times(disc, growth) == 1.0 && disc > 0.0
  {
    if disc < 0.0 {
      TimesPositive(-disc, growth);
    }
  }

  lemma MeanIsGrowth(u: real, d: real, growth: real)
    requires u > d && d <= growth <= u
    ensures var p := UpProbability(u, d, growth);
            Times(p, u) + Times(1.0 - p, d) == growth
  {
  }

  lemma MeanBetween(p: real, u: real, d: real)
    requires 0.0 <= p <= 1.0 && u > d
    ensures d <= Times(p, u) + Times(1.0 - p, d) <= u
  {
    hide Times;
    Widen(p, d, u);
    Widen(1.0 - p, d, u);
    TimesSwap(p, d);
    TimesSwap(1.0 - p, d);
    TimesPlus(d, p, 1.0 - p);
    TimesSwap(p, u);
    TimesSwap(1.0 - p, u);
    TimesPlus(u, p, 1.0 - p);
    TimesOne(d);
    TimesOne(u);
  }

  /** A put can be worth strictly more when it may be exercised early. */
  lemma PutExercisedEarly()
    ensures var t := Tree(1.0, 4.0, Put, 1, 2.0, 0.5, 1.0, 0.5);
            && Sane(t) && FairGame(t)
            && European(t, 0, 0) == 1.0 && American(t, 0, 0) == 3.0
  {
    hide Pow, SpotAt, Exercise, Hold, FairGame;
    var t := Tree(1.0, 4.0, Put, 1, 2.0, 0.5, 1.0, 0.5);
    ExampleNodes(t);
    ExampleHold(t);
    assert American(t, 1, 0) == European(t, 1, 0) == 2.0;
    assert American(t, 1, 1) == European(t, 1, 1) == 3.5;
  }

  lemma ExampleHold(t: Tree)
    requires t.p == 1.0 && t.u == 2.0 && t.disc == 0.5
    ensures Hold(t, 2.0, 3.5) == 1.0 && FairGame(t)
  {
  }

  lemma ExampleNodes(t: Tree)
    requires t == Tree(1.0, 4.0, Put, 1, 2.0, 0.5, 1.0, 0.5)
    ensures Exercise(t, 0, 0) == 3.0 && Exercise(t, 1, 0) == 2.0 && Exercise(t, 1, 1) == 3.5
  {
    hide Pow;
    SmallPowers();
  }

  lemma SmallPowers()
    ensures Pow(2.0, 0) == Pow(0.5, 0) == 1.0 && Pow(2.0, 1) == 2.0 && Pow(0.5, 1) == 0.5
  {
    assert Pow(2.0, 1) == 2.0 * Pow(2.0, 0) && Pow(0.5, 1) == 0.5 * Pow(0.5, 0);
  }

  // ---- Bounds of the American value ----

  /** The American put never exceeds the strike, the American call never exceeds the spot. */
  lemma {:induction false} AmericanBounded(t: Tree, i: nat, j: nat)
    requires Sane(t) && FairGame(t) && t.disc <= 1.0 && t.strike >= 0.0 && j <= i <= t.steps
    ensures American(t, i, j) <= if t.kind == Put then t.strike else SpotAt(t, i, j)
    decreases t.steps - i
  {
    hide SpotAt, Hold, FairGame, Times;
    SpotPositive(t, i, j);
    if i < t.steps {
      AmericanBounded(t, i + 1, j);
      AmericanBounded(t, i + 1, j + 1);
      if t.kind == Put {
        HoldMonotone(t, t.strike, t.strike, American(t, i + 1, j), American(t, i + 1, j + 1));
        HoldOfConstant(t, t.strike);
        TimesSwap(t.disc, t.strike);
        Widen(t.strike, t.disc, 1.0);
        TimesOne(t.strike);
      } else {
        SpotMoves(t, i, j);
        HoldMonotone(t, SpotAt(t, i + 1, j), SpotAt(t, i + 1, j + 1), American(t, i + 1, j), American(t, i + 1, j + 1));
        HoldOfUnderlying(t, SpotAt(t, i, j), SpotAt(t, i + 1, j), SpotAt(t, i + 1, j + 1));
      }
    }
  }
}
