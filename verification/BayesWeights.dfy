/** What the ensemble's weights and fusions owe to its posteriors. */
module BayesWeights {
  import opened Reals
  import opened Text
  import opened Posteriors
  import opened BayesEnsemble
  import opened Collections

  // ---- Weights in the ratio of the evidence ----

  /** A component's posterior mean, times how much its market and regime favour it. */
  function Strength(b: Beta, favour: real): real
    requires Sane(b)
  {
    Times(b.alpha / (b.alpha + b.beta), favour)
  }

  lemma StrengthIsRaw(b: Betas, market: string, regime: string, c: Component)
    requires Full(b) && Sane(b[c])
    ensures c in Raw(b, market, regime)
    ensures Raw(b, market, regime)[c] == Strength(b[c], Favour(market, regime, c)) > 0.0
  {
    hide Times, Favour, Raw;
    RawAt(b, market, regime, c);
    MeanRange(b[c]);
  }

  /** The strengths of all components together. */
  function Mass(b: Betas, market: string, regime: string): real
    requires Full(b)
  {
    ComponentsListed();
    Total(COMPONENTS, Raw(b, market, regime))
  }

  lemma WeightIsShare(b: Betas, market: string, regime: string, c: Component)
    requires Full(b)
    ensures c in Weights(b, market, regime) && c in Raw(b, market, regime)
    ensures Mass(b, market, regime) > 0.0
    ensures Weights(b, market, regime)[c] == Raw(b, market, regime)[c] / Mass(b, market, regime)
  {
    hide Raw, Total, Times;
    var raw := Raw(b, market, regime);
    forall d: Component
      ensures d in COMPONENTS && d in raw && raw[d] > 0.0
    {
      ComponentListed(d);
      RawAt(b, market, regime, d);
    }
    TotalPositive(COMPONENTS, raw);
    assert Total(COMPONENTS, raw) >= raw[Momentum];
  }

  /** Any two weights stand in the ratio of posterior mean times favour. */
  lemma WeightsRatio(b: Betas, market: string, regime: string, c: Component, d: Component)
    requires Full(b) && Sane(b[c]) && Sane(b[d])
    ensures var w := Weights(b, market, regime);
            && c in w && d in w
            && Times(w[c], Strength(b[d], Favour(market, regime, d))) ==
               Times(w[d], Strength(b[c], Favour(market, regime, c)))
  {
    hide Times, Favour, Raw, Mass, Weights, Strength;
    WeightIsShare(b, market, regime, c);
    WeightIsShare(b, market, regime, d);
    StrengthIsRaw(b, market, regime, c);
    StrengthIsRaw(b, market, regime, d);
    var raw := Raw(b, market, regime);
    CrossShares(raw[c], raw[d], Mass(b, market, regime));
  }

  lemma CrossShares(x: real, y: real, total: real)
    requires total > 0.0
    ensures Times(x / total, y) == Times(y / total, x)
  {
  }

  // ---- The favours ----

  /** One number for each component, in the order of the components. */
  ghost predicate FavoursAre(market: string, regime: string, xs: seq<real>) {
    |xs| == |COMPONENTS| && forall i :: 0 <= i < |xs| ==> Favour(market, regime, COMPONENTS[i]) == xs[i]
  }

  /** A regime multiplies what the market gives. */
  ghost predicate RegimeTimes(regime: string, xs: seq<real>) {
    |xs| == |COMPONENTS| && forall market: string, i :: 0 <= i < |xs| ==>
      Favour(market, regime, COMPONENTS[i]) == Favour(market, "", COMPONENTS[i]) * xs[i]
  }

  lemma RegimeFactors(regime: string, xs: seq<real>)
    requires |xs| == |COMPONENTS| && forall i :: 0 <= i < |xs| ==> RegimeFactor(regime, COMPONENTS[i]) == xs[i]
    ensures RegimeTimes(regime, xs)
  {
    hide MarketFactor;
    forall market: string, i | 0 <= i < |xs|
      ensures Favour(market, regime, COMPONENTS[i]) == Favour(market, "", COMPONENTS[i]) * xs[i]
    {
      NoRegime(market, COMPONENTS[i]);
    }
  }

  lemma NoRegime(market: string, c: Component)
    ensures Favour(market, "", c) == MarketFactor(market, c)
  {
    assert RegimeFactor("", c) == 1.0;
  }

  /** The favours of momentum, microstructure, order flow, volatility and regime fit. */
  lemma FavourTable()
    ensures FavoursAre("OTC", "", [1.0, 1.25, 1.10, 0.85, 1.0])
    ensures FavoursAre("REAL", "", [0.95, 1.10, 1.25, 1.0, 1.0])
    ensures FavoursAre("CRYPTO", "", [1.20, 0.85, 1.0, 1.15, 1.0])
    ensures RegimeTimes("trend", [1.15, 1.0, 1.0, 1.0, 1.0])
    ensures RegimeTimes("range", [0.90, 1.10, 1.0, 1.0, 1.0])
    ensures RegimeTimes("reversal", [0.85, 1.20, 1.0, 1.0, 1.0])
    ensures RegimeTimes("expansion", [1.10, 1.0, 1.0, 1.20, 1.0])
    ensures RegimeTimes("compression", [1.0, 1.0, 1.10, 0.75, 1.0])
    ensures forall regime: string :: regime !in ["trend", "range", "reversal", "expansion", "compression"] ==>
              RegimeTimes(regime, [1.0, 1.0, 1.0, 1.0, 1.0])
  {
    hide RegimeTimes, Favour;
    MarketFavours();
    RegimeFactors("trend", [1.15, 1.0, 1.0, 1.0, 1.0]);
    RegimeFactors("range", [0.90, 1.10, 1.0, 1.0, 1.0]);
    RegimeFactors("reversal", [0.85, 1.20, 1.0, 1.0, 1.0]);
    RegimeFactors("expansion", [1.10, 1.0, 1.0, 1.20, 1.0]);
    RegimeFactors("compression", [1.0, 1.0, 1.10, 0.75, 1.0]);
    forall regime: string | regime !in ["trend", "range", "reversal", "expansion", "compression"]
      ensures RegimeTimes(regime, [1.0, 1.0, 1.0, 1.0, 1.0])
    {
      RegimeFactors(regime, [1.0, 1.0, 1.0, 1.0, 1.0]);
    }
  }

  lemma MarketFavours()
    ensures FavoursAre("OTC", "", [1.0, 1.25, 1.10, 0.85, 1.0])
    ensures FavoursAre("REAL", "", [0.95, 1.10, 1.25, 1.0, 1.0])
    ensures FavoursAre("CRYPTO", "", [1.20, 0.85, 1.0, 1.15, 1.0])
  {
    forall market: string, i | 0 <= i < 5
      ensures Favour(market, "", COMPONENTS[i]) == MarketFactor(market, COMPONENTS[i])
    {
      NoRegime(market, COMPONENTS[i]);
    }
  }

  /** So these are the weights a fresh ensemble starts from on an OTC market in no known regime. */
  lemma FreshWeights()
    ensures var w := Weights(Priors(), "OTC", "unknown");
            w == map[Momentum := 270.0 / 1277.0, Microstructure := 350.0 / 1277.0, OrderFlow := 264.0 / 1277.0,
                     Volatility := 153.0 / 1277.0, RegimeFit := 240.0 / 1277.0]
  {
    hide Times, Favour, Raw, Mass, Weights;
    var b, m, r := Priors(), "OTC", "unknown";
    var w := map[Momentum := 270.0 / 1277.0, Microstructure := 350.0 / 1277.0, OrderFlow := 264.0 / 1277.0,
                 Volatility := 153.0 / 1277.0, RegimeFit := 240.0 / 1277.0];
    WeightsDistribute(b, m, r);
    FiveIsFull(w);
    FreshRaw();
    forall c: Component
      ensures Weights(b, m, r)[c] == w[c]
    {
      WeightIsShare(b, m, r, c);
      match c {
        case Momentum =>
        case Microstructure =>
        case OrderFlow =>
        case Volatility =>
        case RegimeFit =>
      }
    }
    SameLevels(Weights(b, m, r), w);
  }

  /** What a fresh ensemble believes of each component. */
  function Priors(): (b: Betas)
    ensures Full(b) && forall c :: b[c] == PriorOf(c)
  {
    ComponentsListed();
    map c | c in COMPONENTS :: PriorOf(c)
  }

  lemma FreshRaw()
    ensures var raw := Raw(Priors(), "OTC", "unknown");
            && Momentum in raw && Microstructure in raw && OrderFlow in raw && Volatility in raw && RegimeFit in raw
            && raw[Momentum] == 270.0 / 360.0 && raw[Microstructure] == 350.0 / 360.0
            && raw[OrderFlow] == 264.0 / 360.0 && raw[Volatility] == 153.0 / 360.0 && raw[RegimeFit] == 240.0 / 360.0
    ensures Mass(Priors(), "OTC", "unknown") == 1277.0 / 360.0
  {
    hide Raw, Total;
    MassIs(Priors(), "OTC", "unknown");
    StrengthIsRaw(Priors(), "OTC", "unknown", Momentum);
    StrengthIsRaw(Priors(), "OTC", "unknown", Microstructure);
    StrengthIsRaw(Priors(), "OTC", "unknown", OrderFlow);
    StrengthIsRaw(Priors(), "OTC", "unknown", Volatility);
    StrengthIsRaw(Priors(), "OTC", "unknown", RegimeFit);
  }

  lemma MassIs(b: Betas, market: string, regime: string)
    requires Full(b)
    ensures Full(Raw(b, market, regime))
    ensures var raw := Raw(b, market, regime);
            Mass(b, market, regime) ==
              raw[Momentum] + raw[Microstructure] + raw[OrderFlow] + raw[Volatility] + raw[RegimeFit]
  {
    hide Raw, Total;
    ComponentsListed();
    var raw := Raw(b, market, regime);
    forall c: Component
      ensures c in raw
    {
      RawAt(b, market, regime, c);
    }
    TotalFirst(Momentum, [Microstructure, OrderFlow, Volatility, RegimeFit], raw);
    TotalFirst(Microstructure, [OrderFlow, Volatility, RegimeFit], raw);
    TotalFirst(OrderFlow, [Volatility, RegimeFit], raw);
    TotalFirst(Volatility, [RegimeFit], raw);
    TotalFirst(RegimeFit, [], raw);
    TotalNone(raw);
    assert COMPONENTS == [Momentum] + [Microstructure, OrderFlow, Volatility, RegimeFit];
    assert [Microstructure] + [OrderFlow, Volatility, RegimeFit] == [Microstructure, OrderFlow, Volatility, RegimeFit];
    assert [OrderFlow] + [Volatility, RegimeFit] == [OrderFlow, Volatility, RegimeFit];
    assert [Volatility] + [RegimeFit] == [Volatility, RegimeFit] && [RegimeFit] + [] == [RegimeFit];
  }

  lemma TotalFirst(c: Component, rest: seq<Component>, m: Levels)
    requires c in m && forall d :: d in rest ==> d in m
    ensures forall d :: d in [c] + rest ==> d in m
    ensures Total([c] + rest, m) == m[c] + Total(rest, m)
  {
    assert ([c] + rest)[1..] == rest;
  }

  lemma TotalNone(m: Levels)
    ensures Total([], m) == 0.0
  {
  }

  // ---- Learning moves the weights ----

  /** x of x + rest grows with x. */
  lemma ShareGrows(x: real, y: real, rest: real)
    requires x > 0.0 && y > 0.0 && rest > 0.0
    ensures y / (y + rest) > x / (x + rest) <==> y > x
  {
    Complement(x, rest);
    Complement(y, rest);
    ShareShrinks(rest, x, y);
  }

  lemma Complement(x: real, rest: real)
    requires x > 0.0 && rest > 0.0
    ensures x / (x + rest) == 1.0 - rest / (x + rest)
  {
    hide Times;
    var t := x + rest;
    Divided(x, t);
    Divided(rest, t);
    Divided(t, t);
    PlusTimes(x, rest, 1.0 / t);
    assert t / t == 1.0;
  }

  /** z of x + rest shrinks as x grows. */
  lemma ShareShrinks(z: real, x: real, y: real)
    requires z > 0.0 && x > 0.0 && y > 0.0
    ensures z / (y + z) < z / (x + z) <==> y > x
  {
    OneOver(z, x + z, y + z);
  }

  lemma OneOver(z: real, m: real, n: real)
    requires z > 0.0 && m > 0.0 && n > 0.0
    ensures z / n < z / m <==> n > m
  {
    hide Times;
    var p, q := z / m, z / n;
    Divided(z, m);
    Divided(z, n);
    if n > m {
      if q >= p {
        TimesLt(q, m, n);
        Widen(m, p, q);
        TimesSwap(p, m);
        TimesSwap(q, m);
        QuotientPositive(z, n);
      }
    } else {
      if q < p {
        QuotientPositive(z, n);
        Widen(q, n, m);
        TimesLt(m, q, p);
        TimesSwap(m, q);
        TimesSwap(m, p);
      }
    }
  }

  lemma QuotientPositive(z: real, n: real)
    requires z > 0.0 && n > 0.0
    ensures z / n > 0.0
  {
  }

  lemma RawUnchanged(b: Betas, e: Betas, market: string, regime: string, d: Component)
    requires Full(b) && Full(e) && b[d] == e[d]
    ensures d in Raw(b, market, regime) && d in Raw(e, market, regime)
    ensures Raw(b, market, regime)[d] == Raw(e, market, regime)[d]
  {
    hide Raw;
    RawAt(b, market, regime, d);
    RawAt(e, market, regime, d);
  }

  /** The strengths of all components but one. */
  function Others(b: Betas, market: string, regime: string, c: Component): real
    requires Full(b)
  {
    MassIs(b, market, regime);
    Mass(b, market, regime) - Raw(b, market, regime)[c]
  }

  lemma OthersUnchanged(b: Betas, e: Betas, market: string, regime: string, c: Component)
    requires Full(b) && Full(e) && forall d :: d != c ==> b[d] == e[d]
    ensures Others(b, market, regime, c) == Others(e, market, regime, c)
    ensures Full(Raw(b, market, regime))
    ensures forall d :: d != c ==> Others(b, market, regime, c) >= Raw(b, market, regime)[d] > 0.0
  {
    hide Raw, Mass, Favour, Times;
    MassIs(b, market, regime);
    MassIs(e, market, regime);
    forall d: Component
      ensures Raw(b, market, regime)[d] > 0.0 && Raw(e, market, regime)[d] > 0.0
      ensures d != c ==> Raw(b, market, regime)[d] == Raw(e, market, regime)[d]
    {
      RawAt(b, market, regime, d);
      RawAt(e, market, regime, d);
    }
    FourLeft(Raw(b, market, regime), Raw(e, market, regime), c);
  }

  lemma FourLeft(m: Levels, n: Levels, c: Component)
    requires Full(m) && Full(n) && forall d :: m[d] > 0.0 && (d != c ==> m[d] == n[d])
    ensures var rest := m[Momentum] + m[Microstructure] + m[OrderFlow] + m[Volatility] + m[RegimeFit] - m[c];
            && rest == n[Momentum] + n[Microstructure] + n[OrderFlow] + n[Volatility] + n[RegimeFit] - n[c]
            && forall d :: d != c ==> rest >= m[d]
  {
    assert m[Momentum] > 0.0 && m[Microstructure] > 0.0 && m[OrderFlow] > 0.0 && m[Volatility] > 0.0;
    assert m[RegimeFit] > 0.0;
  }

  /** When one posterior moves, the weight of its component rises if and only if its mean does,
      and the weight of every other component falls if and only if it does. */
  lemma MeanMovesWeights(b: Betas, e: Betas, market: string, regime: string, c: Component)
    requires Full(b) && Full(e) && Sane(b[c]) && Sane(e[c]) && forall d :: d != c ==> b[d] == e[d]
    ensures Full(Weights(b, market, regime)) && Full(Weights(e, market, regime))
    ensures var before, after := Weights(b, market, regime), Weights(e, market, regime);
            && (after[c] > before[c] <==> Mean(e[c]) > Mean(b[c]))
            && forall d :: d != c ==> (after[d] < before[d] <==> Mean(e[c]) > Mean(b[c]))
  {
    hide Raw, Mass, Weights, Mean, Times, Favour, Sane;
    WeightsDistribute(b, market, regime);
    WeightsDistribute(e, market, regime);
    MassIs(b, market, regime);
    MassIs(e, market, regime);
    OthersUnchanged(b, e, market, regime, c);
    var x, y, rest := Raw(b, market, regime)[c], Raw(e, market, regime)[c], Others(b, market, regime, c);
    RawOrder(b, e, market, regime, c);
    WeightIsShare(b, market, regime, c);
    WeightIsShare(e, market, regime, c);
    assert Momentum != c || Microstructure != c;
    ShareGrows(x, y, rest);
    forall d | d != c
      ensures Weights(e, market, regime)[d] < Weights(b, market, regime)[d] <==> Mean(e[c]) > Mean(b[c])
    {
      WeightIsShare(b, market, regime, d);
      WeightIsShare(e, market, regime, d);
      RawUnchanged(b, e, market, regime, d);
      OneOver(Raw(b, market, regime)[d], x + rest, y + rest);
    }
  }

  lemma RawOrder(b: Betas, e: Betas, market: string, regime: string, c: Component)
    requires Full(b) && Full(e) && Sane(b[c]) && Sane(e[c])
    ensures c in Raw(b, market, regime) && c in Raw(e, market, regime)
    ensures var x, y := Raw(b, market, regime)[c], Raw(e, market, regime)[c];
            x > 0.0 && y > 0.0 && (y > x <==> Mean(e[c]) > Mean(b[c]))
  {
    hide Raw, Times, Favour, Mean;
    RawAt(b, market, regime, c);
    RawAt(e, market, regime, c);
    MeanRange(b[c]);
    MeanRange(e[c]);
    var f, m, n := Favour(market, regime, c), Mean(b[c]), Mean(e[c]);
    TimesSwap(m, f);
    TimesSwap(n, f);
    if n > m {
      TimesLt(f, m, n);
    } else {
      Widen(f, n, m);
    }
  }

  /** Learning: below the evidence cap a correct record of a component raises its weight and
      lowers every other one, and a wrong record does the opposite. */
  lemma RecordMovesWeights(b: Betas, market: string, regime: string, c: Component, correct: bool, weight: real)
    requires Full(b) && Sane(b[c]) && weight > 0.0
    requires b[c].alpha + b[c].beta + weight <= MAX_OBSERVATIONS
    ensures var e := b[c := Recorded(b[c], correct, weight)];
            var before, after := Weights(b, market, regime), Weights(e, market, regime);
            && Full(before) && Full(after)
            && (if correct then after[c] > before[c] else after[c] < before[c])
            && forall d :: d != c ==> if correct then after[d] < before[d] else after[d] > before[d]
  {
    hide Recorded, Weights, Mean, Sane;
    var e := b[c := Recorded(b[c], correct, weight)];
    RecordedSane(b[c], correct, weight);
    RecordMovesMean(b[c], correct, weight);
    MeanMovesWeights(b, e, market, regime, c);
    MeanMovesWeights(e, b, market, regime, c);
  }

  // ---- What a fusion owes to the evidence ----

  /** A usable score as it counts: itself, or the nearer end of [-1, 1]. */
  ghost predicate Counts(score: Score, x: real) {
    && score.Finite?
    && (-1.0 <= score.value <= 1.0 ==> x == score.value)
    && (score.value > 1.0 ==> x == 1.0)
    && (score.value < -1.0 ==> x == -1.0)
  }

  /** A fused share times the evidence it is a share of is the sum it stands for. */
  lemma {:induction false} SharesOf(cs: seq<Component>, raw: Levels, w: Levels, total: real, x: Levels)
    requires forall c :: c in cs ==> c in raw && c in w && c in x && raw[c] == Times(w[c], total)
    ensures Total(cs, Products(cs, raw, x)) == Times(Total(cs, Products(cs, w, x)), total)
  {
    hide Times, Total;
    forall c | c in cs
      ensures Products(cs, raw, x)[c] == Times(Products(cs, w, x)[c], total)
    {
      Reorder(w[c], total, x[c]);
    }
    TotalScaled(cs, Products(cs, w, x), total, Products(cs, raw, x));
  }

  lemma Reorder(w: real, total: real, x: real)
    ensures Times(Times(w, total), x) == Times(Times(w, x), total)
  {
  }

  lemma {:induction false} MassesOf(cs: seq<Component>, raw: Levels, w: Levels, total: real, x: Levels, sign: int)
    requires forall c :: c in cs ==> c in raw && c in w && c in x && raw[c] == Times(w[c], total)
    ensures Total(cs, Siding(cs, raw, x, sign)) == Times(Total(cs, Siding(cs, w, x, sign)), total)
    ensures Total(cs, Active(cs, raw, x)) == Times(Total(cs, Active(cs, w, x)), total)
  {
    hide Times, Total, Sign;
    TimesOne(total);
    TotalScaled(cs, Siding(cs, w, x, sign), total, Siding(cs, raw, x, sign));
    TotalScaled(cs, Active(cs, w, x), total, Active(cs, raw, x));
  }

  /** The fused weights are the strengths divided by one positive number. */
  lemma FusedShares(b: Betas, market: string, regime: string, cs: seq<Component>) returns (total: real)
    requires Full(b) && cs != []
    ensures forall c :: c in cs ==> c in Weights(b, market, regime) && c in Raw(b, market, regime)
    ensures var raw, w := Raw(b, market, regime), Rescaled(Weights(b, market, regime), cs);
            && total > 0.0 && total == Total(cs, raw)
            && forall c :: c in cs ==> c in w && raw[c] == Times(w[c], total)
  {
    hide Raw, Weights, Total, Times, Mass;
    WeightsDistribute(b, market, regime);
    var raw, all, mass := Raw(b, market, regime), Weights(b, market, regime), Mass(b, market, regime);
    forall c: Component
      ensures c in raw && c in all && mass > 0.0 && raw[c] == Times(all[c], mass)
    {
      WeightIsShare(b, market, regime, c);
      Divided(raw[c], mass);
    }
    RescaledBalanced(all, cs);
    var part := Total(cs, all);
    TotalPositive(cs, all);
    assert part >= all[cs[0]];
    total := Times(part, mass);
    TimesPositive(part, mass);
    TotalScaled(cs, all, mass, raw);
    var w := Rescaled(all, cs);
    forall c | c in cs
      ensures c in w && raw[c] == Times(w[c], total)
    {
      Divided(all[c], part);
      TimesGroup(w[c], part, mass);
    }
  }

  lemma RescaledKeys(all: Levels, cs: seq<Component>)
    requires forall c :: c in cs ==> c in all
    ensures forall c :: c in cs ==> c in Rescaled(all, cs)
  {
  }

  /** The parts of a fusion over cs, for strengths raw, scores x and posterior means. */
  ghost predicate OwesTo(v: Fusion, cs: seq<Component>, raw: Levels, x: Levels, means: Levels)
    requires v.Fused? && forall c :: c in cs ==> c in raw && c in x && c in means
  {
    && Times(v.combined, Total(cs, raw)) == Total(cs, Products(cs, raw, x))
    && Times(v.precision, Total(cs, raw)) == Total(cs, Products(cs, raw, means))
    && Times(v.agreement, Total(cs, Active(cs, raw, x))) == Total(cs, Siding(cs, raw, x, Sign(v.combined)))
  }

  /** What a fusion is, in terms of the evidence: the combined score is the mean of the usable
      scores, and the precision that of the posterior means, each component counting by its
      posterior mean times its favour; the agreement is the strength of those on the winning
      side over the strength of those not neutral. */
  lemma FusionOfEvidence(b: Betas, scores: map<Component, Score>, market: string, regime: string, s: Settings,
      blocked: bool)
    requires Full(b) && forall c :: Sane(b[c])
    ensures Full(Raw(b, market, regime)) && Full(Means(b))
    ensures var v, x, raw := Combined(b, scores, market, regime, s, blocked), Clean(scores), Raw(b, market, regime);
            var cs := Present(COMPONENTS, x);
            && (forall c :: c in cs <==> c in scores && scores[c].Finite?)
            && (forall c :: c in cs ==> c in x && Counts(scores[c], x[c]))
            && (forall c :: raw[c] == Strength(b[c], Favour(market, regime, c)))
            && (forall c :: Means(b)[c] == Strength(b[c], 1.0))
            && (v.Nothing? <==> cs == [])
            && (v.Fused? ==> OwesTo(v, cs, raw, x, Means(b)))
  {
    hide Raw, Weights, Times, Favour, Strength, View, Sane, OwesTo, Clean, Present, Combined, Means, Mean;
    CleanCounts(scores);
    MassIs(b, market, regime);
    MeansOf(b);
    forall c: Component
      ensures Raw(b, market, regime)[c] == Strength(b[c], Favour(market, regime, c))
      ensures Means(b)[c] == Strength(b[c], 1.0)
    {
      StrengthIsRaw(b, market, regime, c);
      MeanIsStrength(b[c]);
    }
    CombinedOwes(b, scores, market, regime, s, blocked);
  }

  lemma MeanIsStrength(b: Beta)
    requires Sane(b)
    ensures Mean(b) == Strength(b, 1.0)
  {
    hide Times;
    TimesOne(b.alpha / (b.alpha + b.beta));
  }

  lemma CombinedOwes(b: Betas, scores: map<Component, Score>, market: string, regime: string, s: Settings,
      blocked: bool)
    requires Full(b) && Full(Raw(b, market, regime)) && Full(Means(b))
    ensures var v, x := Combined(b, scores, market, regime, s, blocked), Clean(scores);
            var cs := Present(COMPONENTS, x);
            && (v.Nothing? <==> cs == []) && (forall c :: c in cs ==> c in x)
            && (v.Fused? ==> OwesTo(v, cs, Raw(b, market, regime), x, Means(b)))
  {
    hide Raw, Weights, Times, View, OwesTo, Clean, Present, Rescaled, Means, Mean, Total;
    WeightsDistribute(b, market, regime);
    var x := Clean(scores);
    var cs := Present(COMPONENTS, x);
    if cs != [] {
      var total := FusedShares(b, market, regime, cs);
      var w := Rescaled(Weights(b, market, regime), cs);
      RescaledBalanced(Weights(b, market, regime), cs);
      ViewOfEvidence(cs, Raw(b, market, regime), w, total, x, Means(b), s, blocked);
    }
  }

  lemma MeansOf(b: Betas)
    requires Full(b)
    ensures Full(Means(b)) && forall c :: Means(b)[c] == Mean(b[c])
  {
    ComponentsListed();
  }

  lemma CleanCounts(scores: map<Component, Score>)
    ensures var x := Clean(scores);
            && (forall c :: c in Present(COMPONENTS, x) <==> c in scores && scores[c].Finite?)
            && forall c :: c in Present(COMPONENTS, x) ==> c in x && Counts(scores[c], x[c])
  {
    ComponentsListed();
  }

  lemma ViewOfEvidence(cs: seq<Component>, raw: Levels, w: Levels, total: real, x: Levels, means: Levels, s: Settings,
      blocked: bool)
    requires cs != [] && forall c :: c in cs ==> c in raw && c in w && c in x && c in means && w[c] > 0.0
    requires total > 0.0 && forall c :: c in cs ==> raw[c] == Times(w[c], total)
    requires total == Total(cs, raw)
    ensures var v := View(cs, w, x, means, s, blocked);
            v.Fused? && OwesTo(v, cs, raw, x, means)
  {
    hide Total, Times, Sign, Products, Siding, Active;
    var combined := Total(cs, Products(cs, w, x));
    var mass, active := Total(cs, Siding(cs, w, x, Sign(combined))), Total(cs, Active(cs, w, x));
    SharesOf(cs, raw, w, total, x);
    SharesOf(cs, raw, w, total, means);
    MassesOf(cs, raw, w, total, x, Sign(combined));
    SidingBelowActive(cs, w, x, Sign(combined));
    if active > 0.0 {
      Divided(mass, active);
      TimesGroup(mass / active, active, total);
    } else {
      TimesOne(total);
      TimesOne(0.0);
    }
  }

  // ---- Names ----

  /** Blanks around a market's name and the case of its letters do not matter; what names no market
      is OTC. */
  lemma MarketIs(pre: string, s: string, post: string)
    requires AllBlank(pre) && AllBlank(post) && s != [] && !IsTextBlank(s[0]) && !IsTextBlank(s[|s| - 1])
    ensures MarketOf(pre + (s + post)) ==
              if Spells(s, "REAL") then "REAL" else if Spells(s, "CRYPTO") then "CRYPTO" else "OTC"
    ensures MarketOf("") == "OTC"
  {
    hide Upper, TrimLeft, TrimRight, Spells;
    TrimIs(pre, s, post);
    UpperSpells(s, "REAL");
    UpperSpells(s, "CRYPTO");
    UpperSpells(s, "OTC");
    NoMarket();
  }

  lemma NoMarket()
    ensures MarketOf("") == "OTC"
  {
    TrimNothing("OTC");
    assert Upper("OTC") == "OTC";
  }

  /** Blanks around a regime's name do not matter, and its letters are taken in lower case; no name
      is "unknown". */
  lemma RegimeIs(pre: string, s: string, post: string)
    requires AllBlank(pre) && AllBlank(post) && s != [] && !IsTextBlank(s[0]) && !IsTextBlank(s[|s| - 1])
    ensures var r := RegimeOf(pre + (s + post));
            |r| == |s| && forall i :: 0 <= i < |s| ==>
              r[i] == if 'A' <= s[i] <= 'Z' then (s[i] as int + 32) as char else s[i]
    ensures RegimeOf("") == "unknown"
  {
    hide TrimLeft, TrimRight;
    TrimIs(pre, s, post);
    UnknownRegime();
  }
}
