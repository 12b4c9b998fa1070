/** The adaptive ensemble: posteriors per market type and regime, their weights, and the
    fusion of component scores into one confidence. */
module BayesEnsemble {
  import opened Reals
  import opened Text
  import opened Posteriors
  import opened Collections

  datatype Component = Momentum | Microstructure | OrderFlow | Volatility | RegimeFit

  const COMPONENTS: seq<Component> := [Momentum, Microstructure, OrderFlow, Volatility, RegimeFit]

  type Levels = map<Component, real>

  type Betas = map<Component, Beta>

  /** A score as it arrives: a finite number or something that is skipped. */
  datatype Score = Finite(value: real) | Unusable

  lemma ComponentsListed()
    ensures forall c: Component :: c in COMPONENTS
  {
    forall c: Component
      ensures c in COMPONENTS
    {
      ComponentListed(c);
    }
  }

  lemma ComponentListed(c: Component)
    ensures c in COMPONENTS
  {
    match c {
      case Momentum => assert COMPONENTS[0] == c;
      case Microstructure => assert COMPONENTS[1] == c;
      case OrderFlow => assert COMPONENTS[2] == c;
      case Volatility => assert COMPONENTS[3] == c;
      case RegimeFit => assert COMPONENTS[4] == c;
    }
  }

  function PriorOf(c: Component): Beta {
    match c
    case Momentum => Beta(6.0, 2.0)
    case Microstructure => Beta(7.0, 2.0)
    case OrderFlow => Beta(6.0, 3.0)
    case Volatility => Beta(5.0, 5.0)
    case RegimeFit => Beta(6.0, 3.0)
  }

  // ---- Keys ----

  function MarketOf(given: string): string {
    var value := Upper(TrimRight(TrimLeft(if given == "" then "OTC" else given)));
    if value in ["OTC", "REAL", "CRYPTO"] then value else "OTC"
  }

  function RegimeOf(given: string): string {
    Lower(TrimRight(TrimLeft(if given == "" then "unknown" else given)))
  }

  function StateKey(market: string, regime: string): string {
    MarketOf(market) + "::" + RegimeOf(regime)
  }

  /** Different markets or regimes have different keys, whatever the regime's text contains. */
  lemma KeysDistinct(m: string, r: string, n: string, q: string)
    ensures StateKey(m, r) == StateKey(n, q) <==> MarketOf(m) == MarketOf(n) && RegimeOf(r) == RegimeOf(q)
  {
    var a, b := MarketOf(m), MarketOf(n);
    if StateKey(m, r) == StateKey(n, q) {
      assert StateKey(m, r)[0] == a[0] && StateKey(n, q)[0] == b[0];
      assert a == b;
      assert StateKey(m, r)[|a| + 2..] == RegimeOf(r);
      assert StateKey(n, q)[|b| + 2..] == RegimeOf(q);
    }
  }

  // ---- Multipliers and weights ----

  function MarketFactor(market: string, c: Component): real {
    if market == "OTC" then
      (match c case Microstructure => 1.25 case OrderFlow => 1.10 case Volatility => 0.85 case _ => 1.0)
    else if market == "REAL" then
      (match c case OrderFlow => 1.25 case Microstructure => 1.10 case Momentum => 0.95 case _ => 1.0)
    else if market == "CRYPTO" then
      (match c case Momentum => 1.20 case Volatility => 1.15 case Microstructure => 0.85 case _ => 1.0)
    else 1.0
  }

  function RegimeFactor(regime: string, c: Component): real {
    if regime == "trend" then (match c case Momentum => 1.15 case _ => 1.0)
    else if regime == "range" then (match c case Microstructure => 1.10 case Momentum => 0.90 case _ => 1.0)
    else if regime == "reversal" then (match c case Microstructure => 1.20 case Momentum => 0.85 case _ => 1.0)
    else if regime == "expansion" then (match c case Volatility => 1.20 case Momentum => 1.10 case _ => 1.0)
    else if regime == "compression" then (match c case Volatility => 0.75 case OrderFlow => 1.10 case _ => 1.0)
    else 1.0
  }

  /** How much a market and a regime favour a component. */
  function Favour(market: string, regime: string, c: Component): (x: real)
    ensures x > 0.0
  {
    MarketFactor(market, c) * RegimeFactor(regime, c)
  }

  const MEAN_FLOOR: real := 0.000001

  function Raw(b: Betas, market: string, regime: string): Levels
    requires Full(b)
  {
    map c | c in COMPONENTS :: Times(Max(Mean(b[c]), MEAN_FLOOR), Favour(market, regime, c))
  }

  function Weights(b: Betas, market: string, regime: string): Levels
    requires Full(b)
  {
    ComponentsListed();
    var raw := Raw(b, market, regime);
    var total := Total(COMPONENTS, raw);
    if total <= 0.0 then map c | c in COMPONENTS :: 1.0 / |COMPONENTS| as real
    else map c | c in COMPONENTS :: raw[c] / total
  }

  lemma RawAt(b: Betas, market: string, regime: string, c: Component)
    requires Full(b)
    ensures c in Raw(b, market, regime)
    ensures Raw(b, market, regime)[c] == Times(Max(Mean(b[c]), MEAN_FLOOR), Favour(market, regime, c)) > 0.0
  {
    ComponentListed(c);
    TimesPositive(Max(Mean(b[c]), MEAN_FLOOR), Favour(market, regime, c));
  }

  /** Weights are positive, sum to one, and are in the proportion of the raw precisions. */
  lemma WeightsDistribute(b: Betas, market: string, regime: string)
    requires Full(b)
    ensures Full(Weights(b, market, regime)) && Total(COMPONENTS, Weights(b, market, regime)) == 1.0
    ensures forall c :: Weights(b, market, regime)[c] > 0.0
  {
    hide Raw, Total, Times;
    var raw, w := Raw(b, market, regime), Weights(b, market, regime);
    forall c: Component
      ensures c in COMPONENTS && c in raw && raw[c] > 0.0
    {
      ComponentListed(c);
      RawAt(b, market, regime, c);
    }
    var total := Total(COMPONENTS, raw);
    TotalPositive(COMPONENTS, raw);
    assert total >= raw[Momentum];
    Divided(1.0, total);
    forall c: Component
      ensures c in w && w[c] == Times(raw[c], 1.0 / total) > 0.0
    {
      Divided(raw[c], total);
      TimesPositive(raw[c], 1.0 / total);
    }
    TotalScaled(COMPONENTS, raw, 1.0 / total, w);
    Divided(total, total);
  }

  // ---- Fusion ----

  function ClampScore(x: real): real {
    Max(-1.0, Min(1.0, x))
  }

  /** The usable scores among some components, clamped into [-1, 1]. */
  function CleanOver(cs: seq<Component>, scores: map<Component, Score>): (m: Levels)
    ensures forall c :: c in m <==> c in cs && c in scores && scores[c].Finite?
    ensures forall c :: c in m ==> m[c] == ClampScore(scores[c].value)
  {
    map c | c in cs && c in scores && scores[c].Finite? :: ClampScore(scores[c].value)
  }

  function Clean(scores: map<Component, Score>): Levels {
    CleanOver(COMPONENTS, scores)
  }

  function Present(cs: seq<Component>, m: Levels): (s: seq<Component>)
    ensures forall c :: c in s <==> c in cs && c in m
  {
    if cs == [] then []
    else if cs[0] in m then [cs[0]] + Present(cs[1..], m)
    else Present(cs[1..], m)
  }

  function Sign(x: real): int {
    if x > 0.0 then 1 else if x < 0.0 then -1 else 0
  }

  /** The products of weights and levels over some components. */
  function Products(cs: seq<Component>, w: Levels, x: Levels): (m: Levels)
    requires forall c :: c in cs ==> c in w && c in x
    ensures forall c :: c in cs ==> c in m && m[c] == Times(w[c], x[c])
  {
    map c | c in cs :: Times(w[c], x[c])
  }

  /** The weights of the components whose score has the given sign. */
  function Siding(cs: seq<Component>, w: Levels, x: Levels, sign: int): (m: Levels)
    requires forall c :: c in cs ==> c in w && c in x
    ensures forall c :: c in cs ==> c in m && m[c] == if sign != 0 && Sign(x[c]) == sign then w[c] else 0.0
  {
    map c | c in cs :: if sign != 0 && Sign(x[c]) == sign then w[c] else 0.0
  }

  function Active(cs: seq<Component>, w: Levels, x: Levels): (m: Levels)
    requires forall c :: c in cs ==> c in w && c in x
    ensures forall c :: c in cs ==> c in m && m[c] == if x[c] != 0.0 then w[c] else 0.0
  {
    map c | c in cs :: if x[c] != 0.0 then w[c] else 0.0
  }

  datatype Settings = Settings(threshold: real, minConviction: real)

  datatype Fusion =
    | Nothing(suppressed: bool)
    | Fused(combined: real, agreement: real, precision: real, confidence: real, release: bool, suppressed: bool,
            weights: Levels, scores: Levels)

  function Rescaled(all: Levels, cs: seq<Component>): Levels
    requires forall c :: c in cs ==> c in all
  {
    var total := Total(cs, all);
    map c | c in cs :: if total == 0.0 then 0.0 else all[c] / total
  }

  /** The fused view of the clean scores x under weights w over the components cs. */
  function View(cs: seq<Component>, w: Levels, x: Levels, means: Levels, s: Settings, blocked: bool): Fusion
    requires forall c :: c in cs ==> c in w && c in x && c in means
  {
    var combined := Total(cs, Products(cs, w, x));
    var mass := Total(cs, Siding(cs, w, x, Sign(combined)));
    var active := Total(cs, Active(cs, w, x));
    var agreement := if active > 0.0 then mass / active else 0.0;
    var precision := Total(cs, Products(cs, w, means));
    var confidence := 100.0 * Max(0.0, Min(1.0, 0.5 * Abs(combined) + 0.3 * agreement + 0.2 * precision));
    var release := !blocked && confidence >= s.threshold && Abs(combined) >= s.minConviction;
    Fused(combined, agreement, precision, confidence, release, blocked, w, x)
  }

  function Means(b: Betas): (m: Levels)
    requires Full(b)
    ensures forall c :: c in m ==> m[c] == Mean(b[c])
    ensures forall c :: c in m <==> c in COMPONENTS
  {
    map c | c in COMPONENTS :: Mean(b[c])
  }

  function Combined(b: Betas, scores: map<Component, Score>, market: string, regime: string, s: Settings,
      blocked: bool): Fusion
    requires Full(b)
  {
    WeightsDistribute(b, market, regime);
    var x := Clean(scores);
    var cs := Present(COMPONENTS, x);
    if cs == [] then Nothing(blocked)
    else View(cs, Rescaled(Weights(b, market, regime), cs), x, Means(b), s, blocked)
  }

  // ---- What the fusion guarantees ----

  /** Weights that sum to one, clamped scores and proper means over some components. */
  ghost predicate Balanced(cs: seq<Component>, w: Levels, x: Levels, means: Levels) {
    && cs != []
    && (forall c :: c in cs ==> c in w && c in x && c in means)
    && (forall c :: c in cs ==> w[c] > 0.0 && -1.0 <= x[c] <= 1.0 && 0.0 < means[c] < 1.0)
    && Total(cs, w) == 1.0
  }

  /** A weighted sum of levels between lo and hi lies between them. */
  lemma {:induction false} ProductsBetween(cs: seq<Component>, w: Levels, x: Levels, lo: real, hi: real)
    requires forall c :: c in cs ==> c in w && c in x && w[c] > 0.0 && lo <= x[c] <= hi
    ensures Times(Total(cs, w), lo) <= Total(cs, Products(cs, w, x)) <= Times(Total(cs, w), hi)
  {
    hide Times;
    if cs == [] {
      TimesOne(lo);
      TimesOne(hi);
    } else {
      var rest := cs[1..];
      ProductsBetween(rest, w, x, lo, hi);
      TotalAgrees(rest, Products(cs, w, x), Products(rest, w, x));
      PlusTimes(w[cs[0]], Total(rest, w), lo);
      PlusTimes(w[cs[0]], Total(rest, w), hi);
      Widen(w[cs[0]], lo, x[cs[0]]);
      Widen(w[cs[0]], x[cs[0]], hi);
    }
  }

  /** Strictly below hi when every level is. */
  lemma {:induction false} ProductsBelow(cs: seq<Component>, w: Levels, x: Levels, lo: real, hi: real)
    requires cs != []
    requires forall c :: c in cs ==> c in w && c in x && w[c] > 0.0 && lo < x[c] < hi
    ensures Times(Total(cs, w), lo) < Total(cs, Products(cs, w, x)) < Times(Total(cs, w), hi)
  {
    hide Times;
    var rest := cs[1..];
    ProductsBetween(rest, w, x, lo, hi);
    TotalAgrees(rest, Products(cs, w, x), Products(rest, w, x));
    PlusTimes(w[cs[0]], Total(rest, w), lo);
    PlusTimes(w[cs[0]], Total(rest, w), hi);
    TimesLt(w[cs[0]], lo, x[cs[0]]);
    TimesLt(w[cs[0]], x[cs[0]], hi);
  }

  lemma CombinedRange(cs: seq<Component>, w: Levels, x: Levels, means: Levels)
    requires Balanced(cs, w, x, means)
    ensures -1.0 <= Total(cs, Products(cs, w, x)) <= 1.0
    ensures 0.0 < Total(cs, Products(cs, w, means)) < 1.0
  {
    hide Times, Total;
    ProductsBetween(cs, w, x, -1.0, 1.0);
    ProductsBelow(cs, w, means, 0.0, 1.0);
    TimesOne(-1.0);
    TimesOne(1.0);
  }

  ghost predicate Opposed(cs: seq<Component>, x: Levels, sign: int)
    requires forall c :: c in cs ==> c in x
  {
    exists c :: c in cs && x[c] != 0.0 && Sign(x[c]) != sign
  }

  /** The siding mass is at most the active mass, and equal exactly when nobody is opposed. */
  lemma {:induction false} SidingBelowActive(cs: seq<Component>, w: Levels, x: Levels, sign: int)
    requires forall c :: c in cs ==> c in w && c in x && w[c] > 0.0
    ensures 0.0 <= Total(cs, Siding(cs, w, x, sign)) <= Total(cs, Active(cs, w, x))
    ensures Total(cs, Siding(cs, w, x, sign)) == Total(cs, Active(cs, w, x)) <==> !Opposed(cs, x, sign)
  {
    if cs != [] {
      var rest := cs[1..];
      SidingBelowActive(rest, w, x, sign);
      TotalAgrees(rest, Siding(cs, w, x, sign), Siding(rest, w, x, sign));
      TotalAgrees(rest, Active(cs, w, x), Active(rest, w, x));
      OpposedFirst(cs, x, sign);
    }
  }

  lemma OpposedFirst(cs: seq<Component>, x: Levels, sign: int)
    requires cs != [] && forall c :: c in cs ==> c in x
    ensures Opposed(cs, x, sign) <==> (x[cs[0]] != 0.0 && Sign(x[cs[0]]) != sign) || Opposed(cs[1..], x, sign)
  {
    forall c
      ensures c in cs <==> c == cs[0] || c in cs[1..]
    {
    }
  }

  /** Nobody active: the combined score is zero. */
  lemma {:induction false} ActivePositive(cs: seq<Component>, w: Levels, x: Levels)
    requires forall c :: c in cs ==> c in w && c in x && w[c] > 0.0
    ensures Total(cs, Active(cs, w, x)) >= 0.0
    ensures Total(cs, Active(cs, w, x)) == 0.0 ==> Total(cs, Products(cs, w, x)) == 0.0
  {
    hide Times;
    if cs != [] {
      var rest := cs[1..];
      ActivePositive(rest, w, x);
      TotalAgrees(rest, Active(cs, w, x), Active(rest, w, x));
      TotalAgrees(rest, Products(cs, w, x), Products(rest, w, x));
      TimesOne(w[cs[0]]);
    }
  }

  lemma ShareRange(mass: real, active: real)
    requires 0.0 <= mass <= active && active > 0.0
    ensures 0.0 <= mass / active <= 1.0
    ensures mass / active == 1.0 <==> mass == active
  {
    hide Times;
    var k := mass / active;
    Divided(mass, active);
    TimesOne(active);
    if k < 0.0 {
      TimesLt(active, k, 0.0);
    }
    if k > 1.0 {
      TimesLt(active, 1.0, k);
    }
    if mass == active {
      TimesCancel(active, k, 1.0);
    }
  }

  /** The parts of a fusion stay on their scales, so the confidence is the plain blend of them,
      strictly between 0 and 100: its clamp never acts. */
  lemma FusionBounds(cs: seq<Component>, w: Levels, x: Levels, means: Levels, s: Settings, blocked: bool)
    requires Balanced(cs, w, x, means)
    ensures var v := View(cs, w, x, means, s, blocked);
            && -1.0 <= v.combined <= 1.0 && 0.0 <= v.agreement <= 1.0 && 0.0 < v.precision < 1.0
            && v.confidence == 50.0 * Abs(v.combined) + 30.0 * v.agreement + 20.0 * v.precision
            && 0.0 < v.confidence < 100.0
            && (v.release <==> !blocked && v.confidence >= s.threshold && Abs(v.combined) >= s.minConviction)
            && v.suppressed == blocked
  {
    hide Total, Sign;
    var sign := Sign(Total(cs, Products(cs, w, x)));
    CombinedRange(cs, w, x, means);
    SidingBelowActive(cs, w, x, sign);
    if Total(cs, Active(cs, w, x)) > 0.0 {
      ShareRange(Total(cs, Siding(cs, w, x, sign)), Total(cs, Active(cs, w, x)));
    }
  }

  /** Agreement is full exactly when some score is not zero and every such score has the sign
      of the combined one. */
  lemma FullAgreementIff(cs: seq<Component>, w: Levels, x: Levels, means: Levels, s: Settings, blocked: bool)
    requires Balanced(cs, w, x, means)
    ensures var v := View(cs, w, x, means, s, blocked);
            v.agreement == 1.0 <==> v.combined != 0.0 && !Opposed(cs, x, Sign(v.combined))
  {
    hide Total, Opposed, Products, Siding, Active;
    var combined := Total(cs, Products(cs, w, x));
    var mass, active := Total(cs, Siding(cs, w, x, Sign(combined))), Total(cs, Active(cs, w, x));
    SidingBelowActive(cs, w, x, Sign(combined));
    ActivePositive(cs, w, x);
    if active > 0.0 {
      ShareRange(mass, active);
      if combined == 0.0 {
        NoSide(cs, w, x);
      }
    }
  }

  lemma {:induction false} NoSide(cs: seq<Component>, w: Levels, x: Levels)
    requires forall c :: c in cs ==> c in w && c in x
    ensures Total(cs, Siding(cs, w, x, 0)) == 0.0
  {
    if cs != [] {
      NoSide(cs[1..], w, x);
      TotalAgrees(cs[1..], Siding(cs, w, x, 0), Siding(cs[1..], w, x, 0));
    }
  }

  /** When the threshold is at least 50 plus 50 times the conviction floor (85 and 0.35 as
      shipped), a fusion that reaches the threshold has the conviction already. */
  lemma ConvictionRedundant(cs: seq<Component>, w: Levels, x: Levels, means: Levels, s: Settings, blocked: bool)
    requires Balanced(cs, w, x, means)
    requires s.threshold >= 50.0 + 50.0 * s.minConviction
    ensures var v := View(cs, w, x, means, s, blocked);
            v.release <==> !blocked && v.confidence >= s.threshold
  {
    hide Total, Sign;
    FusionBounds(cs, w, x, means, s, blocked);
    hide Abs;
    var v := View(cs, w, x, means, s, blocked);
    assert v.confidence < 50.0 * Abs(v.combined) + 50.0;
  }

  // ---- Negating every score ----

  function Negated(scores: map<Component, Score>): map<Component, Score> {
    map c | c in scores :: if scores[c].Finite? then Finite(-scores[c].value) else Unusable
  }

  function Mirrored(x: Levels): Levels {
    map c | c in x :: -x[c]
  }

  lemma CleanNegated(scores: map<Component, Score>)
    ensures Clean(Negated(scores)) == Mirrored(Clean(scores))
  {
    var a, b := Clean(Negated(scores)), Mirrored(Clean(scores));
    assert forall c :: c in a <==> c in b;
    assert forall c :: c in a ==> a[c] == b[c];
  }

  lemma MirroredCombined(cs: seq<Component>, w: Levels, x: Levels)
    requires forall c :: c in cs ==> c in w && c in x
    ensures Total(cs, Products(cs, w, Mirrored(x))) == -Total(cs, Products(cs, w, x))
  {
    hide Times, Total;
    forall c | c in cs
      ensures Products(cs, w, Mirrored(x))[c] == Times(Products(cs, w, x)[c], -1.0)
    {
      Flip(w[c], x[c]);
    }
    TotalScaled(cs, Products(cs, w, x), -1.0, Products(cs, w, Mirrored(x)));
    Flip(Total(cs, Products(cs, w, x)), 1.0);
    TimesOne(Total(cs, Products(cs, w, x)));
  }

  lemma MirroredMasses(cs: seq<Component>, w: Levels, x: Levels, t: real)
    requires forall c :: c in cs ==> c in w && c in x
    ensures Total(cs, Siding(cs, w, Mirrored(x), Sign(-t))) == Total(cs, Siding(cs, w, x, Sign(t)))
    ensures Total(cs, Active(cs, w, Mirrored(x))) == Total(cs, Active(cs, w, x))
  {
    hide Total;
    TotalAgrees(cs, Siding(cs, w, Mirrored(x), Sign(-t)), Siding(cs, w, x, Sign(t)));
    TotalAgrees(cs, Active(cs, w, Mirrored(x)), Active(cs, w, x));
  }

  /** Negating the clean scores turns the combined score round and changes nothing else. */
  lemma ViewMirrored(cs: seq<Component>, w: Levels, x: Levels, means: Levels, s: Settings, blocked: bool)
    requires forall c :: c in cs ==> c in w && c in x && c in means
    ensures var v := View(cs, w, x, means, s, blocked);
            View(cs, w, Mirrored(x), means, s, blocked) == v.(combined := -v.combined, scores := Mirrored(x))
  {
    hide Total, Sign, Siding, Active, Products;
    MirroredCombined(cs, w, x);
    MirroredMasses(cs, w, x, Total(cs, Products(cs, w, x)));
  }

  lemma Flip(x: real, y: real)
    ensures Times(x, -y) == Times(Times(x, y), -1.0) == -Times(x, y)
  {
  }

  lemma PresentMirrored(cs: seq<Component>, x: Levels)
    ensures Present(cs, Mirrored(x)) == Present(cs, x)
  {
  }

  /** Buying and selling are treated alike: negating every score flips the combined score and
      the scores, and leaves confidence, agreement, weights and release as they were. */
  lemma NegationSymmetry(b: Betas, scores: map<Component, Score>, market: string, regime: string, s: Settings,
      blocked: bool)
    requires Full(b)
    ensures var v := Combined(b, scores, market, regime, s, blocked);
            Combined(b, Negated(scores), market, regime, s, blocked) ==
              if v.Nothing? then v else v.(combined := -v.combined, scores := Mirrored(v.scores))
  {
    hide View, Clean, Present, Weights, Means, Mirrored;
    var x := Clean(scores);
    var cs := Present(COMPONENTS, x);
    CleanNegated(scores);
    PresentMirrored(COMPONENTS, x);
    WeightsDistribute(b, market, regime);
    MirroredKeys(x);
    if cs != [] {
      var w := Rescaled(Weights(b, market, regime), cs);
      ViewMirrored(cs, w, x, Means(b), s, blocked);
      ViewScores(cs, w, x, Means(b), s, blocked);
    }
  }

  lemma MirroredKeys(x: Levels)
    ensures Mirrored(x).Keys == x.Keys
  {
  }

  lemma ViewScores(cs: seq<Component>, w: Levels, x: Levels, means: Levels, s: Settings, blocked: bool)
    requires forall c :: c in cs ==> c in w && c in x && c in means
    ensures var v := View(cs, w, x, means, s, blocked);
            v.Fused? && v.scores == x
  {
  }

  /** Every fusion the ensemble makes is balanced. */
  lemma CombinedBalanced(b: Betas, scores: map<Component, Score>, market: string, regime: string)
    requires Full(b) && forall c :: Sane(b[c])
    requires Present(COMPONENTS, Clean(scores)) != []
    ensures Full(Weights(b, market, regime))
    ensures var x := Clean(scores);
            var cs := Present(COMPONENTS, x);
            Balanced(cs, Rescaled(Weights(b, market, regime), cs), x, Means(b))
  {
    hide Weights, Present, Clean, Total;
    WeightsDistribute(b, market, regime);
    var x, all := Clean(scores), Weights(b, market, regime);
    var cs := Present(COMPONENTS, x);
    CleanRange(scores);
    RescaledBalanced(all, cs);
    forall c | c in cs
      ensures c in Means(b) && 0.0 < Means(b)[c] < 1.0
    {
      ComponentListed(c);
      MeanRange(b[c]);
    }
  }

  lemma CleanRange(scores: map<Component, Score>)
    ensures var x := Clean(scores);
            forall c :: c in Present(COMPONENTS, x) ==> c in x && -1.0 <= x[c] <= 1.0
  {
  }

  lemma RescaledBalanced(all: Levels, cs: seq<Component>)
    requires cs != [] && forall c :: c in cs ==> c in all && all[c] > 0.0
    ensures forall c :: c in cs ==> c in Rescaled(all, cs) && Rescaled(all, cs)[c] > 0.0
    ensures Total(cs, Rescaled(all, cs)) == 1.0
  {
    hide Total, Times;
    var total := Total(cs, all);
    TotalPositive(cs, all);
    assert total >= all[cs[0]];
    Divided(1.0, total);
    Divided(total, total);
    var w := Rescaled(all, cs);
    forall c | c in cs
      ensures w[c] == Times(all[c], 1.0 / total) > 0.0
    {
      Divided(all[c], total);
      TimesPositive(all[c], 1.0 / total);
    }
    TotalScaled(cs, all, 1.0 / total, w);
  }

  // ---- The ensemble ----

  datatype Direction = Buy | Sell | Unsettled

  datatype Learned = ValueError | Updated(components: map<Component, bool>)

  /** A usable score with a direction, which can be right or wrong. */
  predicate Speaks(scores: map<Component, Score>, c: Component) {
    c in scores && scores[c].Finite? && scores[c].value != 0.0
  }

  function JudgedAmong(cs: seq<Component>, scores: map<Component, Score>, up: bool): (m: map<Component, bool>)
    ensures forall c :: c in m <==> c in cs && Speaks(scores, c)
    ensures forall c :: c in m ==> Speaks(scores, c) && m[c] == ((scores[c].value > 0.0) == up)
  {
    map c | c in cs && Speaks(scores, c) :: (scores[c].value > 0.0) == up
  }

  /** The components a settled outcome speaks about, and whether each was right. */
  function Judged(scores: map<Component, Score>, up: bool): (m: map<Component, bool>)
    ensures forall c :: c in m <==> Speaks(scores, c)
    ensures forall c :: c in m ==> Speaks(scores, c) && m[c] == ((scores[c].value > 0.0) == up)
  {
    ComponentsListed();
    JudgedAmong(COMPONENTS, scores, up)
  }

  lemma JudgedNext(cs: seq<Component>, c: Component, scores: map<Component, Score>, up: bool)
    ensures JudgedAmong(cs + [c], scores, up) ==
              if Speaks(scores, c) then JudgedAmong(cs, scores, up)[c := (scores[c].value > 0.0) == up]
              else JudgedAmong(cs, scores, up)
  {
    assert forall d :: d in cs + [c] <==> d in cs || d == c;
  }

  function Taught(b: Beta, judged: map<Component, bool>, c: Component, weight: real): Beta {
    if c in judged then Recorded(b, judged[c], weight) else b
  }

  lemma RegimeStable(r: string)
    requires RegimeOf(r) != ""
    ensures RegimeOf(RegimeOf(r)) == RegimeOf(r)
  {
    var given := if r == "" then "unknown" else r;
    var t := TrimRight(TrimLeft(given));
    TrimLeftStart(given);
    TrimRightStart(TrimLeft(given));
    TrimRightEnd(TrimLeft(given));
    var low := Lower(t);
    assert |low| == |t| && low[0] == LowerChar(t[0]) && low[|t| - 1] == LowerChar(t[|t| - 1]);
    TrimNothing(low);
    assert Lower(low) == low;
  }

  lemma MarketStable(m: string)
    ensures MarketOf(MarketOf(m)) == MarketOf(m)
  {
    var v := MarketOf(m);
    assert v in ["OTC", "REAL", "CRYPTO"];
    TrimNothing(v);
    assert Upper(v) == v;
  }

  /** Asking for the weights of a regime reads the state that fusing and learning use, unless
      the regime's name is blank: then the second normalisation turns it into "unknown". */
  lemma SameStateIff(m: string, r: string)
    ensures StateKey(m, r) == OwnKey(m, r) <==> RegimeOf(r) != ""
  {
    KeysDistinct(m, r, MarketOf(m), RegimeOf(r));
    MarketStable(m);
    if RegimeOf(r) != "" {
      RegimeStable(r);
    } else {
      UnknownRegime();
    }
  }

  lemma UnknownRegime()
    ensures RegimeOf("") == "unknown"
  {
    TrimNothing("unknown");
    assert Lower("unknown") == "unknown";
  }

  lemma FiveIsFull<T>(m: map<Component, T>)
    requires Momentum in m && Microstructure in m && OrderFlow in m && Volatility in m && RegimeFit in m
    ensures Full(m)
  {
    forall c: Component
      ensures c in m
    {
      match c {
        case Momentum =>
        case Microstructure =>
        case OrderFlow =>
        case Volatility =>
        case RegimeFit =>
      }
    }
  }

  /** The key that fusing and learning use: they normalise the names once more on the way. */
  function OwnKey(market: string, regime: string): string {
    StateKey(MarketOf(market), RegimeOf(regime))
  }

  lemma TaughtSane(b: Beta, judged: map<Component, bool>, c: Component, weight: real)
    requires Sane(b)
    ensures Sane(Taught(b, judged, c, weight))
  {
    if c in judged {
      RecordedSane(b, judged[c], weight);
    }
  }

  class AdaptiveBayesianEnsemble {
    const settings: Settings
    var states: map<string, map<Component, BetaPosterior>>
    /** Which key and component each posterior object belongs to: none is shared. */
    ghost var owner: map<BetaPosterior, (string, Component)>

    ghost predicate Valid()
      reads this
    {
      && (forall k :: k in states ==> Full(states[k]))
      && forall k, c :: k in states && c in states[k] ==> states[k][c] in owner && owner[states[k][c]] == (k, c)
    }

    /** What is believed of a component under a key; an unseen key holds the priors. */
    ghost function Belief(key: string, c: Component): Beta
      requires Valid()
      reads this, owner.Keys
    {
      if key in states then states[key][c].View() else PriorOf(c)
    }

    ghost function Beliefs(key: string): (b: Betas)
      requires Valid()
      reads this, owner.Keys
      ensures Full(b) && forall c :: b[c] == Belief(key, c)
    {
      ComponentsListed();
      map c | c in COMPONENTS :: Belief(key, c)
    }

    ghost predicate AllSane()
      requires Valid()
      reads this, owner.Keys
    {
      forall k, c :: Sane(Belief(k, c))
    }

    constructor (threshold: real, minConviction: real)
      requires 50.0 <= threshold <= 99.0 && 0.0 <= minConviction <= 1.0
      ensures Valid() && settings == Settings(threshold, minConviction)
      ensures AllSane() && forall k, c :: Belief(k, c) == PriorOf(c)
    {
      settings := Settings(threshold, minConviction);
      states, owner := map[], map[];
    }

    /** The posteriors under a key, made from the priors when the key is new: beliefs stay. */
    method RegimeStates(market: string, regime: string) returns (found: map<Component, BetaPosterior>)
      requires Valid()
      modifies this`states, this`owner
      ensures Valid()
      ensures StateKey(market, regime) in states && found == states[StateKey(market, regime)]
      ensures forall k, c :: Belief(k, c) == old(Belief(k, c))
      ensures fresh(owner.Keys - old(owner.Keys))
    {
      hide StateKey, Separate, Belief;
      var key := StateKey(market, regime);
      if key in states {
        return states[key];
      }
      found := NewStates();
      Adopt(key, found);
    }

    /** Enter new posteriors under a new key. */
    method Adopt(key: string, found: map<Component, BetaPosterior>)
      requires Valid() && key !in states && Separate(found) && found.Values !! owner.Keys
      requires Full(found) && forall c :: found[c].View() == PriorOf(c)
      modifies this`states, this`owner
      ensures Valid() && states == old(states)[key := found]
      ensures forall k, c :: Belief(k, c) == old(Belief(k, c))
      ensures owner.Keys == old(owner.Keys) + found.Values
    {
      hide Separate, PriorOf;
      ghost var owners := OwnersOf(found, key);
      states := states[key := found];
      owner := owner + owners;
      forall k, c | k in states && c in states[k]
        ensures states[k][c] in owner && owner[states[k][c]] == (k, c)
      {
        if k != key {
          assert old(owner[states[k][c]]) == (k, c);
        }
      }
      forall k, c
        ensures Belief(k, c) == old(Belief(k, c))
      {
        if k == key {
          assert found[c].View() == PriorOf(c);
        }
      }
    }

    method NewStates() returns (found: map<Component, BetaPosterior>)
      ensures Full(found) && fresh(found.Values) && Separate(found)
      ensures forall c :: found[c].View() == PriorOf(c)
    {
      var a := NewPosterior(Momentum);
      var b := NewPosterior(Microstructure);
      var c := NewPosterior(OrderFlow);
      var d := NewPosterior(Volatility);
      var e := NewPosterior(RegimeFit);
      found := map[Momentum := a, Microstructure := b, OrderFlow := c, Volatility := d, RegimeFit := e];
      FiveIsFull(found);
    }

    method NewPosterior(c: Component) returns (p: BetaPosterior)
      ensures fresh(p) && p.View() == PriorOf(c)
    {
      p := new BetaPosterior(PriorOf(c).alpha, PriorOf(c).beta);
    }

    /** Posterior-mean weights; asking for them changes no belief. */
    method WeightsFor(market: string, regime: string) returns (w: Levels)
      requires Valid()
      modifies this`states, this`owner
      ensures Valid()
      ensures forall k, c :: Belief(k, c) == old(Belief(k, c))
      ensures w == Weights(old(Beliefs(StateKey(market, regime))), MarketOf(market), RegimeOf(regime))
    {
      var found := RegimeStates(market, regime);
      var b := map c | c in COMPONENTS :: found[c].View();
      SameBetas(b, old(Beliefs(StateKey(market, regime))));
      w := Weights(b, MarketOf(market), RegimeOf(regime));
    }

    /** Fuse the scores of one moment under the beliefs of its own market and regime. */
    method Combine(scores: map<Component, Score>, regime: string, market: string, suppressed: bool,
        lowVolatility: bool, newsActive: bool)
      returns (v: Fusion)
      requires Valid()
      modifies this`states, this`owner
      ensures Valid()
      ensures forall k, c :: Belief(k, c) == old(Belief(k, c))
      ensures v == Combined(old(Beliefs(OwnKey(market, regime))), scores, MarketOf(MarketOf(market)),
          RegimeOf(RegimeOf(regime)), settings,
                            suppressed || lowVolatility || newsActive)
    {
      hide StateKey, MarketOf, RegimeOf, Weights, View, Belief, Rescaled, Means, Clean, Present;
      var clean := CleanScores(scores);
      var blocked := suppressed || lowVolatility || newsActive;
      var present := Present(COMPONENTS, clean);
      if present == [] {
        return Nothing(blocked);
      }
      ghost var b := Beliefs(OwnKey(market, regime));
      var all := WeightsFor(MarketOf(market), RegimeOf(regime));
      SameBetas(Beliefs(OwnKey(market, regime)), b);
      var means := Precisions(MarketOf(market), RegimeOf(regime));
      v := Fuse(b, MarketOf(MarketOf(market)), RegimeOf(RegimeOf(regime)), scores, present, all, clean, means,
          settings, blocked);
    }

    method Precisions(market: string, regime: string) returns (means: Levels)
      requires Valid()
      modifies this`states, this`owner
      ensures Valid()
      ensures forall k, c :: Belief(k, c) == old(Belief(k, c))
      ensures means == Means(old(Beliefs(StateKey(market, regime))))
    {
      hide StateKey;
      ghost var b := Beliefs(StateKey(market, regime));
      var found := RegimeStates(market, regime);
      means := map c | c in COMPONENTS :: Mean(found[c].View());
      ComponentsListed();
      assert forall c :: found[c].View() == Belief(StateKey(market, regime), c) == b[c];
      SameLevels(means, Means(b));
    }

    method CleanScores(scores: map<Component, Score>) returns (clean: Levels)
      ensures clean == Clean(scores)
    {
      clean := map[];
      for i := 0 to |COMPONENTS|
        invariant clean == CleanOver(COMPONENTS[..i], scores)
      {
        var c := COMPONENTS[i];
        Listed(i);
        CleanNext(COMPONENTS[..i], c, scores);
        if c in scores && scores[c].Finite? {
          clean := clean[c := ClampScore(scores[c].value)];
        }
      }
      assert COMPONENTS[..|COMPONENTS|] == COMPONENTS;
    }

    /** Learn from a settled outcome. Only BUY and SELL with a finite positive weight teach; then
        exactly the judged components of the outcome's own market and regime move. */
    method RecordOutcome(regime: string, scores: map<Component, Score>, realized: string, market: string, weight: Score)
      returns (r: Learned)
      requires Valid()
      modifies this`states, this`owner, owner.Keys
      ensures Valid() && (old(AllSane()) ==> AllSane())
      ensures var direction := Upper(TrimRight(TrimLeft(realized)));
              r.ValueError? <==> direction !in ["BUY", "SELL"] || weight.Unusable? || weight.value <= 0.0
      ensures r.ValueError? ==> forall k, c :: Belief(k, c) == old(Belief(k, c))
      ensures r.Updated? ==> r.components == Judged(scores, Upper(TrimRight(TrimLeft(realized))) == "BUY")
      ensures r.Updated? ==>
                forall k, c :: Belief(k, c) ==
                  if k == OwnKey(market, regime) then Taught(old(Belief(k, c)), r.components, c, weight.value)
                  else old(Belief(k, c))
    {
      hide StateKey, MarketOf, RegimeOf, Recorded, Upper, TrimLeft, TrimRight, Belief, Sane;
      var direction := Upper(TrimRight(TrimLeft(realized)));
      if direction !in ["BUY", "SELL"] {
        return ValueError;
      }
      if weight.Unusable? || weight.value <= 0.0 {
        return ValueError;
      }
      var found := RegimeStates(MarketOf(market), RegimeOf(regime));
      var updated := Teach(OwnKey(market, regime), found, scores, direction == "BUY", weight.value);
      r := Updated(updated);
      forall k, c | old(AllSane())
        ensures Sane(Belief(k, c))
      {
        TaughtSane(old(Belief(k, c)), updated, c, weight.value);
      }
    }

    method TeachOne(ghost key: string, found: map<Component, BetaPosterior>, c: Component, correct: bool, weight: real)
      requires Valid() && key in states && found == states[key]
      modifies owner.Keys
      ensures Valid()
      ensures forall k, d :: Belief(k, d) ==
                if k == key && d == c then Recorded(old(Belief(k, d)), correct, weight) else old(Belief(k, d))
    {
      hide Recorded;
      found[c].Record(correct, weight);
    }

    method TeachNext(ghost key: string, found: map<Component, BetaPosterior>, c: Component,
        scores: map<Component, Score>, up: bool,
                     weight: real, before: map<Component, bool>, ghost start: Betas)
      returns (updated: map<Component, bool>)
      requires Valid() && key in states && found == states[key] && c !in before && Full(start)
      requires forall d :: Belief(key, d) == Taught(start[d], before, d, weight)
      modifies owner.Keys
      ensures Valid()
      ensures updated == if Speaks(scores, c) then before[c := (scores[c].value > 0.0) == up] else before
      ensures forall d :: Belief(key, d) == Taught(start[d], updated, d, weight)
      ensures forall k, d :: k != key ==> Belief(k, d) == old(Belief(k, d))
    {
      hide Recorded, Belief;
      updated := before;
      if c in scores && scores[c].Finite? && scores[c].value != 0.0 {
        var correct := (scores[c].value > 0.0) == up;
        TeachOne(key, found, c, correct, weight);
        updated := updated[c := correct];
      }
    }

    method Teach(ghost key: string, found: map<Component, BetaPosterior>, scores: map<Component, Score>,
        up: bool, weight: real)
      returns (updated: map<Component, bool>)
      requires Valid() && key in states && found == states[key]
      modifies owner.Keys
      ensures Valid() && updated == Judged(scores, up)
      ensures forall k, c :: Belief(k, c) ==
                if k == key then Taught(old(Belief(k, c)), updated, c, weight) else old(Belief(k, c))
    {
      hide Recorded, Belief, Speaks, Valid;
      updated := map[];
      ghost var start := Beliefs(key);
      for i := 0 to |COMPONENTS|
        invariant Valid() && key in states && found == states[key]
        invariant updated == JudgedAmong(COMPONENTS[..i], scores, up)
        invariant forall d :: Belief(key, d) == Taught(start[d], updated, d, weight)
        invariant forall k, d :: k != key ==> Belief(k, d) == old(Belief(k, d))
      {
        var c := COMPONENTS[i];
        Listed(i);
        JudgedNext(COMPONENTS[..i], c, scores, up);
        updated := TeachNext(key, found, c, scores, up, weight, updated, start);
      }
      assert COMPONENTS[..|COMPONENTS|] == COMPONENTS;
    }
  }

  lemma Listed(i: nat)
    requires i < |COMPONENTS|
    ensures COMPONENTS[i] !in COMPONENTS[..i] && COMPONENTS[..i + 1] == COMPONENTS[..i] + [COMPONENTS[i]]
  {
  }

  ghost predicate Separate(found: map<Component, BetaPosterior>) {
    Full(found) && forall c, d :: found[c] == found[d] ==> c == d
  }

  ghost function OwnersOf(found: map<Component, BetaPosterior>, key: string)
    : (m: map<BetaPosterior, (string, Component)>)
    requires Separate(found)
    ensures m.Keys == found.Values
    ensures forall c :: found[c] in m && m[found[c]] == (key, c)
  {
    ComponentsListed();
    map c | c in COMPONENTS :: found[c] := (key, c)
  }

  lemma CleanNext(cs: seq<Component>, c: Component, scores: map<Component, Score>)
    ensures CleanOver(cs + [c], scores) ==
              if c in scores && scores[c].Finite? then CleanOver(cs, scores)[c := ClampScore(scores[c].value)]
                  else CleanOver(cs, scores)
  {
    assert forall d :: d in cs + [c] <==> d in cs || d == c;
  }

  method Fuse(ghost b: Betas, ghost market: string, ghost regime: string, ghost scores: map<Component, Score>,
              present: seq<Component>, all: Levels, clean: Levels, means: Levels, s: Settings, blocked: bool)
    returns (v: Fusion)
    requires Full(b) && all == Weights(b, market, regime) && means == Means(b)
    requires clean == Clean(scores) && present == Present(COMPONENTS, clean) && present != []
    ensures v == Combined(b, scores, market, regime, s, blocked)
  {
    hide Weights, View;
    WeightsDistribute(b, market, regime);
    v := View(present, Rescaled(all, present), clean, means, s, blocked);
  }

  lemma SameLevels(m: Levels, n: Levels)
    requires Full(m) && Full(n) && forall c :: m[c] == n[c]
    ensures m == n
  {
  }

  lemma SameBetas(a: Betas, b: Betas)
    requires Full(a) && Full(b) && forall c :: a[c] == b[c]
    ensures a == b
  {
  }
}
