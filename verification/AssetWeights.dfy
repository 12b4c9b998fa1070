/** Quality weights per asset class: a structural prior, tilted by the win rates its own
    outcomes earned. Weights are reals; win rates are in ten-thousandths. */
module AssetWeights {
  import opened Options
  import opened Reals
  import A = Accuracy
  import opened Collections

  datatype Factor = Mtf | Momentum | Volatility | Volume | Pressure

  type Weights = map<Factor, real>

  type Report = map<Factor, A.Evidence>

  const FACTOR_ORDER: seq<Factor> := [Mtf, Momentum, Volatility, Volume, Pressure]

  const MIN_FACTOR_SIGNALS: nat := 10
  const MAX_TILT: real := 0.5
  const NEUTRAL: int := 5000
  const MIN_INFORMATIVE_TILT: real := 0.025
  const TOLERANCE: real := 0.000000001

  function NameOf(f: Factor): string {
    match f
    case Mtf => "mtf"
    case Momentum => "momentum"
    case Volatility => "volatility"
    case Volume => "volume"
    case Pressure => "pressure"
  }

  function Vector(a: real, b: real, c: real, d: real, e: real): Weights {
    map[Mtf := a, Momentum := b, Volatility := c, Volume := d, Pressure := e]
  }

  const SHARED_WEIGHTS: Weights := Vector(0.25, 0.25, 0.15, 0.15, 0.20)

  function Prior(c: A.AssetClass): (p: Weights)
    ensures IsPrior(p)
  {
    VectorTotal(0.20, 0.20, 0.15, 0.15, 0.30);
    VectorTotal(0.25, 0.20, 0.15, 0.15, 0.25);
    VectorTotal(0.20, 0.30, 0.20, 0.15, 0.15);
    match c
    case Otc => Vector(0.20, 0.20, 0.15, 0.15, 0.30)
    case Real => Vector(0.25, 0.20, 0.15, 0.15, 0.25)
    case Crypto => Vector(0.20, 0.30, 0.20, 0.15, 0.15)
  }

  /** The class of a name; no name and unknown names are OTC. */
  function ClassOf(name: string): A.AssetClass {
    A.LedgerFor(name, A.Otc)
  }

  // ---- Normalising ----

  function Get(m: Weights, f: Factor): real {
    if f in m then m[f] else 0.0
  }

  function Cleaned(m: Weights): Weights {
    map f | f in FACTOR_ORDER :: Max(0.0, Get(m, f))
  }

  function Normalise(m: Weights): Weights {
    var cleaned := Cleaned(m);
    var total := Total(FACTOR_ORDER, cleaned);
    if total <= 0.0 then SHARED_WEIGHTS else map f | f in FACTOR_ORDER :: cleaned[f] / total
  }

  lemma FactorsListed()
    ensures forall f: Factor :: f in FACTOR_ORDER
  {
    forall f: Factor
      ensures f in FACTOR_ORDER
    {
      FactorListed(f);
    }
  }

  lemma FactorListed(f: Factor)
    ensures f in FACTOR_ORDER
  {
    match f {
      case Mtf => assert FACTOR_ORDER[0] == f;
      case Momentum => assert FACTOR_ORDER[1] == f;
      case Volatility => assert FACTOR_ORDER[2] == f;
      case Volume => assert FACTOR_ORDER[3] == f;
      case Pressure => assert FACTOR_ORDER[4] == f;
    }
  }

  lemma VectorTotal(a: real, b: real, c: real, d: real, e: real)
    ensures Full(Vector(a, b, c, d, e))
    ensures Total(FACTOR_ORDER, Vector(a, b, c, d, e)) == a + b + c + d + e
  {
    var v := Vector(a, b, c, d, e);
    forall f: Factor
      ensures f in v
    {
      FactorListed(f);
    }
    var o := FACTOR_ORDER;
    assert o[1..][1..] == o[2..] && o[2..][1..] == o[3..] && o[3..][1..] == o[4..] && o[4..][1..] == [];
    assert Total(o[4..], v) == e;
    assert Total(o[3..], v) == d + e;
    assert Total(o[2..], v) == c + d + e;
  }

  lemma CleanedAt(m: Weights, f: Factor)
    ensures f in Cleaned(m) && Cleaned(m)[f] == Max(0.0, Get(m, f))
  {
    FactorListed(f);
  }

  lemma NormaliseAt(m: Weights, f: Factor)
    requires forall g :: g in FACTOR_ORDER ==> g in Cleaned(m)
    requires Total(FACTOR_ORDER, Cleaned(m)) > 0.0
    ensures f in Cleaned(m) && f in Normalise(m)
    ensures Normalise(m)[f] == Times(Cleaned(m)[f], 1.0 / Total(FACTOR_ORDER, Cleaned(m)))
  {
    hide Cleaned, Total, Times;
    FactorListed(f);
    Divided(Cleaned(m)[f], Total(FACTOR_ORDER, Cleaned(m)));
  }

  /** Whatever it is given, the result is a distribution over the five factors. */
  lemma NormaliseDistributes(m: Weights)
    ensures Full(Normalise(m)) && Total(FACTOR_ORDER, Normalise(m)) == 1.0
    ensures forall f :: Normalise(m)[f] >= 0.0
  {
    hide Cleaned, Total, Times;
    var cleaned := Cleaned(m);
    forall f ensures f in cleaned && cleaned[f] >= 0.0 { CleanedAt(m, f); }
    var total := Total(FACTOR_ORDER, cleaned);
    if total <= 0.0 {
      VectorTotal(0.25, 0.25, 0.15, 0.15, 0.20);
    } else {
      hide Normalise;
      Divided(total, total);
      Divided(1.0, total);
      forall f
        ensures f in Normalise(m) && Normalise(m)[f] == Times(cleaned[f], 1.0 / total) >= 0.0
      {
        NormaliseAt(m, f);
        TimesNonNegative(cleaned[f], 1.0 / total);
      }
      TotalScaled(FACTOR_ORDER, cleaned, 1.0 / total, Normalise(m));
    }
  }

  /** A distribution is left as it is. */
  lemma NormaliseFixed(m: Weights)
    requires Full(m) && Total(FACTOR_ORDER, m) == 1.0 && forall f :: m[f] >= 0.0
    ensures Normalise(m) == m
  {
    hide Cleaned, Total, Times, Normalise;
    var cleaned := Cleaned(m);
    forall f ensures f in cleaned && cleaned[f] == m[f] { CleanedAt(m, f); }
    TotalAgrees(FACTOR_ORDER, m, cleaned);
    Divided(1.0, 1.0);
    forall f
      ensures f in Normalise(m) && Normalise(m)[f] == m[f]
    {
      NormaliseAt(m, f);
      TimesOne(m[f]);
    }
    SameWeights(Normalise(m), m);
  }

  lemma SameWeights(m: Weights, n: Weights)
    requires Full(m) && Full(n) && forall f :: m[f] == n[f]
    ensures m == n
  {
  }

  // ---- Clamping from above ----

  /** The entries clamped into [0, 1], as the function's description has it. */
  function Clamped(m: Weights): Weights {
    map f | f in FACTOR_ORDER :: Min(1.0, Max(0.0, Get(m, f)))
  }

  function ClampNormalise(m: Weights): Weights {
    var clamped := Clamped(m);
    var total := Total(FACTOR_ORDER, clamped);
    if total <= 0.0 then SHARED_WEIGHTS else map f | f in FACTOR_ORDER :: clamped[f] / total
  }

  lemma ClampedAt(m: Weights, f: Factor)
    ensures f in Clamped(m) && f in Cleaned(m) && Cleaned(m)[f] == Max(0.0, Get(m, f))
    ensures Clamped(m)[f] == Min(1.0, Cleaned(m)[f])
  {
    FactorListed(f);
  }

  /** Some entry is positive exactly when the clamped total is, and the unclamped one. */
  lemma TotalsTogether(m: Weights)
    ensures Full(Cleaned(m)) && Full(Clamped(m))
    ensures Total(FACTOR_ORDER, Cleaned(m)) <= 0.0 ==>
              Total(FACTOR_ORDER, Clamped(m)) <= 0.0 && forall f :: Get(m, f) <= 0.0
    ensures Total(FACTOR_ORDER, Clamped(m)) <= 0.0 ==> Total(FACTOR_ORDER, Cleaned(m)) <= 0.0
  {
    hide Total, Cleaned, Clamped;
    forall f ensures f in Cleaned(m) && f in Clamped(m) && f in FACTOR_ORDER { ClampedAt(m, f); FactorListed(f); }
    var c, d := Cleaned(m), Clamped(m);
    forall f ensures c[f] == Max(0.0, Get(m, f)) && d[f] == Min(1.0, c[f]) { ClampedAt(m, f); }
    TotalPositive(FACTOR_ORDER, c);
    TotalPositive(FACTOR_ORDER, d);
    if Total(FACTOR_ORDER, c) <= 0.0 || Total(FACTOR_ORDER, d) <= 0.0 {
      TotalAgrees(FACTOR_ORDER, c, d);
    }
  }

  lemma SharesEqualIff(a: real, t: real, b: real, u: real)
    requires t > 0.0 && u > 0.0
    ensures a / t == b / u <==> Times(a, u) == Times(b, t)
  {
    hide Times;
    Divided(a, t);
    Divided(b, u);
    var x, y := a / t, b / u;
    // a == x t and b == y u, so a u == x (t u) and b t == y (t u)
    var tu := Times(t, u);
    TimesPositive(t, u);
    TimesGroup(x, t, u);
    TimesGroup(y, u, t);
    TimesSwap(t, u);
    TimesSwap(tu, x);
    TimesSwap(tu, y);
    if Times(a, u) == Times(b, t) {
      TimesCancel(tu, x, y);
    }
  }

  /** The two normalisations agree on an entry exactly when it has the same share of both totals. */
  lemma EntryAgrees(m: Weights, f: Factor)
    requires Full(Cleaned(m)) && Full(Clamped(m))
    requires Total(FACTOR_ORDER, Cleaned(m)) > 0.0 && Total(FACTOR_ORDER, Clamped(m)) > 0.0
    ensures f in Normalise(m) && f in ClampNormalise(m)
    ensures Normalise(m)[f] == ClampNormalise(m)[f] <==>
            Times(Cleaned(m)[f], Total(FACTOR_ORDER, Clamped(m))) ==
            Times(Clamped(m)[f], Total(FACTOR_ORDER, Cleaned(m)))
  {
    hide Total, Times, Cleaned, Clamped;
    FactorListed(f);
    SharesEqualIff(Cleaned(m)[f], Total(FACTOR_ORDER, Cleaned(m)), Clamped(m)[f], Total(FACTOR_ORDER, Clamped(m)));
  }

  ghost predicate PositivesEqual(m: Weights) {
    forall f, g :: Get(m, f) > 0.0 && Get(m, g) > 0.0 ==> Get(m, f) == Get(m, g)
  }

  /** If all positive entries are equal, clamping scales all of them alike. */
  lemma ClampScales(m: Weights, h: Factor)
    requires PositivesEqual(m) && Get(m, h) > 1.0 && Full(Cleaned(m)) && Full(Clamped(m))
    ensures forall f ::
              Times(Cleaned(m)[f], Total(FACTOR_ORDER, Clamped(m))) ==
              Times(Clamped(m)[f], Total(FACTOR_ORDER, Cleaned(m)))
  {
    hide Total, Times, Cleaned, Clamped;
    var c, d, a := Cleaned(m), Clamped(m), Get(m, h);
    var k := 1.0 / a;
    Divided(a, a);
    forall f: Factor
      ensures d[f] == Times(c[f], k) && f in FACTOR_ORDER
    {
      ClampedAt(m, f);
      FactorListed(f);
      TimesOne(k);
      if Get(m, f) > 0.0 {
        assert Get(m, f) == a;
      }
    }
    TotalScaled(FACTOR_ORDER, c, k, d);
    forall f
      ensures Times(c[f], Total(FACTOR_ORDER, d)) == Times(d[f], Total(FACTOR_ORDER, c))
    {
      TimesGroup(c[f], Total(FACTOR_ORDER, c), k);
      TimesSwap(Total(FACTOR_ORDER, c), k);
      TimesGroup(c[f], k, Total(FACTOR_ORDER, c));
    }
  }

  /** If an entry above 1 and some positive entry keep their shares, they are equal. */
  lemma SharesForceEqual(c: real, d: real, a: real, t: real, u: real)
    requires c > 0.0 && d == Min(1.0, c) && a > 1.0 && t > 0.0 && u > 0.0
    requires Times(c, u) == Times(d, t) && Times(a, u) == Times(1.0, t)
    ensures c == a
  {
    hide Times;
    TimesOne(t);
    TimesSwap(c, u);
    TimesSwap(a, u);
    if c <= 1.0 {
      TimesSwap(c, t);
      TimesSwap(c, u);
      TimesCancel(c, u, t);
      TimesOne(u);
      TimesCancel(u, a, 1.0);
    } else {
      TimesCancel(u, c, a);
    }
  }

  /** Clamping from above would make no difference exactly when no weight exceeds 1 or all the
      positive weights are equal. */
  lemma {:induction false} NormaliseClampsIff(m: Weights)
    ensures Normalise(m) == ClampNormalise(m) <==> (forall f :: Get(m, f) <= 1.0) || PositivesEqual(m)
  {
    hide Total, Times, Cleaned, Clamped, Normalise, ClampNormalise;
    TotalsTogether(m);
    if Total(FACTOR_ORDER, Cleaned(m)) <= 0.0 {
      BothShared(m);
    } else {
      forall f
        ensures f in Normalise(m) && f in ClampNormalise(m)
      {
        EntryAgrees(m, f);
      }
      if (forall f :: Get(m, f) <= 1.0) || PositivesEqual(m) {
        ClampIdle(m);
      } else {
        ClampBites(m);
      }
    }
  }

  lemma BothShared(m: Weights)
    requires Full(Cleaned(m)) && Full(Clamped(m))
    requires Total(FACTOR_ORDER, Cleaned(m)) <= 0.0 && Total(FACTOR_ORDER, Clamped(m)) <= 0.0
    ensures Normalise(m) == ClampNormalise(m)
  {
    hide Total, Cleaned, Clamped;
  }

  lemma ClampIdle(m: Weights)
    requires (forall f :: Get(m, f) <= 1.0) || PositivesEqual(m)
    requires Full(Cleaned(m)) && Full(Clamped(m)) && Full(Normalise(m)) && Full(ClampNormalise(m))
    requires Total(FACTOR_ORDER, Cleaned(m)) > 0.0 && Total(FACTOR_ORDER, Clamped(m)) > 0.0
    ensures Normalise(m) == ClampNormalise(m)
  {
    hide Total, Times, Cleaned, Clamped, Normalise, ClampNormalise;
    if h :| Get(m, h) > 1.0 {
      ClampScales(m, h);
    } else {
      forall f ensures Cleaned(m)[f] == Clamped(m)[f] { ClampedAt(m, f); }
      TotalAgrees(FACTOR_ORDER, Cleaned(m), Clamped(m));
    }
    forall f
      ensures Normalise(m)[f] == ClampNormalise(m)[f]
    {
      EntryAgrees(m, f);
    }
    SameWeights(Normalise(m), ClampNormalise(m));
  }

  lemma ClampBites(m: Weights)
    requires !(forall f :: Get(m, f) <= 1.0) && !PositivesEqual(m)
    requires Full(Cleaned(m)) && Full(Clamped(m)) && Full(Normalise(m)) && Full(ClampNormalise(m))
    requires Total(FACTOR_ORDER, Cleaned(m)) > 0.0 && Total(FACTOR_ORDER, Clamped(m)) > 0.0
    ensures Normalise(m) != ClampNormalise(m)
  {
    hide Total, Times, Cleaned, Clamped, Normalise, ClampNormalise;
    var h :| Get(m, h) > 1.0;
    var f, g :| Get(m, f) > 0.0 && Get(m, g) > 0.0 && Get(m, f) != Get(m, g);
    if Normalise(m) == ClampNormalise(m) {
      LikeTheLargest(m, h, f);
      LikeTheLargest(m, h, g);
    }
  }

  lemma LikeTheLargest(m: Weights, h: Factor, f: Factor)
    requires Get(m, h) > 1.0 && Get(m, f) > 0.0 && Normalise(m) == ClampNormalise(m)
    requires Full(Cleaned(m)) && Full(Clamped(m))
    requires Total(FACTOR_ORDER, Cleaned(m)) > 0.0 && Total(FACTOR_ORDER, Clamped(m)) > 0.0
    ensures Get(m, f) == Get(m, h)
  {
    hide Total, Times, Cleaned, Clamped, Normalise, ClampNormalise;
    ClampedAt(m, h);
    ClampedAt(m, f);
    EntryAgrees(m, h);
    EntryAgrees(m, f);
    SharesForceEqual(Cleaned(m)[f], Clamped(m)[f], Get(m, h), Total(FACTOR_ORDER, Cleaned(m)),
        Total(FACTOR_ORDER, Clamped(m)));
  }

  /** Weights the description and the code treat differently. */
  lemma ClampExample()
    ensures var m := Vector(2.0, 1.0, 0.0, 0.0, 0.0);
            Normalise(m) != ClampNormalise(m)
  {
    var m := Vector(2.0, 1.0, 0.0, 0.0, 0.0);
    NormaliseClampsIff(m);
    assert Get(m, Mtf) == 2.0 && Get(m, Momentum) == 1.0;
  }

  // ---- The weights a class has earned ----

  /** Enough aligned outcomes to be heard. */
  predicate Informed(e: A.Evidence) {
    e.aligned >= MIN_FACTOR_SIGNALS && e.rate.Some?
  }

  function Tilt(e: A.Evidence): real
    requires Informed(e)
  {
    (e.rate.value - NEUTRAL) as real / 10000.0 * MAX_TILT
  }

  function Multiplier(e: A.Evidence): real {
    if Informed(e) then 1.0 + Tilt(e) else 1.0
  }

  ghost predicate InRange(r: Report) {
    Full(r) && forall f :: Informed(r[f]) ==> 0 <= r[f].rate.value <= 10000
  }

  /** The informed (or the uninformed) factors of a list, in its order. */
  function Those(fs: seq<Factor>, r: Report, informed: bool): (s: seq<Factor>)
    requires forall f :: f in fs ==> f in r
    ensures forall f :: f in s <==> f in fs && Informed(r[f]) == informed
  {
    if fs == [] then []
    else if Informed(r[fs[0]]) == informed then [fs[0]] + Those(fs[1..], r, informed)
    else Those(fs[1..], r, informed)
  }

  lemma {:induction false} TotalSplits(fs: seq<Factor>, r: Report, m: Weights)
    requires forall f :: f in fs ==> f in r && f in m
    ensures Total(fs, m) == Total(Those(fs, r, true), m) + Total(Those(fs, r, false), m)
  {
    if fs != [] {
      TotalSplits(fs[1..], r, m);
      var s, t := Those(fs[1..], r, true), Those(fs[1..], r, false);
      assert ([fs[0]] + s)[1..] == s && ([fs[0]] + t)[1..] == t;
    }
  }

  function Heard(r: Report): seq<Factor>
    requires Full(r)
  {
    Those(FACTOR_ORDER, r, true)
  }

  /** Prior weight times multiplier. */
  function Scaled(p: Weights, r: Report): Weights
    requires Full(p) && Full(r)
  {
    map f | f in FACTOR_ORDER :: Times(p[f], Multiplier(r[f]))
  }

  /** The factor that brings the informed mass back to the share it had. */
  function Rescale(p: Weights, r: Report): real
    requires Full(p) && Full(r)
  {
    FactorsListed();
    var mass := Total(Heard(r), Scaled(p, r));
    if mass == 0.0 then 0.0 else Total(Heard(r), p) / mass
  }

  /** The share of one factor: its prior when uninformed, else its scaled prior brought back. */
  function Share(p: Weights, r: Report, f: Factor): real
    requires Full(p) && Full(r)
  {
    if Informed(r[f]) then Times(Times(p[f], Multiplier(r[f])), Rescale(p, r)) else p[f]
  }

  function Tilted(p: Weights, r: Report): Weights
    requires Full(p) && Full(r)
  {
    map f | f in FACTOR_ORDER :: Share(p, r, f)
  }

  /** Some informed factor is far enough from a coin flip. */
  predicate Informative(r: Report)
    requires Full(r)
  {
    exists f :: f in FACTOR_ORDER && Informed(r[f]) && Abs(Tilt(r[f])) >= MIN_INFORMATIVE_TILT
  }

  predicate Unchanged(p: Weights, w: Weights)
    requires Full(p) && Full(w)
  {
    forall f :: f in FACTOR_ORDER ==> Abs(w[f] - p[f]) <= TOLERANCE
  }

  /** The learned weights, None when nothing was learned. */
  function Learned(p: Weights, r: Report, resolved: nat): (w: Option<Weights>)
    requires Full(p) && Full(r)
    ensures w.Some? ==> w.value == Tilted(p, r)
  {
    FactorsListed();
    var w := Tilted(p, r);
    if resolved < A.MIN_RESOLVED || !Informative(r) || Unchanged(p, w) then None else Some(w)
  }

  // ---- What the learned weights are ----

  /** A prior is a distribution that leaves no factor out. */
  ghost predicate IsPrior(p: Weights) {
    Full(p) && Total(FACTOR_ORDER, p) == 1.0 && forall f :: p[f] >= 0.15
  }

  lemma MultiplierRange(e: A.Evidence)
    requires Informed(e) ==> 0 <= e.rate.value <= 10000
    ensures 0.75 <= Multiplier(e) <= 1.25
  {
  }

  lemma ScaledAt(p: Weights, r: Report, f: Factor)
    requires Full(p) && Full(r)
    ensures f in Scaled(p, r) && Scaled(p, r)[f] == Times(p[f], Multiplier(r[f]))
  {
    FactorListed(f);
  }

  lemma TiltedAt(p: Weights, r: Report, f: Factor)
    requires Full(p) && Full(r)
    ensures f in Tilted(p, r) && Tilted(p, r)[f] == Share(p, r, f)
  {
    FactorListed(f);
  }

  /** The informed mass is within a quarter of the informed prior share. */
  lemma MassRange(p: Weights, r: Report)
    requires IsPrior(p) && InRange(r)
    ensures forall f :: f in Heard(r) ==> f in Scaled(p, r)
    ensures 0.75 * Total(Heard(r), p) <= Total(Heard(r), Scaled(p, r)) <= 1.25 * Total(Heard(r), p)
  {
    hide Multiplier, Heard, Scaled, Times, Total;
    var low: Weights := map f | f in Heard(r) :: Times(p[f], 0.75);
    var high: Weights := map f | f in Heard(r) :: Times(p[f], 1.25);
    forall f | f in Heard(r)
      ensures f in Scaled(p, r) && low[f] <= Scaled(p, r)[f] <= high[f]
    {
      ScaledAt(p, r, f);
      MultiplierRange(r[f]);
      Widen(p[f], 0.75, Multiplier(r[f]));
      Widen(p[f], Multiplier(r[f]), 1.25);
    }
    TotalMonotone(Heard(r), low, Scaled(p, r));
    TotalMonotone(Heard(r), Scaled(p, r), high);
    TotalScaled(Heard(r), p, 0.75, low);
    TotalScaled(Heard(r), p, 1.25, high);
    TimesLinear(Total(Heard(r), p));
  }

  /** With some factor informed, the rescaling is between 4/5 and 4/3 and undoes the mass. */
  lemma RescaleRange(p: Weights, r: Report)
    requires IsPrior(p) && InRange(r) && Heard(r) != []
    ensures forall f :: f in Heard(r) ==> f in Scaled(p, r)
    ensures 0.8 <= Rescale(p, r) <= 4.0 / 3.0
    ensures Total(Heard(r), p) > 0.0 && Total(Heard(r), Scaled(p, r)) > 0.0
    ensures Rescale(p, r) == Total(Heard(r), p) / Total(Heard(r), Scaled(p, r))
    ensures Times(Total(Heard(r), Scaled(p, r)), Rescale(p, r)) == Total(Heard(r), p)
  {
    hide Heard, Scaled, Total, Times;
    MassRange(p, r);
    TotalPositive(Heard(r), p);
    assert Heard(r)[0] in Heard(r);
    Ratio(Total(Heard(r), p), Total(Heard(r), Scaled(p, r)));
  }

  lemma Ratio(share: real, mass: real)
    requires share > 0.0 && 0.75 * share <= mass <= 1.25 * share
    ensures 0.8 <= share / mass <= 4.0 / 3.0 && Times(mass, share / mass) == share
  {
    hide Times;
    var k := share / mass;
    Divided(share, mass);
    TimesLinear(mass);
    if k < 0.8 {
      MinusTimes(0.8, k, mass);
      TimesPositive(0.8 - k, mass);
      TimesSwap(mass, 0.8);
      TimesSwap(mass, k);
    }
    if k > 4.0 / 3.0 {
      MinusTimes(k, 4.0 / 3.0, mass);
      TimesPositive(k - 4.0 / 3.0, mass);
      TimesSwap(mass, 4.0 / 3.0);
    }
  }

  lemma HeardIs(r: Report, f: Factor)
    requires Full(r)
    ensures f in Heard(r) <==> Informed(r[f])
  {
    FactorListed(f);
  }

  /** Each informed weight stays within 3/5 and 5/3 of its prior; the others keep it exactly. */
  lemma TiltedWithin(p: Weights, r: Report, f: Factor)
    requires IsPrior(p) && InRange(r)
    ensures f in Tilted(p, r)
    ensures Informed(r[f]) ==> 0.6 * p[f] <= Tilted(p, r)[f] <= 5.0 / 3.0 * p[f]
    ensures !Informed(r[f]) ==> Tilted(p, r)[f] == p[f]
  {
    hide Rescale, Multiplier, Heard, Tilted, Scaled, Times, Total, Informed;
    TiltedAt(p, r, f);
    HeardIs(r, f);
    if Informed(r[f]) {
      RescaleRange(p, r);
      MultiplierRange(r[f]);
      ProductRange(p[f], Multiplier(r[f]), Rescale(p, r));
    }
  }

  lemma ProductRange(x: real, m: real, k: real)
    requires x > 0.0 && 0.75 <= m <= 1.25 && 0.8 <= k <= 4.0 / 3.0
    ensures 0.6 * x <= Times(Times(x, m), k) <= 5.0 / 3.0 * x
  {
    hide Times;
    TimesLinear(x);
    Widen(x, 0.75, m);
    Widen(x, m, 1.25);
    var y := Times(x, m);
    Widen(y, 0.8, k);
    Widen(y, k, 4.0 / 3.0);
    TimesLinear(y);
  }

  /** The learned weights are a distribution again. */
  lemma TiltedIsDistribution(p: Weights, r: Report)
    requires IsPrior(p) && InRange(r)
    ensures Full(Tilted(p, r)) && Total(FACTOR_ORDER, Tilted(p, r)) == 1.0
    ensures forall f :: Tilted(p, r)[f] > 0.0
  {
    hide Rescale, Multiplier, Those, Total, Tilted, Scaled, Times, Informed;
    forall f: Factor
      ensures f in Tilted(p, r) && Tilted(p, r)[f] > 0.0 && (!Informed(r[f]) ==> Tilted(p, r)[f] == p[f])
    {
      TiltedWithin(p, r, f);
    }
    var w := Tilted(p, r);
    TotalSplits(FACTOR_ORDER, r, w);
    TotalSplits(FACTOR_ORDER, r, p);
    TotalAgrees(Those(FACTOR_ORDER, r, false), w, p);
    HeardTotal(p, r);
  }

  lemma HeardTotal(p: Weights, r: Report)
    requires IsPrior(p) && InRange(r)
    ensures forall f :: f in Heard(r) ==> f in Tilted(p, r)
    ensures Total(Heard(r), Tilted(p, r)) == Total(Heard(r), p)
  {
    hide Rescale, Multiplier, Heard, Total, Tilted, Scaled, Times, Informed;
    forall f | f in Heard(r)
      ensures f in Tilted(p, r) && f in Scaled(p, r) && Tilted(p, r)[f] == Times(Scaled(p, r)[f], Rescale(p, r))
    {
      TiltedAt(p, r, f);
      ScaledAt(p, r, f);
      HeardIs(r, f);
    }
    if Heard(r) == [] {
      TotalAgrees(Heard(r), Tilted(p, r), p);
    } else {
      RescaleRange(p, r);
      TotalScaled(Heard(r), Scaled(p, r), Rescale(p, r), Tilted(p, r));
    }
  }

  /** Relative to their priors, informed weights are in the order of their win rates. */
  lemma TiltedOrder(p: Weights, r: Report, f: Factor, g: Factor)
    requires IsPrior(p) && InRange(r) && Informed(r[f]) && Informed(r[g])
    ensures f in Tilted(p, r) && g in Tilted(p, r)
    ensures Tilted(p, r)[f] / p[f] <= Tilted(p, r)[g] / p[g] <==> r[f].rate.value <= r[g].rate.value
  {
    hide Rescale, Heard, Multiplier, Tilted, Scaled, Times, Total;
    TiltedAt(p, r, f);
    TiltedAt(p, r, g);
    HeardIs(r, f);
    RescaleRange(p, r);
    PerPrior(p[f], Multiplier(r[f]), Rescale(p, r));
    PerPrior(p[g], Multiplier(r[g]), Rescale(p, r));
    MultiplierOrder(r[f], r[g]);
    ScaleOrder(Multiplier(r[f]), Multiplier(r[g]), Rescale(p, r));
  }

  lemma PerPrior(x: real, m: real, k: real)
    requires x > 0.0
    ensures Times(Times(x, m), k) / x == Times(m, k)
  {
    hide Times;
    TimesGroup(x, m, k);
    Cancel(x, Times(m, k));
  }

  lemma Cancel(x: real, y: real)
    requires x > 0.0
    ensures Times(x, y) / x == y
  {
  }

  lemma MultiplierOrder(d: A.Evidence, e: A.Evidence)
    requires Informed(d) && Informed(e)
    ensures Multiplier(d) <= Multiplier(e) <==> d.rate.value <= e.rate.value
    ensures d.rate.value < e.rate.value ==> Multiplier(e) - Multiplier(d) >= 0.00005
  {
  }

  lemma ScaleOrder(m: real, n: real, k: real)
    requires k > 0.0
    ensures Times(m, k) <= Times(n, k) <==> m <= n
  {
    hide Times;
    MinusTimes(n, m, k);
    if n < m {
      TimesPositive(m - n, k);
      MinusTimes(m, n, k);
    } else {
      TimesNonNegative(n - m, k);
    }
  }

  // ---- When something is learned ----

  /** Two informed factors have different win rates. */
  ghost predicate Disagree(r: Report)
    requires Full(r)
  {
    exists f, g :: Informed(r[f]) && Informed(r[g]) && r[f].rate.value < r[g].rate.value
  }

  lemma EqualRatesChangeNothing(p: Weights, r: Report)
    requires IsPrior(p) && InRange(r) && !Disagree(r)
    ensures Full(Tilted(p, r)) && Unchanged(p, Tilted(p, r))
  {
    hide Rescale, Heard, Multiplier, Total, Scaled, Tilted, Disagree;
    forall f: Factor
      ensures f in Tilted(p, r) && Tilted(p, r)[f] == p[f]
    {
      TiltedWithin(p, r, f);
      if Informed(r[f]) {
        SameRateSamePrior(p, r, f);
      }
    }
  }

  lemma SameRateSamePrior(p: Weights, r: Report, f: Factor)
    requires IsPrior(p) && InRange(r) && !Disagree(r) && Informed(r[f])
    ensures f in Tilted(p, r) && Tilted(p, r)[f] == p[f]
  {
    hide Rescale, Heard, Multiplier, Total, Scaled, Times, Tilted;
    var m, k := Multiplier(r[f]), Rescale(p, r);
    HeardIs(r, f);
    TiltedAt(p, r, f);
    RescaleRange(p, r);
    forall g | g in Heard(r)
      ensures g in Scaled(p, r) && Scaled(p, r)[g] == Times(p[g], m)
    {
      HeardIs(r, g);
      ScaledAt(p, r, g);
      MultiplierOrder(r[f], r[g]);
      MultiplierOrder(r[g], r[f]);
    }
    TotalScaled(Heard(r), p, m, Scaled(p, r));
    Undo(Total(Heard(r), p), m, k, p[f]);
  }

  lemma Undo(t: real, m: real, k: real, x: real)
    requires t > 0.0 && Times(Times(t, m), k) == t
    ensures Times(Times(x, m), k) == x
  {
    hide Times;
    var e := Times(m, k);
    TimesGroup(t, m, k);
    TimesGroup(x, m, k);
    Cancel(t, e);
    Cancel(t, 1.0);
    TimesOne(t);
    TimesOne(x);
  }

  lemma DifferentRatesChangeSomething(p: Weights, r: Report, f: Factor, g: Factor)
    requires IsPrior(p) && InRange(r) && Informed(r[f]) && Informed(r[g]) && r[f].rate.value < r[g].rate.value
    ensures Full(Tilted(p, r)) && !Unchanged(p, Tilted(p, r))
  {
    hide Rescale, Heard, Multiplier, Total, Scaled, Times, Tilted, Abs;
    TiltedIsDistribution(p, r);
    FactorListed(f);
    FactorListed(g);
    TiltedAt(p, r, f);
    TiltedAt(p, r, g);
    HeardIs(r, f);
    RescaleRange(p, r);
    MultiplierOrder(r[f], r[g]);
    Apart(p[f], p[g], Multiplier(r[f]), Multiplier(r[g]), Rescale(p, r));
  }

  /** Two multipliers half a ten-thousandth apart cannot both be undone by one rescaling. */
  lemma Apart(x: real, y: real, m: real, n: real, k: real)
    requires x >= 0.15 && y >= 0.15 && k >= 0.8 && n - m >= 0.00005
    ensures Abs(Times(Times(x, m), k) - x) > TOLERANCE || Abs(Times(Times(y, n), k) - y) > TOLERANCE
  {
    hide Times;
    var a, b := Times(m, k) - 1.0, Times(n, k) - 1.0;
    MinusTimes(n, m, k);
    Widen(n - m, 0.8, k);
    TimesLinear(n - m);
    Away(x, m, k);
    Away(y, n, k);
    if a <= -0.00002 {
      Far(x, -a);
      MinusTimes(0.0, a, x);
      TimesOne(x);
      TimesSwap(x, 0.0);
    } else {
      Far(y, b);
    }
  }

  lemma Away(x: real, m: real, k: real)
    ensures Times(Times(x, m), k) - x == Times(x, Times(m, k) - 1.0)
  {
    hide Times;
    TimesGroup(x, m, k);
    MinusTimes(Times(m, k), 1.0, x);
    TimesOne(x);
  }

  lemma Far(x: real, a: real)
    requires x >= 0.15 && a >= 0.00002
    ensures Times(x, a) >= 0.000003
  {
    hide Times;
    Widen(a, 0.15, x);
    TimesLinear(a);
    TimesSwap(a, 0.15);
  }

  /** Something is learned exactly when the class has thirty resolved outcomes, some informed
      factor is at least five points from a coin flip, and two informed factors disagree. The
      closing tolerance never hides a difference the report can express. */
  lemma LearnsIff(p: Weights, r: Report, resolved: nat)
    requires IsPrior(p) && InRange(r)
    ensures Learned(p, r, resolved).Some? <==>
              && resolved >= 30
              && (exists f :: Informed(r[f]) && !(4500 < r[f].rate.value < 5500))
              && Disagree(r)
  {
    hide Tilted, Unchanged;
    TiltedIsDistribution(p, r);
    InformativeIff(r);
    if Disagree(r) {
      var f, g :| Informed(r[f]) && Informed(r[g]) && r[f].rate.value < r[g].rate.value;
      DifferentRatesChangeSomething(p, r, f, g);
    } else {
      EqualRatesChangeNothing(p, r);
    }
  }

  lemma InformativeIff(r: Report)
    requires Full(r)
    ensures Informative(r) <==> exists f :: Informed(r[f]) && !(4500 < r[f].rate.value < 5500)
  {
    forall f: Factor
      ensures f in FACTOR_ORDER
      ensures Informed(r[f]) ==> (Abs(Tilt(r[f])) >= MIN_INFORMATIVE_TILT <==> !(4500 < r[f].rate.value < 5500))
    {
      FactorListed(f);
    }
  }

  // ---- The computation ----

  /** What a ledger says of the five factors. */
  function ReportFrom(rows: seq<A.Outcome>): (r: Report)
    ensures InRange(r)
  {
    var r := map f | f in FACTOR_ORDER :: A.EvidenceOf(A.TallyOf(rows, NameOf(f)));
    ReportRange(rows, r);
    r
  }

  lemma ReportRange(rows: seq<A.Outcome>, r: Report)
    requires r == map f | f in FACTOR_ORDER :: A.EvidenceOf(A.TallyOf(rows, NameOf(f)))
    ensures InRange(r)
  {
    hide A.EvidenceOf, A.TallyOf;
    forall f: Factor
      ensures f in r && r[f] == A.EvidenceOf(A.TallyOf(rows, NameOf(f)))
      ensures Informed(r[f]) ==> 0 <= r[f].rate.value <= 10000
    {
      FactorListed(f);
      A.RateInRange(rows, NameOf(f));
    }
  }

  /** Sample size never shrinks a tilt: a factor below the floor is skipped before. */
  lemma ShrinkIsOne(e: A.Evidence)
    requires Informed(e)
    ensures Shrink(e) == 1.0
  {
  }

  function Shrink(e: A.Evidence): real {
    var ratio := e.aligned as real / MIN_FACTOR_SIGNALS as real;
    if ratio < 1.0 then ratio else 1.0
  }

  function Bucket(perFactor: map<string, A.Evidence>, f: Factor): A.Evidence {
    if NameOf(f) in perFactor then perFactor[NameOf(f)] else A.Evidence(0, None)
  }

  lemma BucketIs(rows: seq<A.Outcome>, perFactor: map<string, A.Evidence>, f: Factor)
    requires A.ReportOf(rows, perFactor)
    ensures Bucket(perFactor, f) == ReportFrom(rows)[f]
  {
    FactorListed(f);
    if NameOf(f) !in perFactor {
      A.Unmentioned(rows, NameOf(f));
    }
  }

  lemma {:induction false} ThoseNext(fs: seq<Factor>, f: Factor, r: Report, informed: bool)
    requires Full(r)
    ensures Those(fs + [f], r, informed) == Those(fs, r, informed) + if Informed(r[f]) == informed then [f] else []
  {
    if fs != [] {
      assert (fs + [f])[0] == fs[0] && (fs + [f])[1..] == fs[1..] + [f];
      ThoseNext(fs[1..], f, r, informed);
    }
  }

  function Uninformed(fs: seq<Factor>, informed: seq<Factor>): (s: seq<Factor>)
    ensures forall f :: f in s <==> f in fs && f !in informed
  {
    if fs == [] then []
    else if fs[0] in informed then Uninformed(fs[1..], informed)
    else [fs[0]] + Uninformed(fs[1..], informed)
  }

  lemma {:induction false} UninformedIs(fs: seq<Factor>, informed: seq<Factor>, r: Report)
    requires Full(r) && forall f :: f in fs ==> (f in informed <==> Informed(r[f]))
    ensures Uninformed(fs, informed) == Those(fs, r, false)
  {
    if fs != [] {
      UninformedIs(fs[1..], informed, r);
    }
  }

  /** How far from a coin flip the informed factors of a list get. */
  ghost predicate Reaches(fs: seq<Factor>, r: Report, top: real)
    requires Full(r)
  {
    && (top > 0.0 ==> exists f :: f in fs && Informed(r[f]) && Abs(Tilt(r[f])) == top)
    && top >= 0.0
    && forall f :: f in fs && Informed(r[f]) ==> Abs(Tilt(r[f])) <= top
  }

  lemma ReachesNext(fs: seq<Factor>, f: Factor, r: Report, top: real)
    requires Full(r) && Reaches(fs, r, top)
    ensures Reaches(fs + [f], r, if Informed(r[f]) then Max(top, Abs(Tilt(r[f]))) else top)
  {
    var all := fs + [f];
    assert forall g :: g in all <==> g in fs || g == f;
    if top > 0.0 {
      var g :| g in fs && Informed(r[g]) && Abs(Tilt(r[g])) == top;
      assert g in all;
    }
  }

  ghost predicate Multiplied(multiplier: Weights, done: seq<Factor>, r: Report)
    requires Full(r)
  {
    Full(multiplier) && forall f :: multiplier[f] == if f in done then Multiplier(r[f]) else 1.0
  }

  /** First pass: which factors are informed, their multipliers and the largest tilt. */
  method Listen(perFactor: map<string, A.Evidence>, ghost rows: seq<A.Outcome>)
    returns (multiplier: Weights, informed: seq<Factor>, maxAbsTilt: real)
    requires A.ReportOf(rows, perFactor)
    ensures Full(multiplier) && forall f :: multiplier[f] == Multiplier(ReportFrom(rows)[f])
    ensures informed == Heard(ReportFrom(rows))
    ensures maxAbsTilt >= MIN_INFORMATIVE_TILT <==> Informative(ReportFrom(rows))
  {
    hide ReportFrom, A.ReportOf, Multiplied, Reaches, Tilt, Multiplier, Informed, Bucket, Informative, Shrink,
        Abs, Max, Those;
    ghost var r := ReportFrom(rows);
    multiplier := map f | f in FACTOR_ORDER :: 1.0;
    informed := [];
    maxAbsTilt := 0.0;
    NothingHeard(r, multiplier);
    for i := 0 to |FACTOR_ORDER|
      invariant Multiplied(multiplier, FACTOR_ORDER[..i], r)
      invariant informed == Those(FACTOR_ORDER[..i], r, true)
      invariant Reaches(FACTOR_ORDER[..i], r, maxAbsTilt)
    {
      var name := FACTOR_ORDER[i];
      var bucket := Bucket(perFactor, name);
      BucketIs(rows, perFactor, name);
      ThoseNext(FACTOR_ORDER[..i], name, r, true);
      ReachesNext(FACTOR_ORDER[..i], name, r, maxAbsTilt);
      MultipliedNext(multiplier, FACTOR_ORDER[..i], r, name);
      assert FACTOR_ORDER[..i + 1] == FACTOR_ORDER[..i] + [name];
      if Informed(bucket) {
        var tilt := Tilt(bucket) * Shrink(bucket);
        ShrinkIsOne(bucket);
        OneTimes(Tilt(bucket));
        MultiplierIs(bucket);
        maxAbsTilt := Max(maxAbsTilt, Abs(tilt));
        multiplier := multiplier[name := 1.0 + tilt];
        informed := informed + [name];
      }
    }
    AllHeard(r, multiplier, maxAbsTilt);
  }

  lemma OneTimes(x: real)
    ensures x * 1.0 == x
  {
  }

  lemma MultiplierIs(e: A.Evidence)
    requires Informed(e)
    ensures Multiplier(e) == 1.0 + Tilt(e)
  {
  }

  lemma NothingHeard(r: Report, multiplier: Weights)
    requires Full(r) && multiplier == map f | f in FACTOR_ORDER :: 1.0
    ensures Multiplied(multiplier, FACTOR_ORDER[..0], r) && Reaches(FACTOR_ORDER[..0], r, 0.0)
    ensures Those(FACTOR_ORDER[..0], r, true) == []
  {
    FactorsListed();
  }

  lemma MultipliedNext(multiplier: Weights, done: seq<Factor>, r: Report, f: Factor)
    requires Full(r) && Multiplied(multiplier, done, r)
    ensures Multiplied(multiplier[f := Multiplier(r[f])], done + [f], r)
    ensures !Informed(r[f]) ==> Multiplied(multiplier, done + [f], r)
  {
    assert forall g :: g in done + [f] <==> g in done || g == f;
  }

  lemma AllHeard(r: Report, multiplier: Weights, top: real)
    requires Full(r) && Multiplied(multiplier, FACTOR_ORDER[..|FACTOR_ORDER|], r) &&
        Reaches(FACTOR_ORDER[..|FACTOR_ORDER|], r, top)
    ensures FACTOR_ORDER[..|FACTOR_ORDER|] == FACTOR_ORDER
    ensures Full(multiplier) && forall f :: multiplier[f] == Multiplier(r[f])
    ensures top >= MIN_INFORMATIVE_TILT <==> Informative(r)
  {
    assert FACTOR_ORDER[..|FACTOR_ORDER|] == FACTOR_ORDER;
    FactorsListed();
  }

  /** The shares nobody may touch, and what they leave. */
  method Freeze(prior: Weights, informed: seq<Factor>, ghost r: Report) returns (frozen: Weights, remaining: real)
    requires IsPrior(prior) && InRange(r) && informed == Heard(r)
    ensures forall f :: f in frozen <==> !Informed(r[f])
    ensures forall f :: f in frozen ==> frozen[f] == prior[f]
    ensures remaining == Total(informed, prior)
  {
    hide Informed, Total, Those, Uninformed;
    PriorFacts(prior, r);
    var priorTotal := Total(FACTOR_ORDER, prior);
    if priorTotal == 0.0 {
      priorTotal := 1.0;
    }
    UninformedIs(FACTOR_ORDER, informed, r);
    var rest := Uninformed(FACTOR_ORDER, informed);
    frozen := map f | f in rest :: prior[f] / priorTotal;
    assert forall f :: f in rest ==> frozen[f] == prior[f];
    remaining := Max(0.0, 1.0 - Total(rest, frozen));
    TotalAgrees(rest, frozen, prior);
  }

  /** Second pass: the informed factors share out what the others leave. */
  method Redistribute(prior: Weights, multiplier: Weights, informed: seq<Factor>, ghost r: Report)
    returns (mass: real, out: Weights)
    requires IsPrior(prior) && InRange(r) && informed == Heard(r) && informed != []
    requires Full(multiplier) && forall f :: multiplier[f] == Multiplier(r[f])
    ensures mass > 0.0 && out == Tilted(prior, r)
  {
    hide Multiplier, Informed, Rescale, Total, Scaled, Times, Heard, Tilted, Share;
    var frozen, remaining := Freeze(prior, informed, r);
    var scaled: Weights := map f | f in informed :: Times(prior[f], multiplier[f]);
    mass := Total(informed, scaled);
    ScaledAgrees(prior, r, scaled);
    RescaleRange(prior, r);
    out := ShareOut(prior, multiplier, informed, frozen, mass, remaining);
    forall f
      ensures f in informed <==> Informed(r[f])
    {
      HeardIs(r, f);
    }
    OutIsTilted(prior, r, out);
  }

  method ShareOut(prior: Weights, multiplier: Weights, informed: seq<Factor>, frozen: Weights, mass: real,
      remaining: real)
    returns (out: Weights)
    requires Full(prior) && Full(multiplier) && mass > 0.0
    ensures forall f :: f in out <==> f in frozen || f in informed
    ensures forall f :: f in out && f !in informed ==> out[f] == frozen[f]
    ensures forall f :: f in informed ==> out[f] == Times(Times(prior[f], multiplier[f]), remaining / mass)
  {
    hide Times;
    out := frozen;
    for i := 0 to |informed|
      invariant forall f :: f in out <==> f in frozen || f in informed[..i]
      invariant forall f :: f in out && f !in informed[..i] ==> out[f] == frozen[f]
      invariant forall f :: f in informed[..i] ==> out[f] == Times(Times(prior[f], multiplier[f]), remaining / mass)
    {
      var name := informed[i];
      assert informed[..i + 1] == informed[..i] + [name];
      Bring(prior[name], multiplier[name], mass, remaining);
      out := out[name := Times(prior[name], multiplier[name]) / mass * remaining];
    }
    assert informed[..|informed|] == informed;
  }

  lemma OutIsTilted(p: Weights, r: Report, out: Weights)
    requires IsPrior(p) && InRange(r)
    requires forall f :: f in out <==> !Informed(r[f]) || f in Heard(r)
    requires forall f :: f in out && !Informed(r[f]) ==> out[f] == p[f]
    requires forall f :: f in out && Informed(r[f]) ==> out[f] == Times(Times(p[f], Multiplier(r[f])), Rescale(p, r))
    ensures out == Tilted(p, r)
  {
    hide Multiplier, Informed, Rescale, Times, Heard, Tilted;
    forall f: Factor
      ensures f in out && f in Tilted(p, r) && out[f] == Tilted(p, r)[f]
    {
      HeardIs(r, f);
      TiltedAt(p, r, f);
    }
    SameWeights(out, Tilted(p, r));
  }

  lemma Bring(x: real, m: real, mass: real, remaining: real)
    requires mass > 0.0
    ensures Times(x, m) / mass * remaining == Times(Times(x, m), remaining / mass)
  {
    hide Times;
    var y, k := Times(x, m), 1.0 / mass;
    Divided(y, mass);
    Divided(remaining, mass);
    TimesGroup(y, k, remaining);
    TimesSwap(remaining, k);
    TimesIs(y / mass, remaining);
  }

  lemma TimesIs(x: real, y: real)
    ensures x * y == Times(x, y)
  {
  }

  lemma PriorFacts(p: Weights, r: Report)
    requires IsPrior(p) && InRange(r)
    ensures Total(FACTOR_ORDER, p) == 1.0
    ensures Total(Heard(r), p) == 1.0 - Total(Those(FACTOR_ORDER, r, false), p) >= 0.0
    ensures forall f :: Informed(r[f]) <==> f in Heard(r)
    ensures forall f :: f in FACTOR_ORDER
  {
    hide Total, Informed, Those;
    FactorsListed();
    TotalSplits(FACTOR_ORDER, r, p);
    TotalPositive(Heard(r), p);
  }

  lemma ScaledAgrees(p: Weights, r: Report, scaled: Weights)
    requires Full(p) && Full(r) && scaled == map f | f in Heard(r) :: Times(p[f], Multiplier(r[f]))
    ensures forall f :: f in Heard(r) ==> f in scaled && f in Scaled(p, r)
    ensures Total(Heard(r), scaled) == Total(Heard(r), Scaled(p, r))
  {
    hide Total, Heard, Scaled, Times, Multiplier;
    forall f ensures f in Scaled(p, r) && Scaled(p, r)[f] == Times(p[f], Multiplier(r[f])) { ScaledAt(p, r, f); }
    TotalAgrees(Heard(r), scaled, Scaled(p, r));
  }

  /** The weights one class has earned, from its own ledger alone. */
  method LearnedWeightsFor(name: string, tracker: A.AccuracyTracker) returns (w: Option<Weights>)
    requires tracker.Valid()
    ensures var c := ClassOf(name);
            var rows := A.NewestFirst(A.OfClass(tracker.log, c), tracker.classHistorySize);
            w == Learned(Prior(c), ReportFrom(rows), |rows|)
  {
    hide A.ReportOf, ReportFrom, Tilted, Heard, Multiplier, Informative, Prior, Normalise, Total;
    var c := ClassOf(name);
    A.LedgersAreNewest(tracker.log, tracker.windowSize, tracker.classHistorySize);
    ghost var r := ReportFrom(tracker.classOutcomes[c]);
    var prior := Prior(c);
    if |tracker.classOutcomes[c]| < A.MIN_RESOLVED {
      return None;
    }
    var perFactor := tracker.FactorWinRates(c);
    var multiplier, informed, maxAbsTilt := Listen(perFactor, tracker.classOutcomes[c]);
    SilenceIsUninformative(r);
    if informed == [] || maxAbsTilt < MIN_INFORMATIVE_TILT {
      return None;
    }
    var mass, out := Redistribute(prior, multiplier, informed, r);
    TiltedIsDistribution(prior, r);
    if mass <= 0.0 || Unchanged(prior, out) {
      return None;
    }
    NormaliseFixed(out);
    w := Some(Normalise(out));
  }

  lemma SilenceIsUninformative(r: Report)
    requires Full(r)
    ensures Heard(r) == [] ==> !Informative(r)
  {
    forall f
      ensures f in Heard(r) <==> Informed(r[f])
    {
      HeardIs(r, f);
    }
  }

  /** The weights in use: learned when earned, else the prior. Always a distribution. */
  method WeightsFor(name: string, tracker: A.AccuracyTracker) returns (w: Weights)
    requires tracker.Valid()
    ensures Full(w) && Total(FACTOR_ORDER, w) == 1.0 && forall f :: w[f] > 0.0
    ensures var c := ClassOf(name);
            var rows := A.NewestFirst(A.OfClass(tracker.log, c), tracker.classHistorySize);
            var learned := Learned(Prior(c), ReportFrom(rows), |rows|);
            w == if learned.Some? then learned.value else Prior(c)
  {
    hide Learned, Prior, ReportFrom, Tilted, Total;
    ghost var rows := A.NewestFirst(A.OfClass(tracker.log, ClassOf(name)), tracker.classHistorySize);
    TiltedIsDistribution(Prior(ClassOf(name)), ReportFrom(rows));
    var learned := LearnedWeightsFor(name, tracker);
    if learned.Some? {
      return learned.value;
    }
    return Prior(ClassOf(name));
  }
}
