/** What the learning ledgers count, whose ledger is whose, and what the learned weights owe to the
    win rates: stated on the outcomes and the names themselves. */
module LearningFacts {
  import opened Options
  import opened Reals
  import opened Text
  import opened Collections
  import A = Accuracy
  import opened AssetWeights

  // ---- Whose ledger ----

  /** An outcome goes to the ledger of the class it names, in either case; to that of its symbol
      when it names none, and to OTC when it names no class there is. */
  lemma LedgerForIs(given: string, ofSymbol: A.AssetClass)
    ensures A.LedgerFor(given, ofSymbol) ==
              if given == "" then ofSymbol
              else if Spells(given, "REAL") then A.Real
              else if Spells(given, "CRYPTO") then A.Crypto
              else A.Otc
  {
    hide Upper, Spells;
    UpperSpells(given, "REAL");
    UpperSpells(given, "CRYPTO");
    UpperSpells(given, "OTC");
  }

  /** And so are the priors chosen, where no name means OTC; these are the weights of the five
      factors, from the multi-timeframe one to pressure. */
  lemma PriorFor(name: string)
    ensures var p := Prior(ClassOf(name));
            [p[Mtf], p[Momentum], p[Volatility], p[Volume], p[Pressure]] ==
              if Spells(name, "REAL") then [0.25, 0.20, 0.15, 0.15, 0.25]
              else if Spells(name, "CRYPTO") then [0.20, 0.30, 0.20, 0.15, 0.15]
              else [0.20, 0.20, 0.15, 0.15, 0.30]
  {
    LedgerForIs(name, A.Otc);
  }

  // ---- Counting ----

  /** The outcomes for which the factor was aligned, and those of them that won. */
  ghost function AlignedAt(rows: seq<A.Outcome>, f: string): set<int> {
    set i | 0 <= i < |rows| && f in rows[i].factors && rows[i].factors[f] >= 0.5
  }

  ghost function WonAt(rows: seq<A.Outcome>, f: string): set<int> {
    set i | 0 <= i < |rows| && f in rows[i].factors && rows[i].factors[f] >= 0.5 && rows[i].verdict.Win?
  }

  lemma AlignedNext(rows: seq<A.Outcome>, o: A.Outcome, f: string)
    ensures AlignedAt(rows + [o], f) == AlignedAt(rows, f) + if A.IsAligned(o, f) then {|rows|} else {}
    ensures WonAt(rows + [o], f) == WonAt(rows, f) + if A.IsAligned(o, f) && o.verdict.Win? then {|rows|} else {}
    ensures |rows| !in AlignedAt(rows, f) && |rows| !in WonAt(rows, f)
  {
  }

  lemma {:induction false} AlignedCounts(rows: seq<A.Outcome>, f: string)
    ensures |A.Aligned(rows, f)| == |AlignedAt(rows, f)| && A.Wins(A.Aligned(rows, f)) == |WonAt(rows, f)|
  {
    if rows == [] {
      assert AlignedAt(rows, f) == {} && WonAt(rows, f) == {};
    } else {
      hide AlignedAt, WonAt, A.IsAligned, A.Wins;
      var init, last := rows[..|rows| - 1], rows[|rows| - 1];
      assert rows == init + [last];
      AlignedCounts(init, f);
      AlignedNext(init, last, f);
      A.WinsAppend(A.Aligned(init, f), last);
    }
  }

  /** What is reported of a factor: how often it was aligned, and the wins among those outcomes to
      the nearest ten-thousandth. */
  lemma RateIs(rows: seq<A.Outcome>, f: string)
    ensures var e := A.EvidenceOf(A.TallyOf(rows, f));
            && e.aligned == |AlignedAt(rows, f)|
            && (e.rate.Some? <==> AlignedAt(rows, f) != {})
            && (e.rate.Some? ==> A.Nearest(10000 * |WonAt(rows, f)|, |AlignedAt(rows, f)|, e.rate.value))
  {
    hide AlignedAt, WonAt, A.Aligned, A.Wins, A.Nearest, A.EvidenceOf, A.TallyOf;
    A.RateInRange(rows, f);
    AlignedCounts(rows, f);
  }

  /** The outcomes of a ledger with a confidence in a band. */
  ghost function Band(rows: seq<A.Outcome>, lo: real, hi: real): set<int> {
    set i | 0 <= i < |rows| && lo <= rows[i].confidence < hi
  }

  ghost function WonIn(rows: seq<A.Outcome>, lo: real, hi: real): set<int> {
    set i | 0 <= i < |rows| && lo <= rows[i].confidence < hi && rows[i].verdict.Win?
  }

  lemma BandLast(rows: seq<A.Outcome>, o: A.Outcome, lo: real, hi: real)
    ensures Band(rows + [o], lo, hi) == Band(rows, lo, hi) + if lo <= o.confidence < hi then {|rows|} else {}
    ensures WonIn(rows + [o], lo, hi) ==
            WonIn(rows, lo, hi) + if lo <= o.confidence < hi && o.verdict.Win? then {|rows|} else {}
    ensures |rows| !in Band(rows, lo, hi) && |rows| !in WonIn(rows, lo, hi)
  {
  }

  lemma {:induction false} InBandLast(rows: seq<A.Outcome>, o: A.Outcome, i: nat)
    requires i < 5
    ensures A.InBand(rows + [o], i) == A.InBand(rows, i) + if A.InBin(o, i) then [o] else []
  {
    hide A.InBin;
    if rows == [] {
      assert rows + [o] == [o] && [o][1..] == [];
    } else {
      assert (rows + [o])[1..] == rows[1..] + [o];
      InBandLast(rows[1..], o, i);
    }
  }

  lemma {:induction false} BandCounts(rows: seq<A.Outcome>, i: nat)
    requires i < 5
    ensures var b := A.BinOf(rows, i);
            b.count == |Band(rows, A.EDGES[i], A.EDGES[i + 1])| && b.wins == |WonIn(rows, A.EDGES[i], A.EDGES[i + 1])|
  {
    hide A.InBand, A.Wins, Band, WonIn;
    var lo, hi := A.EDGES[i], A.EDGES[i + 1];
    if rows == [] {
      A.EmptyBins();
      NobodyIn(lo, hi);
    } else {
      var init, last := rows[..|rows| - 1], rows[|rows| - 1];
      assert rows == init + [last];
      BandCounts(init, i);
      InBandLast(init, last, i);
      BandLast(init, last, lo, hi);
      A.WinsAppend(A.InBand(init, i), last);
      assert A.InBand(init, i) + [] == A.InBand(init, i);
    }
  }

  lemma NobodyIn(lo: real, hi: real)
    ensures Band([], lo, hi) == {} && WonIn([], lo, hi) == {}
  {
  }

  /** The calibration curve has the bands 0 to 60, 80, 90, 95 and 100.01; each holds exactly the
      outcomes of that confidence and their wins, and is evidence from thirty outcomes on. */
  lemma CurveIs(rows: seq<A.Outcome>)
    ensures var edges := [0.0, 60.0, 80.0, 90.0, 95.0, 100.01];
            forall i :: 0 <= i < 5 ==>
              var b := A.Curve(rows)[i];
              && b.lo == edges[i] && b.hi == edges[i + 1]
              && b.count == |Band(rows, edges[i], edges[i + 1])| && b.wins == |WonIn(rows, edges[i], edges[i + 1])|
              && (b.sufficient <==> b.count >= 30)
  {
    hide Band, WonIn;
    BandCounts(rows, 0);
    BandCounts(rows, 1);
    BandCounts(rows, 2);
    BandCounts(rows, 3);
    BandCounts(rows, 4);
  }

  // ---- Learned weights in terms of win rates ----

  /** Half of what a win rate is above a coin flip, over 1; rates are in ten-thousandths. */
  function Tilting(rate: int): real {
    0.75 + rate as real / 20000.0
  }

  lemma MultiplierIs(e: A.Evidence)
    requires e.aligned >= 10 && e.rate.Some?
    ensures Informed(e) && Multiplier(e) == Tilting(e.rate.value)
  {
  }

  /** Two factors with ten aligned outcomes or more have learned weights in the ratio of prior
      times tilt. Those with fewer keep their prior, so this fixes all weights. */
  lemma TiltedRatio(p: Weights, r: Report, f: Factor, g: Factor)
    requires IsPrior(p) && InRange(r)
    requires r[f].aligned >= 10 && r[f].rate.Some? && r[g].aligned >= 10 && r[g].rate.Some?
    ensures f in Tilted(p, r) && g in Tilted(p, r)
    ensures Times(Tilted(p, r)[f], Times(p[g], Tilting(r[g].rate.value))) ==
            Times(Tilted(p, r)[g], Times(p[f], Tilting(r[f].rate.value)))
  {
    hide Rescale, Multiplier, Tilted, Times, Tilting;
    MultiplierIs(r[f]);
    MultiplierIs(r[g]);
    TiltedAt(p, r, f);
    TiltedAt(p, r, g);
    CrossRescaled(Times(p[f], Multiplier(r[f])), Times(p[g], Multiplier(r[g])), Rescale(p, r));
  }

  lemma CrossRescaled(x: real, y: real, k: real)
    ensures Times(Times(x, k), y) == Times(Times(y, k), x)
  {
  }

  lemma TiltedSilent(p: Weights, r: Report, f: Factor)
    requires IsPrior(p) && InRange(r) && (r[f].aligned < 10 || r[f].rate.None?)
    ensures f in Tilted(p, r) && Tilted(p, r)[f] == p[f]
  {
    hide Tilted;
    TiltedWithin(p, r, f);
  }

  // ---- Normalising ----

  /** A weight given: what is not there, or less than nothing, counts as nothing. */
  function Given(m: Weights, f: Factor): (x: real)
    ensures f in m && m[f] >= 0.0 ==> x == m[f]
    ensures f !in m || m[f] < 0.0 ==> x == 0.0
  {
    if f in m && m[f] >= 0.0 then m[f] else 0.0
  }

  /** Normalising keeps the weights in the ratio in which they were given; when there is nothing to
      keep it gives the shared weights. */
  lemma NormaliseRatio(m: Weights, f: Factor, g: Factor)
    ensures Full(Normalise(m))
    ensures var n := Normalise(m);
            if exists h :: Given(m, h) > 0.0 then Times(n[f], Given(m, g)) == Times(n[g], Given(m, f))
            else [n[Mtf], n[Momentum], n[Volatility], n[Volume], n[Pressure]] == [0.25, 0.25, 0.15, 0.15, 0.20]
  {
    hide Cleaned, Total, Times, Normalise;
    NormaliseDistributes(m);
    forall h: Factor
      ensures h in Cleaned(m) && Cleaned(m)[h] == Given(m, h) && h in FACTOR_ORDER
    {
      CleanedAt(m, h);
      FactorListed(h);
    }
    var total := Total(FACTOR_ORDER, Cleaned(m));
    TotalPositive(FACTOR_ORDER, Cleaned(m));
    if h :| Given(m, h) > 0.0 {
      NormaliseAt(m, f);
      NormaliseAt(m, g);
      CrossRescaled(Given(m, f), Given(m, g), 1.0 / total);
    } else {
      NothingGiven(m);
    }
  }

  lemma NothingGiven(m: Weights)
    requires forall h :: h in FACTOR_ORDER && h in Cleaned(m) && Cleaned(m)[h] <= 0.0
    ensures Normalise(m) == SHARED_WEIGHTS
  {
    hide Cleaned;
    NoneTotal(FACTOR_ORDER, Cleaned(m));
  }

  lemma {:induction false} NoneTotal(fs: seq<Factor>, m: Weights)
    requires forall f :: f in fs ==> f in m && m[f] <= 0.0
    ensures Total(fs, m) <= 0.0
  {
    if fs != [] {
      NoneTotal(fs[1..], m);
    }
  }
}
