/** A Beta-Bernoulli posterior with a cap on how much evidence it holds. */
module Posteriors {
  import opened Reals

  datatype Beta = Beta(alpha: real, beta: real)

  const MAX_OBSERVATIONS: real := 4000.0

  function Mean(b: Beta): real {
    if b.alpha + b.beta > 0.0 then b.alpha / (b.alpha + b.beta) else 0.5
  }

  /** At least one pseudo-count each way, and just over the cap at most. */
  predicate Sane(b: Beta) {
    b.alpha >= 1.0 && b.beta >= 1.0 && b.alpha + b.beta < 4001.0
  }

  function Capped(b: Beta): Beta {
    var total := b.alpha + b.beta;
    if total > MAX_OBSERVATIONS then
      var scale := MAX_OBSERVATIONS / total;
      Beta(Max(1.0, Times(b.alpha, scale)), Max(1.0, Times(b.beta, scale)))
    else b
  }

  function Counted(b: Beta, correct: bool, amount: real): Beta {
    if correct then Beta(b.alpha + amount, b.beta) else Beta(b.alpha, b.beta + amount)
  }

  /** The posterior after one observation of some weight; a weight of zero or less is ignored. */
  function Recorded(b: Beta, correct: bool, weight: real): Beta {
    var amount := Max(0.0, weight);
    if amount <= 0.0 then b else Capped(Counted(b, correct, amount))
  }

  /** Scaling to the cap: the two parts still make up the cap before the floor of one. */
  lemma ScaledToCap(b: Beta)
    requires b.alpha >= 1.0 && b.beta >= 1.0 && b.alpha + b.beta > MAX_OBSERVATIONS
    ensures var scale := MAX_OBSERVATIONS / (b.alpha + b.beta);
            && 0.0 < scale < 1.0
            && Times(b.alpha, scale) > 0.0 && Times(b.beta, scale) > 0.0
            && Times(b.alpha, scale) + Times(b.beta, scale) == MAX_OBSERVATIONS
            && Times(scale, b.alpha + b.beta) == MAX_OBSERVATIONS
  {
    hide Times;
    var total := b.alpha + b.beta;
    var scale := MAX_OBSERVATIONS / total;
    Divided(MAX_OBSERVATIONS, total);
    if scale >= 1.0 {
      Widen(total, 1.0, scale);
      TimesOne(total);
    }
    if scale <= 0.0 {
      Widen(total, scale, 0.0);
      TimesOne(total);
    }
    TimesPositive(b.alpha, scale);
    TimesPositive(b.beta, scale);
    PlusTimes(b.alpha, b.beta, scale);
    TimesSwap(scale, total);
  }

  /** Whatever is recorded, with whatever weight, the posterior stays sane. */
  lemma RecordedSane(b: Beta, correct: bool, weight: real)
    requires Sane(b)
    ensures Sane(Recorded(b, correct, weight))
  {
    hide Times;
    var c := Counted(b, correct, weight);
    if weight > 0.0 && c.alpha + c.beta > MAX_OBSERVATIONS {
      ScaledToCap(c);
    }
  }

  /** Over any run of observations. */
  function RecordedAll(b: Beta, run: seq<(bool, real)>): Beta {
    if run == [] then b
    else
      var last := run[|run| - 1];
      Recorded(RecordedAll(b, run[..|run| - 1]), last.0, last.1)
  }

  lemma {:induction false} RunStaysSane(b: Beta, run: seq<(bool, real)>)
    requires Sane(b)
    ensures Sane(RecordedAll(b, run))
    ensures 1.0 / 4001.0 < Mean(RecordedAll(b, run)) < 1.0
  {
    if run == [] {
      MeanRange(b);
    } else {
      var front, last := run[..|run| - 1], run[|run| - 1];
      RunStaysSane(b, front);
      RecordedSane(RecordedAll(b, front), last.0, last.1);
      MeanRange(RecordedAll(b, run));
    }
  }

  /** The weight of the right, or the wrong, observations of a run; those of no weight aside. */
  function Evidence(run: seq<(bool, real)>, correct: bool): (x: real)
    ensures x >= 0.0
  {
    if run == [] then 0.0
    else Evidence(run[1..], correct) + if run[0].0 == correct && run[0].1 > 0.0 then run[0].1 else 0.0
  }

  lemma {:induction false} EvidenceLast(run: seq<(bool, real)>, correct: bool)
    requires run != []
    ensures var last := run[|run| - 1];
            Evidence(run, correct) ==
              Evidence(run[..|run| - 1], correct) + if last.0 == correct && last.1 > 0.0 then last.1 else 0.0
  {
    if |run| > 1 {
      EvidenceLast(run[1..], correct);
      assert run[..|run| - 1][1..] == run[1..][..|run| - 2];
    }
  }

  /** Until the cap is reached no evidence is lost: each part is its prior plus the weight of the
      observations on its side, in whatever order they came. */
  lemma {:induction false} RunCounts(b: Beta, run: seq<(bool, real)>)
    requires b.alpha + b.beta + Evidence(run, true) + Evidence(run, false) <= MAX_OBSERVATIONS
    ensures RecordedAll(b, run) == Beta(b.alpha + Evidence(run, true), b.beta + Evidence(run, false))
  {
    if run != [] {
      EvidenceLast(run, true);
      EvidenceLast(run, false);
      RunCounts(b, run[..|run| - 1]);
    }
  }

  /** Beyond the cap each part is its share of the cap, or 1 where that is less. */
  lemma BeyondCap(b: Beta, correct: bool, weight: real)
    requires Sane(b) && weight > 0.0 && b.alpha + b.beta + weight > MAX_OBSERVATIONS
    ensures var p, q := b.alpha + (if correct then weight else 0.0), b.beta + (if correct then 0.0 else weight);
            var c := Recorded(b, correct, weight);
            && (if 4000.0 * p >= p + q then Times(c.alpha, p + q) == 4000.0 * p else c.alpha == 1.0)
            && (if 4000.0 * q >= p + q then Times(c.beta, p + q) == 4000.0 * q else c.beta == 1.0)
  {
    hide Times;
    var c := Counted(b, correct, weight);
    var total := c.alpha + c.beta;
    ScaledToCap(c);
    ShareOfCap(c.alpha, MAX_OBSERVATIONS / total, total);
    ShareOfCap(c.beta, MAX_OBSERVATIONS / total, total);
  }

  lemma ShareOfCap(x: real, scale: real, total: real)
    requires total > 0.0 && Times(scale, total) == MAX_OBSERVATIONS
    ensures if 4000.0 * x >= total then Times(Max(1.0, Times(x, scale)), total) == 4000.0 * x
            else Max(1.0, Times(x, scale)) == 1.0
  {
    hide Times;
    var y := Times(x, scale);
    TimesGroup(x, scale, total);
    FourThousand(x);
    TimesSwap(y, total);
    TimesOne(total);
    if y < 1.0 {
      TimesLt(total, y, 1.0);
    } else {
      Widen(total, 1.0, y);
    }
  }

  lemma MeanRange(b: Beta)
    requires Sane(b)
    ensures 1.0 / 4001.0 < Mean(b) < 1.0
  {
    hide Times;
    var total, m := b.alpha + b.beta, Mean(b);
    Divided(b.alpha, total);
    if m >= 1.0 {
      Widen(total, 1.0, m);
      TimesOne(total);
    }
    if m <= 1.0 / 4001.0 {
      Widen(total, m, 1.0 / 4001.0);
      Divided(4001.0, 4001.0);
      Widen(1.0 / 4001.0, total, 4001.0);
      TimesSwap(4001.0, 1.0 / 4001.0);
      StrictlyLess(total);
    }
  }

  lemma StrictlyLess(total: real)
    requires total < 4001.0
    ensures Times(total, 1.0 / 4001.0) < 1.0
  {
  }

  lemma MeanOrder(b: Beta, c: Beta)
    requires b.alpha >= 1.0 && b.beta >= 1.0 && c.alpha >= 1.0 && c.beta >= 1.0
    ensures Mean(c) < Mean(b) <==> Times(c.alpha, b.beta) < Times(b.alpha, c.beta)
  {
    hide Times;
    var m, n := Mean(b), Mean(c);
    var s, t := b.alpha + b.beta, c.alpha + c.beta;
    Divided(b.alpha, s);
    Divided(c.alpha, t);
    // m * s = alpha and n * t = alpha', so m * s * t and n * t * s compare the cross products
    TimesPositive(s, t);
    var st := Times(s, t);
    assert Times(m, st) == Times(b.alpha, t) by { TimesGroup(m, s, t); }
    assert Times(n, st) == Times(c.alpha, s) by { TimesSwap(s, t); TimesGroup(n, t, s); }
    TimesPlus(b.alpha, c.alpha, c.beta);
    TimesPlus(c.alpha, b.alpha, b.beta);
    TimesSwap(b.alpha, c.alpha);
    TimesSwap(m, st);
    TimesSwap(n, st);
    if n < m {
      TimesLt(st, n, m);
    } else {
      Widen(st, m, n);
    }
  }

  /** Below the cap a correct observation raises the mean and a wrong one lowers it. */
  lemma RecordMovesMean(b: Beta, correct: bool, weight: real)
    requires Sane(b) && weight > 0.0 && b.alpha + b.beta + weight <= MAX_OBSERVATIONS
    ensures var c := Recorded(b, correct, weight);
            if correct then Mean(c) > Mean(b) else Mean(c) < Mean(b)
  {
    hide Times;
    var c := Recorded(b, correct, weight);
    if correct {
      MeanOrder(c, b);
      PlusTimes(b.alpha, weight, b.beta);
      TimesPositive(weight, b.beta);
    } else {
      MeanOrder(b, c);
      TimesPlus(b.alpha, b.beta, weight);
      TimesPositive(b.alpha, weight);
    }
  }

  /** Above the cap a correct observation can lower the mean: the rescaling pushes beta to the
      floor of one while alpha shrinks. It does so exactly when alpha outweighs beta by far and
      the weight is small enough. */
  lemma CorrectLowersMeanIff(b: Beta, weight: real)
    requires Sane(b) && weight > 0.0
    ensures Mean(Recorded(b, true, weight)) < Mean(b) <==>
              Times(weight, 4000.0 * b.beta - b.alpha) < Times(b.alpha, b.alpha - 3999.0 * b.beta)
  {
    hide Times, Recorded, Mean;
    if b.alpha + b.beta + weight <= MAX_OBSERVATIONS {
      RecordMovesMean(b, true, weight);
      BelowCap(b, weight);
    } else {
      var scale := CapScale(b, weight);
      RecordedSane(b, true, weight);
      MeanOrder(b, Recorded(b, true, weight));
      CappedCross(b, weight, scale);
      TimesOne(b.alpha);
      ClosedForm(b, weight, scale);
      if Times(b.beta, scale) >= 1.0 {
        FloorNeeded(b, weight, scale);
      }
    }
  }

  /** Above the cap both parts are scaled and floored. */
  lemma CapScale(b: Beta, weight: real) returns (scale: real)
    requires Sane(b) && weight > 0.0 && b.alpha + b.beta + weight > MAX_OBSERVATIONS
    ensures scale > 0.0 && Times(scale, b.alpha + b.beta + weight) == MAX_OBSERVATIONS
    ensures Times(b.alpha + weight, scale) + Times(b.beta, scale) == MAX_OBSERVATIONS
    ensures Recorded(b, true, weight) ==
            Beta(Max(1.0, Times(b.alpha + weight, scale)), Max(1.0, Times(b.beta, scale)))
  {
    hide Times;
    scale := MAX_OBSERVATIONS / (b.alpha + weight + b.beta);
    ScaledToCap(Counted(b, true, weight));
  }

  /** The two parts of the closed form, compared without the difference. */
  lemma ExpandForm(b: Beta, weight: real)
    ensures Times(weight, 4000.0 * b.beta - b.alpha) < Times(b.alpha, b.alpha - 3999.0 * b.beta) <==>
            4000.0 * Times(b.alpha + weight, b.beta) < Times(b.alpha, b.alpha + b.beta + weight)
  {
    var u, v := weight, b.beta;
    var a := b.alpha;
    assert 4000.0 * ((a + u) * v) - a * (a + v + u) == u * (4000.0 * v - a) - a * (a - 3999.0 * v);
  }

  /** Below the cap the weight is never small enough. */
  lemma BelowCap(b: Beta, weight: real)
    requires Sane(b) && weight > 0.0 && b.alpha + b.beta + weight <= MAX_OBSERVATIONS
    ensures !(Times(weight, 4000.0 * b.beta - b.alpha) < Times(b.alpha, b.alpha - 3999.0 * b.beta))
  {
    hide Times;
    ExpandForm(b, weight);
    Widen(b.alpha, b.alpha + b.beta + weight, 4000.0);
    Widen(b.alpha + weight, 1.0, b.beta);
    TimesOne(b.alpha + weight);
    TimesSwap(4000.0, b.alpha);
    FourThousand(b.alpha);
  }

  lemma FourThousand(x: real)
    ensures Times(x, 4000.0) == 4000.0 * x
  {
  }

  /** Multiplying the comparison of the scaled parts by the total. */
  lemma ClosedForm(b: Beta, weight: real, scale: real)
    requires Sane(b) && weight > 0.0 && Times(scale, b.alpha + b.beta + weight) == MAX_OBSERVATIONS
    ensures Times(Times(b.alpha + weight, scale), b.beta) < b.alpha <==>
              Times(weight, 4000.0 * b.beta - b.alpha) < Times(b.alpha, b.alpha - 3999.0 * b.beta)
  {
    hide Times;
    var total := b.alpha + b.beta + weight;
    var x := Times(Times(b.alpha + weight, scale), b.beta);
    ExpandForm(b, weight);
    ByTotal(b.alpha + weight, scale, b.beta, total);
    if x < b.alpha {
      TimesLt(total, x, b.alpha);
    } else {
      Widen(total, b.alpha, x);
    }
    TimesSwap(total, x);
    TimesSwap(total, b.alpha);
  }

  lemma ByTotal(up: real, scale: real, down: real, total: real)
    requires Times(scale, total) == MAX_OBSERVATIONS
    ensures Times(Times(Times(up, scale), down), total) == 4000.0 * Times(up, down)
  {
    assert up * scale * down * total == (scale * total) * (up * down);
  }

  /** With beta scaled to one or more the condition fails. */
  lemma FloorNeeded(b: Beta, weight: real, scale: real)
    requires Sane(b) && weight > 0.0 && scale > 0.0 && Times(b.beta, scale) >= 1.0
    ensures Times(Times(b.alpha + weight, scale), b.beta) > b.alpha
  {
    hide Times;
    TimesGroup(b.alpha + weight, scale, b.beta);
    TimesSwap(scale, b.beta);
    Widen(b.alpha + weight, 1.0, Times(b.beta, scale));
    TimesOne(b.alpha + weight);
  }

  /** With beta off its floor, scaling keeps the odds and the larger alpha wins. */
  lemma CappedCross(b: Beta, weight: real, scale: real)
    requires Sane(b) && weight > 0.0 && scale > 0.0
    requires Times(b.alpha + weight, scale) + Times(b.beta, scale) == MAX_OBSERVATIONS
    ensures Times(b.beta, scale) >= 1.0 ==>
              Times(Max(1.0, Times(b.alpha + weight, scale)), b.beta) > Times(b.alpha, Times(b.beta, scale))
    ensures Times(b.beta, scale) < 1.0 ==> Times(b.alpha + weight, scale) > 1.0
  {
    hide Times;
    var up := Times(b.alpha + weight, scale);
    Widen(b.beta, up, Max(1.0, up));
    PlusTimes(b.alpha, weight, scale);
    TimesPositive(weight, scale);
    TimesLt(b.beta, Times(b.alpha, scale), up);
    TimesSwap(b.beta, Times(b.alpha, scale));
    TimesGroup(b.alpha, scale, b.beta);
    TimesSwap(scale, b.beta);
    TimesSwap(b.beta, up);
    TimesSwap(b.beta, Max(1.0, up));
  }

  /** Such a run from the momentum prior, of correct observations only. */
  lemma CorrectCanLower()
    ensures Recorded(Beta(6.0, 2.0), true, 79992.0) == Beta(3999.9, 1.0)
    ensures Recorded(Beta(3999.9, 1.0), true, 3999.1) == Beta(3999.5, 1.0)
    ensures Mean(Beta(3999.5, 1.0)) < Mean(Beta(3999.9, 1.0))
  {
    assert MAX_OBSERVATIONS / 80000.0 == 0.05 && MAX_OBSERVATIONS / 8000.0 == 0.5;
    MeanOrder(Beta(3999.9, 1.0), Beta(3999.5, 1.0));
  }

  class BetaPosterior {
    var alpha: real
    var beta: real

    constructor (alpha: real, beta: real)
      ensures View() == Beta(alpha, beta)
    {
      this.alpha, this.beta := alpha, beta;
    }

    function View(): Beta
      reads this
    {
      Beta(alpha, beta)
    }

    method Record(correct: bool, weight: real)
      modifies this
      ensures View() == Recorded(old(View()), correct, weight)
    {
      var amount := Max(0.0, weight);
      if amount <= 0.0 {
        return;
      }
      if correct {
        alpha := alpha + amount;
      } else {
        beta := beta + amount;
      }
      var total := alpha + beta;
      if total > MAX_OBSERVATIONS {
        var scale := MAX_OBSERVATIONS / total;
        alpha := Max(1.0, Times(alpha, scale));
        beta := Max(1.0, Times(beta, scale));
      }
    }
  }
}
