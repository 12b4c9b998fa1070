/** The rolling accuracy store: the shared window of outcomes, one ledger per asset class, the
    watchdog that raises the gate, and the calibration curve. Gates and win rates are in
    ten-thousandths. */
module Accuracy {
  import opened Options
  import opened Text

  datatype AssetClass = Otc | Real | Crypto

  datatype Verdict = Win | Loss | Other

  /** One closed outcome; factors maps a factor's name to its alignment. */
  datatype Outcome = Outcome(verdict: Verdict, confidence: real, factors: map<string, real>)

  datatype Entry = Entry(cls: AssetClass, outcome: Outcome)

  const HARD_GATE: int := 9800
  const MAX_GATE: int := 9950
  const GATE_STEP: int := 50
  const RAISE_COOLDOWN: nat := 10
  const MIN_RESOLVED: nat := 30

  // ---- Classes ----

  function ClassNamed(s: string): Option<AssetClass> {
    if s == "OTC" then Some(Otc) else if s == "REAL" then Some(Real) else if s == "CRYPTO" then Some(Crypto) else None
  }

  /** The ledger an outcome goes to: the class given, else the symbol's; an unknown one is OTC. */
  function LedgerFor(given: string, ofSymbol: AssetClass): AssetClass {
    if given == "" then ofSymbol
    else match ClassNamed(Upper(given)) case Some(c) => c case None => Otc
  }

  // ---- Bounded ledgers, newest first ----

  function Push<T>(q: seq<T>, x: T, cap: nat): seq<T> {
    var all := [x] + q;
    if |all| <= cap then all else all[..cap]
  }

  /** The last n elements, newest first. */
  function NewestFirst<T>(s: seq<T>, n: nat): seq<T> {
    if s == [] || n == 0 then [] else [s[|s| - 1]] + NewestFirst(s[..|s| - 1], n - 1)
  }

  lemma {:induction false} NewestFirstAt<T>(s: seq<T>, n: nat)
    ensures |NewestFirst(s, n)| == if |s| < n then |s| else n
    ensures forall k :: 0 <= k < |NewestFirst(s, n)| ==> NewestFirst(s, n)[k] == s[|s| - 1 - k]
  {
    if s != [] && n > 0 {
      NewestFirstAt(s[..|s| - 1], n - 1);
    }
  }

  lemma PushNewest<T>(s: seq<T>, x: T, n: nat)
    ensures Push(NewestFirst(s, n), x, n) == NewestFirst(s + [x], n)
  {
    NewestFirstAt(s, n);
    NewestFirstAt(s + [x], n);
    var a, b := Push(NewestFirst(s, n), x, n), NewestFirst(s + [x], n);
    assert |a| == |b|;
    assert forall k :: 0 <= k < |a| ==> a[k] == b[k];
  }

  function Wins(rows: seq<Outcome>): (n: nat)
    ensures n <= |rows|
  {
    if rows == [] then 0 else (if rows[0].verdict.Win? then 1 else 0) + Wins(rows[1..])
  }

  // ---- The watchdog ----

  datatype Watch = Watch(window: seq<Outcome>, ledgers: map<AssetClass, seq<Outcome>>, gate: Option<int>, since: nat)

  function Gate(w: Watch): int {
    if w.gate.Some? then w.gate.value else HARD_GATE
  }

  /** The win rate plus 1e-12 is below 0.96, over common denominators. */
  predicate Sinking(rows: seq<Outcome>) {
    |rows| > 0 && 100 * (Wins(rows) * 1_000_000_000_000 + |rows|) < 96 * 1_000_000_000_000 * |rows|
  }

  /** The slack only matters for windows of ten billion outcomes and more. */
  lemma SinkingIff(rows: seq<Outcome>)
    requires |rows| < 10_000_000_000
    ensures Sinking(rows) <==> 100 * Wins(rows) < 96 * |rows|
  {
    hide Wins;
    SlackIdle(Wins(rows), |rows|);
  }

  lemma SlackIdle(wins: int, n: int)
    requires 0 <= n < 10_000_000_000
    ensures 100 * (wins * 1_000_000_000_000 + n) < 96 * 1_000_000_000_000 * n <==> 100 * wins < 96 * n
  {
    var gap := 96 * n - 100 * wins;
    assert 100 * (wins * 1_000_000_000_000 + n) < 96 * 1_000_000_000_000 * n <==> 100 * n < 1_000_000_000_000 * gap;
  }

  /** One check of the watchdog on a window of the given size. */
  function AutoRaise(w: Watch, size: nat): Watch {
    if |w.window| < size || w.since < RAISE_COOLDOWN || !Sinking(w.window) then w
    else
      var current := Gate(w);
      var raised := if current + GATE_STEP < MAX_GATE then current + GATE_STEP else MAX_GATE;
      if raised > current then w.(gate := Some(raised), since := 0) else w
  }

  function Step(w: Watch, e: Entry, size: nat, history: nat): Watch
    requires e.cls in w.ledgers
  {
    AutoRaise(w.(window := Push(w.window, e.outcome, size),
                 ledgers := w.ledgers[e.cls := Push(w.ledgers[e.cls], e.outcome, history)],
                 since := w.since + 1), size)
  }

  const FRESH: Watch := Watch([], map[Otc := [], Real := [], Crypto := []], None, 0)

  lemma FullMap<T>(m: map<AssetClass, T>)
    requires Otc in m && Real in m && Crypto in m
    ensures forall c: AssetClass :: c in m
  {
    forall c: AssetClass
      ensures c in m
    {
      match c {
        case Otc =>
        case Real =>
        case Crypto =>
      }
    }
  }

  /** The store after a log of outcomes, oldest first. */
  function After(log: seq<Entry>, size: nat, history: nat): (w: Watch)
    ensures forall c: AssetClass :: c in w.ledgers
  {
    if log == [] then FullMap(FRESH.ledgers); FRESH
    else Step(After(log[..|log| - 1], size, history), log[|log| - 1], size, history)
  }

  lemma AfterStep(log: seq<Entry>, e: Entry, size: nat, history: nat)
    ensures After(log + [e], size, history) == Step(After(log, size, history), e, size, history)
  {
    assert (log + [e])[..|log|] == log;
  }

  function Outcomes(log: seq<Entry>): (s: seq<Outcome>)
    ensures |s| == |log|
  {
    seq(|log|, i requires 0 <= i < |log| => log[i].outcome)
  }

  /** The outcomes of one class, oldest first. */
  function OfClass(log: seq<Entry>, c: AssetClass): seq<Outcome> {
    if log == [] then []
    else
      var rest := OfClass(log[..|log| - 1], c);
      if log[|log| - 1].cls == c then rest + [log[|log| - 1].outcome] else rest
  }

  /** The window is the newest outcomes of the whole log, and each ledger the newest of its own
      class: no class pushes another out. */
  lemma {:induction false} LedgersAreNewest(log: seq<Entry>, size: nat, history: nat)
    ensures After(log, size, history).window == NewestFirst(Outcomes(log), size)
    ensures forall c :: After(log, size, history).ledgers[c] == NewestFirst(OfClass(log, c), history)
  {
    if log != [] {
      var front, e := log[..|log| - 1], log[|log| - 1];
      LedgersAreNewest(front, size, history);
      assert Outcomes(log) == Outcomes(front) + [e.outcome];
      PushNewest(Outcomes(front), e.outcome, size);
      PushNewest(OfClass(front, e.cls), e.outcome, history);
    }
  }

  // ---- The gate over whole runs ----

  /** The k-th outcome raised the gate. */
  predicate Raised(log: seq<Entry>, k: nat, size: nat, history: nat) {
    1 <= k <= |log| && Gate(After(log[..k], size, history)) > Gate(After(log[..k - 1], size, history))
  }

  function RaiseCount(log: seq<Entry>, size: nat, history: nat): nat {
    if log == [] then 0
    else RaiseCount(log[..|log| - 1], size, history) + if Raised(log, |log|, size, history) then 1 else 0
  }

  /** The position of the last raise, 0 when there was none. */
  function LastRaise(log: seq<Entry>, size: nat, history: nat): (k: nat)
    ensures k <= |log|
  {
    if log == [] then 0
    else if Raised(log, |log|, size, history) then |log|
    else LastRaise(log[..|log| - 1], size, history)
  }

  /** The gate is the contract plus one step for every raise so far. It never exceeds the
      ceiling, so no run raises it more than three times. */
  lemma {:induction false} GateCountsRaises(log: seq<Entry>, size: nat, history: nat)
    ensures Gate(After(log, size, history)) == HARD_GATE + GATE_STEP * RaiseCount(log, size, history) <= MAX_GATE
    ensures RaiseCount(log, size, history) <= 3
    ensures After(log, size, history).since == |log| - LastRaise(log, size, history)
  {
    if log != [] {
      hide Push, Sinking, After, AutoRaise, Gate;
      var front := log[..|log| - 1];
      assert log[..|log|] == log && front + [log[|log| - 1]] == log;
      GateCountsRaises(front, size, history);
      AfterStep(front, log[|log| - 1], size, history);
      StepRaises(After(front, size, history), log[|log| - 1], size, history);
    } else {
      assert Gate(FRESH) == HARD_GATE;
    }
  }

  /** One outcome: the gate stays, or rises by one step below the ceiling. */
  lemma StepRaises(w: Watch, e: Entry, size: nat, history: nat)
    requires e.cls in w.ledgers
    ensures var t := Step(w, e, size, history);
            || (Gate(t) == Gate(w) && t.since == w.since + 1)
            || (Gate(t) > Gate(w) && t.since == 0 &&
                Gate(t) == if Gate(w) + GATE_STEP < MAX_GATE then Gate(w) + GATE_STEP else MAX_GATE)
  {
    hide Push, Sinking;
  }

  /** The gate never falls along a run, and it rises by at most one step an outcome. */
  lemma GateRatchets(log: seq<Entry>, e: Entry, size: nat, history: nat)
    ensures var before, after := Gate(After(log, size, history)), Gate(After(log + [e], size, history));
            HARD_GATE <= before <= after <= before + GATE_STEP && after <= MAX_GATE
  {
    GateCountsRaises(log, size, history);
    GateCountsRaises(log + [e], size, history);
    assert (log + [e])[..|log|] == log;
  }

  /** The newest outcome raises the gate exactly when the window is full, ten outcomes have
      passed since the last raise, the newest window wins under the trigger and the ceiling has
      not been reached: everything said of the log alone. */
  lemma RaisedIff(log: seq<Entry>, e: Entry, size: nat, history: nat)
    ensures Raised(log + [e], |log| + 1, size, history) <==>
              && |log| + 1 >= size
              && |log| + 1 - LastRaise(log, size, history) >= RAISE_COOLDOWN
              && Sinking(NewestFirst(Outcomes(log + [e]), size))
              && RaiseCount(log, size, history) < 3
  {
    hide NewestFirst, Sinking, RaiseCount, LastRaise, OfClass, After;
    GateCountsRaises(log, size, history);
    AfterStep(log, e, size, history);
    LedgersAreNewest(log, size, history);
    assert Outcomes(log + [e]) == Outcomes(log) + [e.outcome];
    PushNewest(Outcomes(log), e.outcome, size);
    NewestFirstAt(Outcomes(log + [e]), size);
    assert (log + [e])[..|log| + 1] == log + [e] && (log + [e])[..|log|] == log;
  }

  lemma {:induction false} LastRaiseIsLast(log: seq<Entry>, j: nat, size: nat, history: nat)
    requires Raised(log, j, size, history)
    ensures j <= LastRaise(log, size, history)
  {
    if j < |log| {
      var front := log[..|log| - 1];
      assert front[..j] == log[..j] && front[..j - 1] == log[..j - 1];
      LastRaiseIsLast(front, j, size, history);
    }
  }

  /** Any two raises are ten outcomes apart, and neither comes before a full window. */
  lemma RaisesApart(log: seq<Entry>, j: nat, k: nat, size: nat, history: nat)
    requires Raised(log, j, size, history) && Raised(log, k, size, history) && j < k
    ensures k - j >= RAISE_COOLDOWN
    ensures j >= size && j >= RAISE_COOLDOWN && k >= size
  {
    hide After, Gate, LastRaise;
    RaisedAt(log, j, size, history);
    RaisedAt(log, k, size, history);
    var front := log[..k - 1];
    assert front[..j] == log[..j];
    assert front[..j - 1] == log[..j - 1];
    LastRaiseIsLast(front, j, size, history);
  }

  /** Every raise, the first included, comes at a full window and ten outcomes after the last one
      or after the start. */
  lemma RaisedAt(log: seq<Entry>, k: nat, size: nat, history: nat)
    requires Raised(log, k, size, history)
    ensures k >= size && k - LastRaise(log[..k - 1], size, history) >= RAISE_COOLDOWN && k >= RAISE_COOLDOWN
  {
    var front, e := log[..k - 1], log[k - 1];
    assert log[..k] == front + [e];
    assert (front + [e])[..k] == front + [e] && (front + [e])[..k - 1] == front;
    RaisedIff(front, e, size, history);
  }

  // ---- Calibration ----

  const EDGES: seq<real> := [0.0, 60.0, 80.0, 90.0, 95.0, 100.01]

  predicate InBin(o: Outcome, i: nat)
    requires i < 5
  {
    EDGES[i] <= o.confidence < EDGES[i + 1]
  }

  function InBand(rows: seq<Outcome>, i: nat): (s: seq<Outcome>)
    requires i < 5
    ensures |s| <= |rows|
  {
    if rows == [] then []
    else if InBin(rows[0], i) then [rows[0]] + InBand(rows[1..], i)
    else InBand(rows[1..], i)
  }

  datatype Bin = Bin(lo: real, hi: real, count: nat, wins: nat, sufficient: bool)

  function BinOf(rows: seq<Outcome>, i: nat): Bin
    requires i < 5
  {
    Bin(EDGES[i], EDGES[i + 1], |InBand(rows, i)|, Wins(InBand(rows, i)), |InBand(rows, i)| >= MIN_RESOLVED)
  }

  function CountOf(bins: seq<Bin>): nat {
    if bins == [] then 0 else bins[0].count + CountOf(bins[1..])
  }

  function WinsOf(bins: seq<Bin>): nat {
    if bins == [] then 0 else bins[0].wins + WinsOf(bins[1..])
  }

  function Curve(rows: seq<Outcome>): (bins: seq<Bin>)
    ensures |bins| == 5
  {
    [BinOf(rows, 0), BinOf(rows, 1), BinOf(rows, 2), BinOf(rows, 3), BinOf(rows, 4)]
  }

  lemma CurveTotals(rows: seq<Outcome>)
    ensures CountOf(Curve(rows)) == BinOf(rows, 0).count + BinOf(rows, 1).count + BinOf(rows, 2).count +
        BinOf(rows, 3).count + BinOf(rows, 4).count
    ensures WinsOf(Curve(rows)) == BinOf(rows, 0).wins + BinOf(rows, 1).wins + BinOf(rows, 2).wins +
        BinOf(rows, 3).wins + BinOf(rows, 4).wins
  {
    hide BinOf;
    FiveBins(BinOf(rows, 0), BinOf(rows, 1), BinOf(rows, 2), BinOf(rows, 3), BinOf(rows, 4));
  }

  lemma FiveBins(a: Bin, b: Bin, c: Bin, d: Bin, e: Bin)
    ensures CountOf([a, b, c, d, e]) == a.count + b.count + c.count + d.count + e.count
    ensures WinsOf([a, b, c, d, e]) == a.wins + b.wins + c.wins + d.wins + e.wins
  {
    BinsFirst(a, [b, c, d, e]);
    BinsFirst(b, [c, d, e]);
    BinsFirst(c, [d, e]);
    BinsFirst(d, [e]);
    BinsFirst(e, []);
    assert [a] + [b, c, d, e] == [a, b, c, d, e] && [b] + [c, d, e] == [b, c, d, e];
    assert [c] + [d, e] == [c, d, e] && [d] + [e] == [d, e] && [e] + [] == [e];
  }

  lemma BinsFirst(a: Bin, rest: seq<Bin>)
    ensures CountOf([a] + rest) == a.count + CountOf(rest) && WinsOf([a] + rest) == a.wins + WinsOf(rest)
  {
    assert ([a] + rest)[1..] == rest;
  }

  predicate OnScale(o: Outcome) { 0.0 <= o.confidence < 100.01 }

  function Scaled(rows: seq<Outcome>): (s: seq<Outcome>)
    ensures |s| <= |rows|
    ensures |s| == |rows| <==> forall o :: o in rows ==> OnScale(o)
    ensures |s| == |rows| ==> s == rows
  {
    if rows == [] then []
    else if OnScale(rows[0]) then [rows[0]] + Scaled(rows[1..])
    else Scaled(rows[1..])
  }

  lemma EmptyBins()
    ensures Scaled([]) == [] && Wins([]) == 0
    ensures forall i :: 0 <= i < 5 ==> BinOf([], i).count == BinOf([], i).wins == 0
  {
  }

  lemma OneBin(o: Outcome)
    ensures (if OnScale(o) then 1 else 0) == Hit(o, 0) + Hit(o, 1) + Hit(o, 2) + Hit(o, 3) + Hit(o, 4)
  {
  }

  function Hit(o: Outcome, i: nat): nat
    requires i < 5
  {
    if InBin(o, i) then 1 else 0
  }

  function WinOf(o: Outcome): nat {
    if o.verdict.Win? then 1 else 0
  }

  lemma WinsFirst(o: Outcome, rest: seq<Outcome>)
    ensures Wins([o] + rest) == WinOf(o) + Wins(rest)
  {
    assert ([o] + rest)[1..] == rest;
  }

  lemma BandNext(rows: seq<Outcome>, i: nat)
    requires rows != [] && i < 5
    ensures BinOf(rows, i).count == BinOf(rows[1..], i).count + Hit(rows[0], i)
    ensures BinOf(rows, i).wins == BinOf(rows[1..], i).wins + if Hit(rows[0], i) == 1 then WinOf(rows[0]) else 0
  {
    WinsFirst(rows[0], InBand(rows[1..], i));
  }

  /** Each outcome on the scale falls into exactly one bin and every other into none. */
  lemma {:induction false} BinsPartition(rows: seq<Outcome>)
    ensures CountOf(Curve(rows)) == |Scaled(rows)|
    ensures WinsOf(Curve(rows)) == Wins(Scaled(rows))
  {
    hide Wins, InBand, CountOf, WinsOf, Curve, InBin, OnScale;
    CurveTotals(rows);
    if rows == [] {
      EmptyBins();
    } else {
      var o, rest := rows[0], rows[1..];
      CurveTotals(rest);
      BinsPartition(rest);
      BandNext(rows, 0);
      BandNext(rows, 1);
      BandNext(rows, 2);
      BandNext(rows, 3);
      BandNext(rows, 4);
      OneBin(o);
      WinsFirst(o, Scaled(rest));
    }
  }

  /** The bins account for the whole ledger exactly when every confidence is on the scale; then
      their wins add up to the ledger's wins. */
  lemma BinsCoverIff(rows: seq<Outcome>)
    ensures CountOf(Curve(rows)) == |rows| <==> forall o :: o in rows ==> OnScale(o)
    ensures CountOf(Curve(rows)) == |rows| ==> WinsOf(Curve(rows)) == Wins(rows)
  {
    BinsPartition(rows);
  }

  // ---- Factor win rates ----

  datatype Tally = Tally(aligned: nat, wins: nat)

  predicate IsAligned(o: Outcome, f: string) {
    f in o.factors && o.factors[f] >= 0.5
  }

  function Aligned(rows: seq<Outcome>, f: string): seq<Outcome> {
    if rows == [] then []
    else
      var rest := Aligned(rows[..|rows| - 1], f);
      if IsAligned(rows[|rows| - 1], f) then rest + [rows[|rows| - 1]] else rest
  }

  lemma WinsAppend(rows: seq<Outcome>, o: Outcome)
    ensures Wins(rows + [o]) == Wins(rows) + if o.verdict.Win? then 1 else 0
  {
    if rows != [] {
      assert (rows + [o])[1..] == rows[1..] + [o];
      WinsAppend(rows[1..], o);
    }
  }

  lemma Rounding(a: int, n: int, q: int, rem: int)
    requires n > 0 && q == a / n && rem == a % n
    ensures 0 <= rem < n && 2 * a == 2 * n * q + 2 * rem && 2 * n * (q + 1) == 2 * n * q + 2 * n
  {
    var m := n * q;
    assert a == m + rem;
    assert 2 * n * q == 2 * m;
  }

  /** Round to the nearest integer, ties to even. */
  function RoundRatio(a: nat, n: nat): (r: nat)
    requires n > 0
    ensures 2 * a - n <= 2 * n * r <= 2 * a + n
  {
    var q, rem := a / n, a % n;
    Rounding(a, n, q, rem);
    if 2 * rem < n || (2 * rem == n && q % 2 == 0) then q else q + 1
  }

  /** What the report says of one factor: how often it was aligned, and its win rate then. */
  datatype Evidence = Evidence(aligned: nat, rate: Option<int>)

  function EvidenceOf(t: Tally): Evidence {
    Evidence(t.aligned, if t.aligned > 0 then Some(RoundRatio(10000 * t.wins, t.aligned)) else None)
  }

  function TallyOf(rows: seq<Outcome>, f: string): Tally {
    Tally(|Aligned(rows, f)|, Wins(Aligned(rows, f)))
  }

  predicate Mentions(rows: seq<Outcome>, f: string) {
    exists i :: 0 <= i < |rows| && f in rows[i].factors
  }

  /** The per-factor report of one ledger. */
  ghost predicate ReportOf(rows: seq<Outcome>, report: map<string, Evidence>) {
    && (forall f :: f in report <==> Mentions(rows, f))
    && forall f :: f in report ==> report[f] == EvidenceOf(TallyOf(rows, f))
  }

  /** Every reported rate is between 0 and 1, and the wins over the aligned outcomes to the nearest
      ten-thousandth, a tie going to the even one. */
  lemma RateInRange(rows: seq<Outcome>, f: string)
    ensures var e, wins := EvidenceOf(TallyOf(rows, f)), Wins(Aligned(rows, f));
            && (e.aligned > 0 <==> e.rate.Some?) && e.aligned == |Aligned(rows, f)|
            && (e.aligned > 0 ==> 0 <= e.rate.value <= 10000 && Nearest(10000 * wins, e.aligned, e.rate.value))
  {
    hide Aligned, Wins, Nearest, RoundRatio;
    var n, wins := |Aligned(rows, f)|, Wins(Aligned(rows, f));
    if n > 0 {
      RatioBound(10000 * wins, n, 10000);
      RatioNearest(10000 * wins, n);
    }
  }

  /** r is a over n to the nearest integer, a tie going to the even one. */
  ghost predicate Nearest(a: int, n: int, r: int) {
    var twice := 2 * (a - r * n);
    -n <= twice <= n && (twice == n || twice == -n ==> r % 2 == 0)
  }

  lemma RatioNearest(a: nat, n: nat)
    requires n > 0
    ensures Nearest(a, n, RoundRatio(a, n))
  {
    var q, rem := a / n, a % n;
    var m := q * n;
    assert a == m + rem;
    assert (q + 1) * n == m + n;
  }

  lemma RatioBound(a: nat, n: nat, top: nat)
    requires n > 0 && a <= top * n
    ensures RoundRatio(a, n) <= top
  {
    var r := RoundRatio(a, n);
    var b := 2 * n * r;
    assert b <= 2 * a + n;
    TopBound(n, r, top);
  }

  lemma TopBound(n: nat, r: nat, top: nat)
    requires n > 0 && 2 * n * r <= 2 * (top * n) + n
    ensures r <= top
  {
    if r > top {
      MulLe(2 * n, top + 1, r);
      assert false;
    }
  }

  lemma MulLe(n: nat, x: nat, y: nat)
    requires x <= y
    ensures n * x <= n * y
  {
    assert n * y == n * x + n * (y - x);
  }

  /** Tallies of the rows so far, where the last row has been counted for the factors in done. */
  ghost predicate Counted(rows: seq<Outcome>, last: Outcome, done: set<string>, buckets: map<string, Tally>) {
    && (forall f :: f in buckets <==> Mentions(rows, f) || f in done)
    && forall f :: f in buckets ==> buckets[f] == TallyOf(if f in done then rows + [last] else rows, f)
  }

  class AccuracyTracker {
    const windowSize: nat
    const classHistorySize: nat
    var outcomes: seq<Outcome>
    var classOutcomes: map<AssetClass, seq<Outcome>>
    var gateOverride: Option<int>
    var outcomesSinceRaise: nat
    ghost var log: seq<Entry>

    ghost function View(): Watch
      reads this
    {
      Watch(outcomes, classOutcomes, gateOverride, outcomesSinceRaise)
    }

    ghost predicate Valid()
      reads this
    {
      View() == After(log, windowSize, classHistorySize)
    }

    constructor (windowSize: nat, classHistorySize: nat)
      ensures Valid() && log == []
      ensures this.windowSize == windowSize && this.classHistorySize == classHistorySize
    {
      this.windowSize, this.classHistorySize := windowSize, classHistorySize;
      outcomes, gateOverride, outcomesSinceRaise := [], None, 0;
      classOutcomes := map[Otc := [], Real := [], Crypto := []];
      log := [];
    }

    method RecordOutcome(given: string, ofSymbol: AssetClass, outcome: Outcome)
      requires Valid()
      modifies this
      ensures Valid()
      ensures log == old(log) + [Entry(LedgerFor(given, ofSymbol), outcome)]
    {
      hide AutoRaise, Push, LedgerFor, After;
      var resolved := LedgerFor(given, ofSymbol);
      ghost var e := Entry(resolved, outcome);
      AfterStep(log, e, windowSize, classHistorySize);
      outcomes := Push(outcomes, outcome, windowSize);
      classOutcomes := classOutcomes[resolved := Push(classOutcomes[resolved], outcome, classHistorySize)];
      outcomesSinceRaise := outcomesSinceRaise + 1;
      MaybeAutoRaise();
      log := log + [e];
    }

    method MaybeAutoRaise()
      modifies this`gateOverride, this`outcomesSinceRaise
      ensures View() == AutoRaise(old(View()), windowSize)
    {
      if |outcomes| < windowSize {
        return;
      }
      if outcomesSinceRaise < RAISE_COOLDOWN {
        return;
      }
      if !Sinking(outcomes) {
        return;
      }
      var current := CurrentHardGate();
      var raised := if current + GATE_STEP < MAX_GATE then current + GATE_STEP else MAX_GATE;
      if raised > current {
        gateOverride := Some(raised);
        outcomesSinceRaise := 0;
      }
    }

    function CurrentHardGate(): int
      reads this
    {
      if gateOverride.Some? then gateOverride.value else HARD_GATE
    }

    /** A ledger by name; a name that is no class has none. */
    function ClassHistory(name: string): seq<Outcome>
      requires Valid()
      reads this
    {
      match ClassNamed(Upper(name)) case Some(c) => classOutcomes[c] case None => []
    }

    /** The reliability curve of one class. */
    method CalibrationCurve(name: string) returns (bins: seq<Bin>)
      requires Valid()
      ensures bins == Curve(ClassHistory(name))
    {
      var rows := ClassHistory(name);
      bins := [];
      for i := 0 to 5
        invariant |bins| == i
        invariant forall k :: 0 <= k < i ==> bins[k] == BinOf(rows, k)
      {
        bins := bins + [BinOf(rows, i)];
      }
      assert bins == Curve(rows);
    }

    /** The win rates of one class's factors, counted over the outcomes where each was aligned. */
    method FactorWinRates(c: AssetClass) returns (report: map<string, Evidence>)
      requires Valid()
      ensures ReportOf(NewestFirst(OfClass(log, c), classHistorySize), report)
    {
      hide Counted, ReportOf;
      LedgersAreNewest(log, windowSize, classHistorySize);
      var rows := classOutcomes[c];
      var buckets: map<string, Tally> := map[];
      NothingCounted();
      for i := 0 to |rows|
        invariant Counted(rows[..i], NO_ROW, {}, buckets)
      {
        var next := rows[..i + 1];
        assert next == rows[..i] + [rows[i]];
        buckets := CountRow(rows[..i], rows[i], buckets);
      }
      assert rows[..|rows|] == rows;
      report := map f | f in buckets :: EvidenceOf(buckets[f]);
      AllCounted(rows, buckets, report);
    }
  }

  const NO_ROW: Outcome := Outcome(Other, 0.0, map[])

  lemma NothingCounted()
    ensures Counted([], NO_ROW, {}, map[])
  {
  }

  lemma AllCounted(rows: seq<Outcome>, buckets: map<string, Tally>, report: map<string, Evidence>)
    requires Counted(rows, NO_ROW, {}, buckets)
    requires report == map f | f in buckets :: EvidenceOf(buckets[f])
    ensures ReportOf(rows, report)
  {
  }

  /** One more row: each of its factors is counted once, in any order. */
  method CountRow(ghost rows: seq<Outcome>, o: Outcome, before: map<string, Tally>)
      returns (buckets: map<string, Tally>)
    requires Counted(rows, NO_ROW, {}, before)
    ensures Counted(rows + [o], NO_ROW, {}, buckets)
  {
    hide Counted;
    buckets := before;
    var rest := o.factors.Keys;
    NoneDone(rows, o, buckets);
    assert o.factors.Keys - rest == {};
    while rest != {}
      invariant rest <= o.factors.Keys
      invariant Counted(rows, o, o.factors.Keys - rest, buckets)
      decreases |rest|
    {
      var f :| f in rest;
      buckets := CountFactor(rows, o, o.factors.Keys - rest, buckets, f);
      assert o.factors.Keys - (rest - {f}) == o.factors.Keys - rest + {f};
      rest := rest - {f};
    }
    assert o.factors.Keys - rest == o.factors.Keys;
    RowDone(rows, o, buckets);
  }

  method CountFactor(ghost rows: seq<Outcome>, o: Outcome, ghost done: set<string>, before: map<string, Tally>,
      f: string)
    returns (buckets: map<string, Tally>)
    requires Counted(rows, o, done, before) && f in o.factors && f !in done
    ensures Counted(rows, o, done + {f}, buckets)
  {
    hide Counted;
    CountOne(rows, o, done, before, f);
    var b := if f in before then before[f] else Tally(0, 0);
    if o.factors[f] >= 0.5 {
      b := Tally(b.aligned + 1, b.wins + if o.verdict.Win? then 1 else 0);
    }
    buckets := before[f := b];
  }

  lemma NoneDone(rows: seq<Outcome>, o: Outcome, buckets: map<string, Tally>)
    requires Counted(rows, NO_ROW, {}, buckets)
    ensures Counted(rows, o, {}, buckets)
  {
  }

  lemma Unmentioned(rows: seq<Outcome>, f: string)
    requires !Mentions(rows, f)
    ensures Aligned(rows, f) == []
  {
    if rows != [] {
      var front := rows[..|rows| - 1];
      assert !Mentions(front, f) by {
        if i :| 0 <= i < |front| && f in front[i].factors {
          assert f in rows[i].factors;
        }
      }
      Unmentioned(front, f);
    }
  }

  lemma TallyNext(rows: seq<Outcome>, o: Outcome, f: string)
    ensures var t := TallyOf(rows, f);
            TallyOf(rows + [o], f) ==
              if IsAligned(o, f) then Tally(t.aligned + 1, t.wins + if o.verdict.Win? then 1 else 0) else t
  {
    assert (rows + [o])[..|rows|] == rows;
    WinsAppend(Aligned(rows, f), o);
  }

  /** Counting one more factor of the last row. */
  lemma CountOne(rows: seq<Outcome>, o: Outcome, done: set<string>, buckets: map<string, Tally>, f: string)
    requires Counted(rows, o, done, buckets) && f in o.factors && f !in done
    ensures var b := if f in buckets then buckets[f] else Tally(0, 0);
            var b' := if o.factors[f] >= 0.5 then Tally(b.aligned + 1, b.wins + if o.verdict.Win? then 1 else 0) else b;
            Counted(rows, o, done + {f}, buckets[f := b'])
  {
    TallyNext(rows, o, f);
    if f !in buckets {
      Unmentioned(rows, f);
    }
  }

  lemma RowDone(rows: seq<Outcome>, o: Outcome, buckets: map<string, Tally>)
    requires Counted(rows, o, o.factors.Keys, buckets)
    ensures Counted(rows + [o], NO_ROW, {}, buckets)
  {
    forall f
      ensures Mentions(rows + [o], f) <==> Mentions(rows, f) || f in o.factors
    {
      MentionsNext(rows, o, f);
    }
    forall f | f in buckets
      ensures buckets[f] == TallyOf(rows + [o], f)
    {
      TallyNext(rows, o, f);
    }
  }

  lemma MentionsNext(rows: seq<Outcome>, o: Outcome, f: string)
    ensures Mentions(rows + [o], f) <==> Mentions(rows, f) || f in o.factors
  {
    var all := rows + [o];
    if Mentions(rows, f) {
      var i :| 0 <= i < |rows| && f in rows[i].factors;
      assert f in all[i].factors;
    }
    if f in o.factors {
      assert f in all[|rows|].factors;
    }
  }
}
