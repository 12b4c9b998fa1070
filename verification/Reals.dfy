/** Real arithmetic with the products kept apart, and sums over lists of keys. */
module Reals {
  function Max(x: real, y: real): real { if x >= y then x else y }

  function Min(x: real, y: real): real { if x <= y then x else y }

  function Abs(x: real): real { if x >= 0.0 then x else -x }

  // ---- Products ----

  function Times(x: real, y: real): real { x * y }

  lemma TimesPositive(x: real, y: real)
    requires x > 0.0 && y > 0.0
    ensures Times(x, y) > 0.0
  {
  }

  lemma TimesMinus(c: real, x: real, y: real)
    ensures Times(c, x - y) == Times(c, x) - Times(c, y)
  {
  }

  lemma TimesPlus(c: real, x: real, y: real)
    ensures Times(c, x + y) == Times(c, x) + Times(c, y)
  {
  }

  lemma TimesSwap(x: real, y: real)
    ensures Times(x, y) == Times(y, x)
  {
  }

  lemma TimesGroup(x: real, y: real, z: real)
    ensures Times(x, Times(y, z)) == Times(Times(x, y), z)
  {
  }

  lemma TimesOne(x: real)
    ensures Times(x, 1.0) == x == Times(1.0, x) && Times(x, 0.0) == 0.0 == Times(0.0, x)
  {
  }

  lemma TimesLt(c: real, x: real, y: real)
    requires c > 0.0 && x < y
    ensures Times(c, x) < Times(c, y)
  {
    hide Times;
    TimesMinus(c, y, x);
    TimesPositive(c, y - x);
  }

  lemma TimesCancel(c: real, x: real, y: real)
    requires c > 0.0 && Times(c, x) == Times(c, y)
    ensures x == y
  {
    hide Times;
    if x < y {
      TimesLt(c, x, y);
    } else if y < x {
      TimesLt(c, y, x);
    }
  }

  lemma Exchange(p: real, s: real, u: real)
    ensures Times(p, Times(s, u)) == Times(s, Times(p, u))
  {
  }

  lemma PlusTimes(x: real, y: real, k: real)
    ensures Times(x + y, k) == Times(x, k) + Times(y, k)
  {
  }

  lemma MinusTimes(x: real, y: real, k: real)
    ensures Times(x - y, k) == Times(x, k) - Times(y, k)
    ensures Times(k, x - y) == Times(k, x) - Times(k, y)
  {
  }

  lemma TimesNonNegative(x: real, y: real)
    requires x >= 0.0 && y >= 0.0
    ensures Times(x, y) >= 0.0
  {
  }

  lemma TimesLinear(x: real)
    ensures Times(x, 0.75) == 0.75 * x && Times(x, 1.25) == 1.25 * x && Times(x, 0.8) == 0.8 * x
    ensures Times(x, 4.0 / 3.0) == 4.0 / 3.0 * x && Times(x, 0.15) == 0.15 * x
  {
  }

  /** The product grows with its second factor. */
  lemma Widen(x: real, lo: real, hi: real)
    requires x >= 0.0 && lo <= hi
    ensures Times(x, lo) <= Times(x, hi)
    ensures Times(lo, x) <= Times(hi, x)
  {
    hide Times;
    MinusTimes(hi, lo, x);
    TimesNonNegative(x, hi - lo);
    TimesSwap(x, hi - lo);
  }

  lemma Divided(x: real, y: real)
    requires y > 0.0
    ensures x / y == Times(x, 1.0 / y) && Times(y, x / y) == x && Times(x / y, y) == x && 1.0 / y > 0.0
  {
  }

  // ---- Sums ----

  function Total<K(==)>(fs: seq<K>, m: map<K, real>): real
    requires forall f :: f in fs ==> f in m
  {
    if fs == [] then 0.0 else m[fs[0]] + Total(fs[1..], m)
  }

  lemma {:induction false} TotalScaled<K>(fs: seq<K>, m: map<K, real>, k: real, n: map<K, real>)
    requires forall f :: f in fs ==> f in m && f in n && n[f] == Times(m[f], k)
    ensures Total(fs, n) == Times(Total(fs, m), k)
  {
    hide Times;
    if fs == [] {
      TimesOne(k);
    } else {
      TotalScaled(fs[1..], m, k, n);
      PlusTimes(m[fs[0]], Total(fs[1..], m), k);
    }
  }

  lemma {:induction false} TotalMonotone<K>(fs: seq<K>, m: map<K, real>, n: map<K, real>)
    requires forall f :: f in fs ==> f in m && f in n && m[f] <= n[f]
    ensures Total(fs, m) <= Total(fs, n)
  {
    if fs != [] {
      TotalMonotone(fs[1..], m, n);
    }
  }

  lemma {:induction false} TotalPositive<K>(fs: seq<K>, m: map<K, real>)
    requires forall f :: f in fs ==> f in m && m[f] >= 0.0
    ensures Total(fs, m) >= 0.0
    ensures forall f :: f in fs ==> Total(fs, m) >= m[f]
  {
    if fs != [] {
      TotalPositive(fs[1..], m);
    }
  }

  lemma {:induction false} TotalAgrees<K>(fs: seq<K>, m: map<K, real>, n: map<K, real>)
    requires forall f :: f in fs ==> f in m && f in n && m[f] == n[f]
    ensures Total(fs, m) == Total(fs, n)
  {
    if fs != [] {
      TotalAgrees(fs[1..], m, n);
    }
  }
}
