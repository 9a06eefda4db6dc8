/** Products of reals under a name of their own, so that proofs can treat them as single quantities. */
module Reals {

  function Times(x: real, y: real): real { x * y }

  lemma TimesMore(a: real, b: real, w: real)
    requires a <= b && w >= 0.0
    ensures Times(a, w) <= Times(b, w) && Times(w, a) <= Times(w, b)
  {
    assert (b - a) * w >= 0.0;
  }

  lemma TimesLess(a: real, b: real, w: real)
    requires w > 0.0 && Times(a, w) < Times(b, w)
    ensures a < b
  {
    if a >= b { TimesMore(b, a, w); }
  }

  lemma TimesAssociates(a: real, b: real, c: real)
    ensures Times(a, Times(b, c)) == Times(Times(a, b), c)
  {
  }

  lemma TimesMinus(a: real, b: real, w: real)
    ensures Times(a - b, w) == Times(a, w) - Times(b, w) && Times(-a, w) == -Times(a, w) && Times(1.0, w) == w
    ensures Times(0.0, w) == 0.0
  {
  }

  lemma TimesPositive(a: real, b: real)
    requires a > 0.0 && b > 0.0
    ensures Times(a, b) > 0.0
  {
  }

  lemma TimesWhole(a: int, b: int)
    ensures Times(a as real, b as real) == (a * b) as real
  {
  }

  lemma TimesQuotient(a: real, w: real)
    requires w > 0.0
    ensures Times(a / w, w) == a
  {
  }

  lemma TimesSigns(a: real, b: real)
    ensures Times(-a, b) == -Times(a, b) && Times(a, -b) == -Times(a, b) && Times(-a, -b) == Times(a, b)
  {
  }

  lemma TimesStrict(a: real, b: real, w: real)
    requires a < b && w > 0.0
    ensures Times(a, w) < Times(b, w)
  {
    hide Times;
    TimesPositive(b - a, w);
    TimesMinus(b, a, w);
  }

  lemma TimesCommutes(a: real, b: real)
    ensures Times(a, b) == Times(b, a)
  {
  }

  lemma TimesSwap(a: real, b: real, c: real)
    ensures Times(a, Times(b, c)) == Times(b, Times(a, c))
  {
  }
}
