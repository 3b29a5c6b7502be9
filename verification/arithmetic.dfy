/** Real numbers and optional values. A product has a name here, so that a proof can treat it as one term: its laws are
    called where they are needed, and elsewhere the solver never multiplies two unknowns. The laws are those of order,
    of sums and of sign; the lesser and the greater of two numbers are those of the source's `min` and `max`. */
module Arithmetic {
  datatype Option<T> = None | Some(value: T)

  function Min(a: real, b: real): real { if a <= b then a else b }

  function Max(a: real, b: real): real { if a >= b then a else b }

  function Times(x: real, y: real): real { x * y }

  lemma TimesMono(x: real, p: real, q: real)
    requires p <= q
    ensures x >= 0.0 ==> Times(x, p) <= Times(x, q) && Times(p, x) <= Times(q, x)
    ensures x <= 0.0 ==> Times(x, p) >= Times(x, q) && Times(p, x) >= Times(q, x)
    ensures Times(x, 0.0) == 0.0 == Times(0.0, x)
  {
  }

  lemma TimesSplit(x: real, y: real, p: real)
    ensures Times(x + y, p) == Times(x, p) + Times(y, p)
    ensures Times(0.0, p) == 0.0
  {
  }

  lemma TimesNegate(x: real, p: real)
    ensures Times(x, -p) == -Times(x, p)
  {
  }
}
