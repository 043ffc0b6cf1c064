/** Distances stored in the bins of a laser scan, with +infinity as "no return". */
module Ranges {

  /** One bin of a scan: a finite distance, or +infinity (no return observed). */
  datatype Range = Inf | Fin(r: real)

  /** `a` is at least as close as `b`; +infinity is the farthest value. */
  predicate Le(a: Range, b: Range) {
    match b
    case Inf => true
    case Fin(y) => a.Fin? && a.r <= y
  }

  /** The closer of two ranges. */
  function Min(a: Range, b: Range): (m: Range)
    ensures Le(m, a) && Le(m, b)
    ensures m == a || m == b
  {
    if Le(a, b) then a else b
  }

  /** The comparison `stored > range` of a bin against a finite distance. */
  predicate Exceeds(stored: Range, x: real)
    ensures Exceeds(stored, x) <==> !Le(stored, Fin(x))
  {
    match stored
    case Inf => true
    case Fin(y) => y > x
  }

  /**
   * A bin after the closest-wins update: it takes the distance `x` only when
   * it holds something farther. This is the minimum of the two.
   */
  function Closest(stored: Range, x: real): (m: Range)
    ensures m == Min(stored, Fin(x))
  {
    if Exceeds(stored, x) then Fin(x) else stored
  }

  lemma LeTransitive(a: Range, b: Range, c: Range)
    requires Le(a, b) && Le(b, c)
    ensures Le(a, c)
  {
  }

  /** Closest-wins updates with two distances can be applied in either order. */
  lemma ClosestCommutes(stored: Range, x: real, y: real)
    ensures Closest(Closest(stored, x), y) == Closest(Closest(stored, y), x)
    ensures Closest(Closest(stored, x), x) == Closest(stored, x)
  {
  }
}
