/** The optional value used for JavaScript's `null` / `undefined`, and the
    subsequence order that filtering a list keeps. */
module Wrappers {

  datatype Option<+T> = None | Some(value: T) {

    /** `value ?? fallback` */
    function GetOr(fallback: T): T {
      match this
      case Some(v) => v
      case None => fallback
    }
  }

  /** `a` is `b` with some elements left out, the rest in their order. */
  predicate SubsequenceOf<T(==)>(a: seq<T>, b: seq<T>)
    decreases |b|
  {
    |a| == 0 || (|b| > 0 && ((a[0] == b[0] && SubsequenceOf(a[1..], b[1..])) || SubsequenceOf(a, b[1..])))
  }

  lemma {:induction false} SubsequenceOfItself<T>(a: seq<T>)
    ensures SubsequenceOf(a, a)
  {
    if |a| > 0 {
      SubsequenceOfItself(a[1..]);
    }
  }
}
