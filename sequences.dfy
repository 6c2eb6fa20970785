/** Order-keeping selection from a sequence, the shape of JavaScript's `filter`. */
module Sequences {

  /** `a` is `b` with some elements dropped, order kept. */
  ghost predicate SubsequenceOf<T>(a: seq<T>, b: seq<T>)
    decreases |b|
  {
    if a == [] then true
    else if b == [] then false
    else (a[0] == b[0] && SubsequenceOf(a[1..], b[1..])) || SubsequenceOf(a, b[1..])
  }
}
