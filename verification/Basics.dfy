/** What several modules share: optional values, and concatenation regrouped. */
module Basics {
  datatype Option<+T> = None | Some(value: T)

  /** Concatenation associates; the solver needs to be told. */
  lemma Regroup<T>(a: seq<T>, b: seq<T>, c: seq<T>)
    ensures a + (b + c) == (a + b) + c
  {
  }

  lemma RegroupAll<T>(a: seq<T>, b: seq<T>, c: seq<T>, d: seq<T>, e: seq<T>)
    ensures a + (b + (c + (d + e))) == a + b + c + d + e
  {
    Regroup(a, b, c + (d + e));
    Regroup(a + b, c, d + e);
    Regroup(a + b + c, d, e);
  }
}
