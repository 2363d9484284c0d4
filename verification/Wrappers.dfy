// Optional values, results that carry an error instead of raising it, and small common notions.
module Wrappers {
  datatype Option<+T> = None | Some(value: T)

  datatype Result<+T, +E> = Success(value: T) | Failure(error: E)

  predicate Distinct<T(==)>(s: seq<T>) { forall i, k | 0 <= i < k < |s| :: s[i] != s[k] }

  function Max(a: int, b: int): int { if a >= b then a else b }

  /** Strings in the order of their characters, the shorter first. */
  predicate StringBefore(a: string, b: string) {
    if b == "" then false
    else if a == "" then true
    else a[0] < b[0] || (a[0] == b[0] && StringBefore(a[1..], b[1..]))
  }

  lemma {:induction false} StringsCompare(a: string, b: string)
    ensures !(StringBefore(a, b) && StringBefore(b, a))
    ensures a == b || StringBefore(a, b) || StringBefore(b, a)
  {
    if a != "" && b != "" && a[0] == b[0] {
      StringsCompare(a[1..], b[1..]);
      assert a == [a[0]] + a[1..] && b == [b[0]] + b[1..];
    }
  }
}
