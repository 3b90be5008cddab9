/** Failure-carrying results and the few sequence functions the whole project shares. */
module Prelude {

  datatype Option<+T> = None | Some(value: T)

  datatype Result<+T, +E> = Ok(value: T) | Err(error: E)

  /** 1, 2, ..., n: Python's `list(range(1, n + 1))`. */
  function CountingUp(n: nat): (r: seq<int>)
    ensures |r| == n && forall i :: 0 <= i < n ==> r[i] == i + 1
  {
    seq(n, i requires 0 <= i => i + 1)
  }

  function InsertBy<T>(x: T, xs: seq<T>, key: T -> int): seq<T> {
    if xs == [] || key(x) <= key(xs[0]) then [x] + xs else [xs[0]] + InsertBy(x, xs[1..], key)
  }

  /** SQL's ORDER BY on one integer column. */
  function SortBy<T>(xs: seq<T>, key: T -> int): seq<T> {
    if xs == [] then [] else InsertBy(xs[0], SortBy(xs[1..], key), key)
  }

  ghost predicate Ascending<T>(xs: seq<T>, key: T -> int) {
    forall i, j :: 0 <= i < j < |xs| ==> key(xs[i]) <= key(xs[j])
  }

  lemma {:induction false} SortKeepsAscending<T>(xs: seq<T>, key: T -> int)
    requires Ascending(xs, key)
    ensures SortBy(xs, key) == xs
  {
    if xs != [] {
      SortKeepsAscending(xs[1..], key);
      assert xs == [xs[0]] + xs[1..];
    }
  }

  /** Text that `required` accepts: at most 8192 characters, not all of them blank. */
  predicate Required(text: string) {
    |text| <= 8192 && exists i :: 0 <= i < |text| && text[i] !in {' ', '\t', '\n', '\r'}
  }
}
