/** Optional values and fallible results, shared by every module. */
module Wrappers {

  datatype Option<+T> = None | Some(value: T)

  /** The shape of the source's `Result`, usable with `:-`. */
  datatype Result<+T, +E> = Ok(value: T) | Err(error: E) {
    predicate IsFailure() { Err? }

    function PropagateFailure<U>(): Result<U, E>
      requires Err?
    {
      Err(error)
    }

    function Extract(): T
      requires Ok?
    {
      value
    }
  }

  function Min(a: int, b: int): int { if a <= b then a else b }

  function Max(a: int, b: int): int { if a <= b then b else a }

  /** What is left of a list after its first `n` elements. */
  function Skip<T>(s: seq<T>, n: nat): seq<T> { if n >= |s| then [] else s[n..] }

  /** Concatenation is associative. */
  lemma Associate<T>(a: seq<T>, b: seq<T>, c: seq<T>)
    ensures a + (b + c) == (a + b) + c
  {
  }

  /** Slices of a slice are slices. */
  lemma SliceTwice<T>(s: seq<T>, from: nat, n: nat)
    requires from + n <= |s|
    ensures s[..from + n] == s[..from] + s[from..][..n]
    ensures s[from + n..] == s[from..][n..]
  {
  }
}
