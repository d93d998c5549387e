// Types shared by the other modules: a value that may be missing, a result that may be
// an error, and what may become of one effect.
module Wrappers {
  datatype Option<+T> = None | Some(value: T)

  datatype Result<+T, +E> = Ok(value: T) | Err(error: E)

  // What the environment makes of one effect of a transaction (a rename, a
  // durable write, a tree removal): it succeeds, it raises, or the process dies
  // just before it.
  datatype Fate = Works | Raises | Dies

  function Max(a: int, b: int): int { if a < b then b else a }

  function Min(a: int, b: int): int { if a < b then a else b }

  function Abs(a: int): int { if a < 0 then -a else a }

  // The set of the elements of a duplicate-free sequence is as large as the
  // sequence is long.
  lemma {:induction false} DistinctSize<T>(s: seq<T>)
    requires forall i, j :: 0 <= i < j < |s| ==> s[i] != s[j]
    ensures |(set x | x in s)| == |s|
  {
    if s != [] {
      var front, last := s[..|s| - 1], s[|s| - 1];
      DistinctSize(front);
      assert (set x | x in s) == (set x | x in front) + {last};
    }
  }
}
