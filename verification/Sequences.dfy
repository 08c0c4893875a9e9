/** Facts about concatenation and slicing, for use where the solver should not look for them. */
module Sequences {
  lemma {:induction false} Associate<T>(x: seq<T>, y: seq<T>, z: seq<T>)
    ensures x + (y + z) == (x + y) + z
  {
  }

  // A concatenation cut between its parts.
  lemma {:induction false} Cut<T>(x: seq<T>, y: seq<T>)
    ensures (x + y)[..|x|] == x && (x + y)[|x|..] == y
  {
  }

  lemma {:induction false} Split<T>(s: seq<T>, n: nat)
    requires n <= |s|
    ensures s == s[..n] + s[n..]
  {
  }

  // The head and tail of a concatenation.
  lemma {:induction false} ConcatHead<T>(x: seq<T>, y: seq<T>)
    requires x != []
    ensures x + y != [] && (x + y)[0] == x[0] && (x + y)[1..] == x[1..] + y
  {
  }

  // A slice of a slice.
  lemma {:induction false} SliceFurther<T>(s: seq<T>, n: nat, m: nat)
    requires n + m <= |s|
    ensures s[n..][m..] == s[n + m..] && s[..n + m] == s[..n] + s[n..][..m]
  {
  }

  // The tail of a prefix, and what follows it.
  lemma {:induction false} TailOfPrefix<T>(s: seq<T>, k: nat)
    requires 0 < k <= |s|
    ensures s[1..][..k - 1] == s[..k][1..] && s[1..][k - 1..] == s[k..]
  {
  }
}
