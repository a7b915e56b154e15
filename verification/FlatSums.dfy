/** Entries of flat arrays, and finite sums over an index. */
module FlatSums {

  function Get(s: seq<real>, e: int): real {
    if 0 <= e < |s| then s[e] else 0.0
  }

  /** An entry of a part of a part. */
  lemma GetSlice(s: seq<real>, at: nat, n: nat, a: nat, b: nat, e: nat)
    requires at + n <= |s| && a + e < b <= n
    ensures s[at..at + n][a..b][e] == Get(s, at + a + e)
  {
    assert s[at..at + n][a + e] == s[at + (a + e)];
  }

  /** f(0) + ... + f(n - 1). */
  function Sum(n: nat, f: int -> real): real {
    if n == 0 then 0.0 else Sum(n - 1, f) + f(n - 1)
  }

  lemma {:induction false} SumSame(n: nat, f: int -> real, g: int -> real)
    requires forall i :: 0 <= i < n ==> f(i) == g(i)
    ensures Sum(n, f) == Sum(n, g)
  {
    if n > 0 { SumSame(n - 1, f, g); }
  }
}
