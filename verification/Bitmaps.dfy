/** Counting and runs in sequences of flags, shared by the two frame allocators. */
module Bitmaps {

  /** How many flags of `s` are `v`. */
  function Count(s: seq<bool>, v: bool): (n: nat)
    ensures n <= |s|
  {
    if s == [] then 0 else (if s[0] == v then 1 else 0) + Count(s[1..], v)
  }

  lemma {:induction false} CountConcat(a: seq<bool>, b: seq<bool>, v: bool)
    ensures Count(a + b, v) == Count(a, v) + Count(b, v)
  {
    if a == [] {
      assert a + b == b;
    } else {
      assert (a + b)[1..] == a[1..] + b;
      CountConcat(a[1..], b, v);
    }
  }

  lemma {:induction false} CountAll(s: seq<bool>, v: bool)
    requires forall i :: 0 <= i < |s| ==> s[i] == v
    ensures Count(s, v) == |s| && Count(s, !v) == 0
  {
    if s != [] {
      CountAll(s[1..], v);
    }
  }

  /** Some flag is `v` exactly when the count is not zero. */
  lemma {:induction false} CountZero(s: seq<bool>, v: bool)
    ensures Count(s, v) == 0 <==> forall i :: 0 <= i < |s| ==> s[i] != v
  {
    if s != [] {
      CountZero(s[1..], v);
      assert forall i :: 0 < i < |s| ==> s[i] == s[1..][i - 1];
    }
  }

  /** All flags of [f, f + n) are `v`. */
  predicate Run(s: seq<bool>, f: nat, n: nat, v: bool) {
    f + n <= |s| && forall i :: f <= i < f + n ==> s[i] == v
  }

  /** `s` with [f, f + n) set to `v`. */
  function Fill(s: seq<bool>, f: nat, n: nat, v: bool): (r: seq<bool>)
    requires f + n <= |s|
    ensures |r| == |s| && forall i :: 0 <= i < |s| ==> r[i] == if f <= i < f + n then v else s[i]
  {
    s[..f] + seq(n, _ => v) + s[f + n..]
  }

  /** Turning a run over moves its length from one count to the other. */
  lemma CountFill(s: seq<bool>, f: nat, n: nat, v: bool)
    requires Run(s, f, n, !v)
    ensures Count(Fill(s, f, n, v), !v) == Count(s, !v) - n
    ensures Count(Fill(s, f, n, v), v) == Count(s, v) + n
  {
    var a, m, m', b := s[..f], s[f..f + n], seq(n, _ => v), s[f + n..];
    assert s == a + m + b;
    forall u: bool
      ensures Count(s, u) == Count(a, u) + Count(m, u) + Count(b, u)
      ensures Count(Fill(s, f, n, v), u) == Count(a, u) + Count(m', u) + Count(b, u)
    {
      CountConcat(a + m, b, u);
      CountConcat(a, m, u);
      CountConcat(a + m', b, u);
      CountConcat(a, m', u);
    }
    CountAll(m, !v);
    CountAll(m', v);
  }

  /** A run of `n` needs `n` flags. */
  lemma RunCounts(s: seq<bool>, f: nat, n: nat, v: bool)
    requires Run(s, f, n, v)
    ensures n <= Count(s, v)
  {
    CountFill(s, f, n, !v);
  }

  /** The lowest run of `n` flags `v` that starts at `from` or later, or -1. */
  function LowestRun(s: seq<bool>, n: nat, v: bool, from: nat := 0): (r: int)
    ensures r >= 0 ==> from <= r && Run(s, r, n, v) && forall g :: from <= g < r ==> !Run(s, g, n, v)
    ensures r < 0 ==> forall g :: from <= g ==> !Run(s, g, n, v)
    decreases |s| - from
  {
    if from + n > |s| then -1
    else if Run(s, from, n, v) then from
    else LowestRun(s, n, v, from + 1)
  }
}
