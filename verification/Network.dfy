/** Two-layer fixed-point networks: what a forward pass computes, and why no partial sum of
    it leaves 32 bits. */
module Network {
  import opened FixedPoint

  datatype Net = Net(w1: seq<seq<i32>>, b1: seq<i32>, w2: seq<seq<i32>>, b2: seq<i32>)

  /** A bias plus the first `n` products, added in the order of the loop. */
  function Affine(b: int, w: seq<int>, x: seq<int>, n: nat): int
    requires n <= |w| && n <= |x|
  {
    if n == 0 then b else Affine(b, w, x, n - 1) + Mul(w[n - 1], x[n - 1])
  }

  /** The sum of the weights' magnitudes. */
  function Norm(w: seq<int>, n: nat): nat
    requires n <= |w|
  {
    if n == 0 then 0 else Norm(w, n - 1) + Abs(w[n - 1])
  }

  /** Every value is within `k` units of zero. */
  ghost predicate Within(x: seq<int>, k: nat) {
    forall j :: 0 <= j < |x| ==> Abs(x[j]) <= k * 65536
  }

  lemma {:induction false} NormMonotone(w: seq<int>, n: nat)
    requires n <= |w|
    ensures Norm(w, n) <= Norm(w, |w|)
    decreases |w| - n
  {
    if n < |w| {
      NormMonotone(w, n + 1);
    }
  }

  lemma Distribute(k: int, a: int, b: int)
    ensures k * (a + b) == k * a + k * b
  {
  }

  /** Every partial sum is bounded by the bias and the weights alone. */
  lemma {:induction false} AffineBound(b: int, w: seq<int>, x: seq<int>, n: nat, k: nat)
    requires n <= |w| <= |x| && Within(x, k)
    ensures Abs(Affine(b, w, x, n)) <= Abs(b) + k * Norm(w, n)
  {
    hide Mul;
    if n > 0 {
      AffineBound(b, w, x, n - 1, k);
      MulBound(w[n - 1], x[n - 1], k);
      Distribute(k, Norm(w, n - 1), Abs(w[n - 1]));
    }
  }

  /** The largest magnitude that a sum over inputs within `k` units can reach. */
  function Reach(b: int, w: seq<int>, k: nat): nat {
    Abs(b) + k * Norm(w, |w|)
  }

  lemma PartialSum(b: int, w: seq<int>, x: seq<int>, n: nat, k: nat)
    requires n <= |w| <= |x| && Within(x, k)
    ensures Abs(Affine(b, w, x, n)) <= Reach(b, w, k)
  {
    AffineBound(b, w, x, n, k);
    NormMonotone(w, n);
    Scale(Norm(w, n), Norm(w, |w|), k);
  }

  lemma OneProduct(b: int, w: seq<int>, x: seq<int>, n: nat, k: nat)
    requires n < |w| <= |x| && Within(x, k)
    ensures Abs(Mul(w[n], x[n])) <= Reach(b, w, k)
  {
    MulBound(w[n], x[n], k);
    NormMonotone(w, n + 1);
    Scale(Abs(w[n]), Norm(w, |w|), k);
  }

  predicate Shape(net: Net, inputs: nat) {
    && |net.b1| == |net.w1| && |net.b2| == |net.w2|
    && (forall i :: 0 <= i < |net.w1| ==> |net.w1[i]| == inputs)
    && (forall j :: 0 <= j < |net.w2| ==> |net.w2[j]| == |net.w1|)
  }

  /** A condition on the weights alone: hidden sums over inputs within `k` units leave room
      for the denominator of the activation. */
  ghost predicate Bounded(net: Net, inputs: nat, k: nat) {
    && Shape(net, inputs)
    && (forall i :: 0 <= i < |net.w1| ==> Reach(net.b1[i], net.w1[i], k) <= 2147418111)
  }

  /** Score sums over activations stay in 32 bits. */
  ghost predicate ScoresFit(net: Net) {
    && |net.b2| == |net.w2|
    && (forall j :: 0 <= j < |net.w2| ==> Reach(net.b2[j], net.w2[j], 1) < 0x8000_0000)
  }

  /** The sum of one row can be computed in 32 bits: every product and every partial sum fits. */
  ghost predicate SumDefined(b: int, w: seq<int>, x: seq<int>)
    requires |w| == |x|
  {
    && (forall n :: 0 <= n < |w| ==> Fits32(Mul(w[n], x[n])))
    && (forall n :: 0 <= n <= |w| ==> Fits32(Affine(b, w, x, n)))
  }

  /** The hidden layer of an input can be computed in 32 bits: the sums, and the denominators of
      the activations. On any other input the source overflows or its cast cuts a product. */
  ghost predicate Defined(net: Net, x: seq<int>) {
    && Shape(net, |x|)
    && (forall i :: 0 <= i < |net.w1| ==> SumDefined(net.b1[i], net.w1[i], x))
    && (forall i :: 0 <= i < |net.w1| ==> Fits32(65536 + Abs(Affine(net.b1[i], net.w1[i], x, |x|))))
  }

  lemma SumWithin(b: int, w: seq<int>, x: seq<int>, k: nat)
    requires |w| == |x| && Within(x, k) && Reach(b, w, k) < 0x8000_0000
    ensures SumDefined(b, w, x) && Abs(Affine(b, w, x, |x|)) <= Reach(b, w, k)
  {
    hide Reach, Affine, Mul;
    forall n | 0 <= n < |w|
      ensures Fits32(Mul(w[n], x[n]))
    {
      OneProduct(b, w, x, n, k);
    }
    forall n | 0 <= n <= |w|
      ensures Abs(Affine(b, w, x, n)) <= Reach(b, w, k)
    {
      PartialSum(b, w, x, n, k);
    }
  }

  /** Inputs within `k` units are safe for a network whose weights are bounded for `k`. */
  lemma DefinedWithin(net: Net, x: seq<int>, k: nat)
    requires Bounded(net, |x|, k) && Within(x, k)
    ensures Defined(net, x)
  {
    hide Reach, Affine, SumDefined, Within;
    forall i | 0 <= i < |net.w1|
      ensures SumDefined(net.b1[i], net.w1[i], x) && Fits32(65536 + Abs(Affine(net.b1[i], net.w1[i], x, |x|)))
    {
      SumWithin(net.b1[i], net.w1[i], x, k);
      SoftsignDenominator(Affine(net.b1[i], net.w1[i], x, |x|));
    }
  }

  /** Every activation is strictly inside one unit. */
  function Activation(net: Net, x: seq<int>, i: nat): (r: i32)
    requires Shape(net, |x|) && i < |net.w1|
    ensures -65535 <= r <= 65535
  {
    SoftsignBound(Affine(net.b1[i], net.w1[i], x, |x|));
    Softsign(Affine(net.b1[i], net.w1[i], x, |x|))
  }

  function Hidden(net: Net, x: seq<int>): seq<i32>
    requires Shape(net, |x|)
  {
    seq(|net.w1|, i requires 0 <= i < |net.w1| => Activation(net, x, i))
  }

  function Score(net: Net, h: seq<int>, j: nat): int
    requires |net.b2| == |net.w2| && j < |net.w2| && |net.w2[j]| == |h|
  {
    Affine(net.b2[j], net.w2[j], h, |h|)
  }

  /** `best` is the first position of the largest value. */
  ghost predicate FirstMax(out: seq<int>, best: nat) {
    && best < |out|
    && (forall j :: 0 <= j < |out| ==> out[j] <= out[best])
    && (forall j :: 0 <= j < best ==> out[j] < out[best])
  }

  /** The inner loop of both layers. Typing the running sum as a 32-bit value makes every
      addition an overflow check. */
  method WeightedSum(b: i32, w: seq<i32>, x: seq<i32>) returns (s: i32)
    requires |w| == |x| && SumDefined(b, w, x)
    ensures s == Affine(b, w, x, |x|)
  {
    hide Mul;
    s := b;
    var j := 0;
    while j < |w|
      invariant j <= |w| && s == Affine(b, w, x, j)
    {
      assert Affine(b, w, x, j + 1) == s + Mul(w[j], x[j]);
      var p: i32 := Mul(w[j], x[j]);
      s := s + p;
      j := j + 1;
    }
  }

  /** The hidden layer, for every input that stays within 32 bits. */
  method HiddenLayer(net: Net, x: seq<i32>) returns (h: seq<i32>)
    requires Defined(net, x)
    ensures h == Hidden(net, x) && Within(h, 1)
  {
    hide Softsign, Affine, SumDefined;
    var hidden := new i32[|net.w1|];
    var i := 0;
    while i < |net.w1|
      invariant 0 <= i <= hidden.Length == |net.w1|
      invariant forall m :: 0 <= m < i ==> hidden[m] == Activation(net, x, m)
    {
      var s := WeightedSum(net.b1[i], net.w1[i], x);
      var d: i32 := 65536 + Abs(s);
      SoftsignBound(s);
      hidden[i] := Softsign(s);
      i := i + 1;
    }
    h := hidden[..];
  }
}
