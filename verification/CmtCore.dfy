/** The awareness engine: six inputs, twelve hidden neurons, and a level derived from how
    strongly they fire. */
module CmtCore {
  import opened Bytes
  import opened FixedPoint
  import opened Network
  import opened AiCore

  const CMT_PERIOD := 50
  const CMT_HIST_LEN := 32

  const CMT := Net(
    [[131072, 32768, 0, 0, 0, 0],
     [-131072, -32768, 0, 0, 0, 0],
     [32768, 131072, 0, 0, 0, 0],
     [0, 0, 131072, 0, 0, 0],
     [0, 0, 0, 131072, 0, 0],
     [0, 0, 0, 0, 131072, 0],
     [0, 0, 0, 0, 0, 131072],
     [32768, 32768, 0, 0, 0, 0],
     [0, 0, 32768, 32768, 0, 0],
     [0, 0, 0, 0, 32768, 32768],
     [-65536, -65536, -65536, 0, 0, 0],
     [0, 0, 0, 0, 0, 0]],
    [0, 0, -65536, 0, 0, 0, 0, 32768, 0, 0, 32768, 0],
    [[-16384, -16384, -16384, -16384, -16384, -16384, -16384, 32768, 32768, 32768, 32768, 32768],
     [131072, -131072, 0, 131072, 0, 0, 0, -32768, -32768, 0, -65536, 0],
     [0, 131072, 131072, -131072, -131072, -131072, -131072, 0, 0, -32768, 131072, 0]],
    [0, 0, 0])

  /** Perception, memory, body, self, action and context. */
  datatype Inputs = Inputs(p: i32, m: i32, b: i32, s: i32, a: i32, x: i32) {
    function Vector(): seq<i32> {
      [p, m, b, s, a, x]
    }
  }

  /** What the decision engine reports about itself. */
  datatype SelfReport = SelfReport(inferences: u32, errors: u32, action: nat) {
    /** The two counters do not wrap when they are added. */
    predicate Sane() {
      inferences + errors < 0x1_0000_0000 && action <= 2
    }
  }

  function SelfRatio(me: SelfReport): i32 {
    var total := Add32(me.inferences, me.errors);
    if total > 0 then FromRatio(me.inferences, total) else ONE
  }

  lemma SelfRatioInUnit(me: SelfReport)
    requires me.Sane()
    ensures 0 <= SelfRatio(me) <= ONE
    ensures me.inferences + me.errors > 0 ==> IsFraction(SelfRatio(me), me.inferences, me.inferences + me.errors)
    ensures me.inferences + me.errors == 0 ==> SelfRatio(me) == ONE
  {
    hide FromRatio, IsFraction;
    FractionInUnit(me.inferences, me.inferences + me.errors);
    FractionRounds(me.inferences, me.inferences + me.errors);
  }

  function HeapPressure(m: Sensors): i32 {
    FromRatio(m.heapUsed, m.heapCap)
  }

  function PagePressure(m: Sensors): i32 {
    FromRatio(Sub32(m.pagesTotal, m.pagesFree), m.pagesTotal)
  }

  /** The inputs can be computed without signed overflow. */
  predicate Readable(m: Sensors, me: SelfReport, ticksSince: u32) {
    && Fits32(HeapPressure(m) + PagePressure(m))
    && Fits32(ONE - FromRatio(m.pagesFree, m.pagesTotal))
    && Fits32(FromRatio(ticksSince, CMT_PERIOD) - ONE)
    && me.action < 256
  }

  /** cmt_perceive. */
  function CmtPerceive(m: Sensors, me: SelfReport, ticksSince: u32, uptime: u32): (r: Inputs)
    requires Readable(m, me, ticksSince)
    ensures -2 * ONE <= r.b <= 2 * ONE && 0 <= r.m <= ONE && 0 <= r.x <= ONE
    ensures ticksSince == 0 ==> r.b == -ONE
  {
    Inputs(TruncDiv(HeapPressure(m) + PagePressure(m), 2),
           Clamp(ONE - FromRatio(m.pagesFree, m.pagesTotal), 0, ONE),
           Clamp(FromRatio(ticksSince, CMT_PERIOD) - ONE, -2 * ONE, 2 * ONE),
           SelfRatio(me), me.action * ONE,
           Clamp(FromRatio(uptime % 1000, 1000), 0, ONE))
  }

  /** Sane sensors and counters are readable at rest. */
  lemma SaneReadable(m: Sensors, me: SelfReport)
    requires m.Sane() && me.action <= 2
    ensures Readable(m, me, 0)
    ensures 0 <= HeapPressure(m) <= ONE && 0 <= PagePressure(m) <= ONE
  {
    hide FromRatio, IsFraction;
    UnitInputs(m);
    FractionInUnit(m.pagesFree, m.pagesTotal);
    FractionInUnit(0, CMT_PERIOD);
  }

  /** What the inputs mean: the average pressure, the pages not free, the share of inferences
      without error, the last action, and the position in a cycle of 1000 ticks. All of them
      are within two units. */
  lemma InputsMean(m: Sensors, me: SelfReport, ticksSince: u32, uptime: u32)
    requires m.Sane() && me.Sane() && Readable(m, me, ticksSince)
    ensures var r := CmtPerceive(m, me, ticksSince, uptime);
            && 2 * r.p <= HeapPressure(m) + PagePressure(m) <= 2 * r.p + 1 && 0 <= r.p <= ONE
            && IsFraction(ONE - r.m, m.pagesFree, m.pagesTotal)
            && (me.inferences + me.errors > 0 ==> IsFraction(r.s, me.inferences, me.inferences + me.errors))
            && (me.inferences + me.errors == 0 ==> r.s == ONE)
            && r.a == me.action * ONE && IsFraction(r.x, uptime % 1000, 1000)
            && Within(r.Vector(), 2)
  {
    hide IsFraction, FromRatio, SelfRatio;
    SaneReadable(m, me);
    SelfRatioInUnit(me);
    FractionInUnit(m.pagesFree, m.pagesTotal);
    FractionInUnit(uptime % 1000, 1000);
    FractionRounds(m.pagesFree, m.pagesTotal);
    FractionRounds(uptime % 1000, 1000);
  }

  // ---- The weights ------------------------------------------------------------

  lemma Norm6(w: seq<int>)
    requires |w| == 6
    ensures Norm(w, 6) == Abs(w[0]) + Abs(w[1]) + Abs(w[2]) + Abs(w[3]) + Abs(w[4]) + Abs(w[5])
  {
    assert Norm(w, 1) == Abs(w[0]);
    assert Norm(w, 2) == Norm(w, 1) + Abs(w[1]);
    assert Norm(w, 3) == Norm(w, 2) + Abs(w[2]);
    assert Norm(w, 4) == Norm(w, 3) + Abs(w[3]);
    assert Norm(w, 5) == Norm(w, 4) + Abs(w[4]);
  }

  lemma {:induction false} NormAtMost(w: seq<int>, n: nat)
    requires n <= |w| && forall i :: 0 <= i < |w| ==> Abs(w[i]) <= 131072
    ensures Norm(w, n) <= n * 131072
  {
    if n > 0 {
      NormAtMost(w, n - 1);
    }
  }

  lemma CmtShape()
    ensures Shape(CMT, 6) && |CMT.w1| == 12 && |CMT.w2| == 3 && |CMT.b2| == 3
  {
  }

  /** Each row's bias and weights, added up. */
  lemma RowSums(i: nat)
    requires i < 12
    ensures |CMT.w1[i]| == 6
    ensures var w := CMT.w1[i];
            Abs(CMT.b1[i]) + 10922 * (Abs(w[0]) + Abs(w[1]) + Abs(w[2]) + Abs(w[3]) + Abs(w[4]) + Abs(w[5])) <= 2147418111
  {
  }

  lemma SmallWeights()
    ensures forall i, j :: 0 <= i < 3 && 0 <= j < 12 ==> Abs(CMT.w2[i][j]) <= 131072
    ensures forall i :: 0 <= i < 3 ==> CMT.b2[i] == 0
  {
  }

  /** The shipped weights leave room for every input within 10922 units, and scores always
      fit. */
  lemma CmtFits()
    ensures Bounded(CMT, 6, 10922) && ScoresFit(CMT)
  {
    hide Norm;
    CmtShape();
    SmallWeights();
    forall i | 0 <= i < 12
      ensures Reach(CMT.b1[i], CMT.w1[i], 10922) <= 2147418111
    {
      Norm6(CMT.w1[i]);
      RowSums(i);
    }
    forall j | 0 <= j < 3
      ensures Reach(CMT.b2[j], CMT.w2[j], 1) < 0x8000_0000
    {
      NormAtMost(CMT.w2[j], 12);
    }
  }

  // ---- Experience -------------------------------------------------------------

  /** The summed magnitude of the first `n` activations. */
  function Total(h: seq<i32>, n: nat): int
    requires n <= |h|
  {
    if n == 0 then 0 else Total(h, n - 1) + AbsSat(h[n - 1])
  }

  lemma {:induction false} TotalBound(h: seq<i32>, n: nat)
    requires n <= |h| && forall i :: 0 <= i < |h| ==> -65535 <= h[i] <= 65535
    ensures 0 <= Total(h, n) <= n * 65535
    ensures forall i :: 0 <= i < n ==> Total(h, n) >= Abs(h[i])
  {
    if n > 0 {
      TotalBound(h, n - 1);
    }
  }

  datatype Experience = Experience(dims: seq<i32>, energy: i32, coherence: i32)

  ghost predicate Experienced(e: Experience, h: seq<i32>) {
    && |h| == 12 && e.dims == h
    && e.energy == Total(h, 12) / 12
    && e.coherence == if Total(h, 12) > 0 then Clamp(Total(h, 12) / (AbsSat(h[0]) + 1), 0, ONE) else 0
  }

  /** cmt_derive_level. */
  function DeriveLevel(energy: i32, coherence: i32): nat {
    if energy <= 0 then 0
    else if energy < 32768 then 1
    else if energy < 65536 || coherence < 32768 then 2
    else 3
  }

  /** What the level says about the activations. It is 0 exactly when all of them together
      are below 12 units in the last place, 2 exactly when they average at least one half, and
      never 3: the average of activations inside one unit stays below one unit. */
  lemma LevelMeans(e: Experience, h: seq<i32>)
    requires Experienced(e, h) && forall i :: 0 <= i < 12 ==> -65535 <= h[i] <= 65535
    ensures 0 <= e.energy < ONE && DeriveLevel(e.energy, e.coherence) <= 2
    ensures DeriveLevel(e.energy, e.coherence) >= 1 <==> Total(h, 12) >= 12
    ensures DeriveLevel(e.energy, e.coherence) == 2 <==> Total(h, 12) >= 6 * ONE
    ensures (exists i :: 0 <= i < 12 && Abs(h[i]) >= 12) ==> DeriveLevel(e.energy, e.coherence) >= 1
  {
    TotalBound(h, 12);
  }

  /** Level 3 would need an average of one unit and a coherence of one half. */
  lemma LevelThreeIff(energy: i32, coherence: i32)
    ensures DeriveLevel(energy, coherence) <= 3
    ensures DeriveLevel(energy, coherence) == 3 <==> energy >= ONE && 2 * coherence >= ONE
  {
  }

  /** What the two summaries say: the energy is the average magnitude, rounded down, and the
      coherence is how often the first neuron's magnitude goes into the sum, up to one unit. */
  lemma ExperienceMeans(e: Experience, h: seq<i32>)
    requires Experienced(e, h) && forall i :: 0 <= i < 12 ==> -65535 <= h[i] <= 65535
    ensures 12 * e.energy <= Total(h, 12) < 12 * (e.energy + 1)
    ensures var d := Abs(h[0]) + 1;
            && 0 <= e.coherence <= ONE && e.coherence * d <= Total(h, 12)
            && (e.coherence < ONE ==> Total(h, 12) < (e.coherence + 1) * d)
  {
    TotalBound(h, 12);
    var t, d := Total(h, 12), Abs(h[0]) + 1;
    QuotientIs(t, d, t / d);
    QuotientIs(t, d, t / d + 1);
    if t / d > ONE {
      QuotientIs(t, d, ONE);
    }
  }

  function CmtScores(h: seq<i32>): seq<int>
    requires |h| == 12
  {
    [Score(CMT, h, 0), Score(CMT, h, 1), Score(CMT, h, 2)]
  }

  lemma CmtScoresAt(h: seq<i32>, j: nat)
    requires |h| == 12 && j < 3
    ensures CmtScores(h)[j] == Affine(CMT.b2[j], CMT.w2[j], h, 12)
  {
    hide Affine;
  }

  /** The first loop of cmt_transform: activations and their summed magnitude. */
  method Fire(x: seq<i32>) returns (h: seq<i32>, te: i32)
    requires |x| == 6 && Defined(CMT, x)
    ensures h == Hidden(CMT, x) && te == Total(h, 12)
    ensures |h| == 12 && forall i :: 0 <= i < 12 ==> -65535 <= h[i] <= 65535
  {
    hide Softsign, Affine, SumDefined;
    CmtShape();
    h, te := [], 0;
    var i := 0;
    while i < 12
      invariant 0 <= i == |h| <= 12
      invariant forall m :: 0 <= m < i ==> h[m] == Activation(CMT, x, m)
      invariant te == Total(h, i)
    {
      var s := WeightedSum(CMT.b1[i], CMT.w1[i], x);
      var d: i32 := 65536 + Abs(s);
      SoftsignBound(s);
      ghost var before := h;
      h := h + [Softsign(s)];
      SamePrefix(before, h, i);
      TotalBound(h, i + 1);
      te := te + AbsSat(h[i]);
      i := i + 1;
    }
  }

  lemma {:induction false} SamePrefix(h: seq<i32>, g: seq<i32>, n: nat)
    requires n <= |h| && n <= |g| && forall i :: 0 <= i < n ==> h[i] == g[i]
    ensures Total(h, n) == Total(g, n)
  {
    if n > 0 {
      SamePrefix(h, g, n - 1);
    }
  }

  /** cmt_transform: the experience, and the first action with the largest score, for every
      input that stays within 32 bits. */
  method Transform(input: Inputs) returns (e: Experience, best: nat)
    requires Defined(CMT, input.Vector())
    ensures Experienced(e, Hidden(CMT, input.Vector()))
    ensures FirstMax(CmtScores(Hidden(CMT, input.Vector())), best)
    ensures forall i :: 0 <= i < |e.dims| ==> -ONE < e.dims[i] < ONE
    ensures 0 <= e.energy < ONE && DeriveLevel(e.energy, e.coherence) <= 2
  {
    hide Affine, Defined, CmtScores, Hidden;
    var h, te := Fire(input.Vector());
    best := PickBest(h);
    TotalBound(h, 12);
    e := Experience(h, te / 12, if te > 0 then Clamp(te / (AbsSat(h[0]) + 1), 0, ONE) else 0);
    LevelMeans(e, h);
  }

  /** The output loop of cmt_transform. */
  method PickBest(h: seq<i32>) returns (best: nat)
    requires |h| == 12 && Within(h, 1)
    ensures FirstMax(CmtScores(h), best)
  {
    hide Affine, Reach, Score;
    CmtFits();
    CmtShape();
    var out := new i32[3];
    best := 0;
    var j := 0;
    while j < 3
      invariant 0 <= j <= out.Length == 3 && 0 <= best < 3 && (j == 0 ==> best == 0) && (j > 0 ==> best < j)
      invariant forall m :: 0 <= m < j ==> out[m] == CmtScores(h)[m] && out[m] <= out[best]
      invariant forall m :: 0 <= m < best ==> out[m] < out[best]
    {
      CmtScoresAt(h, j);
      SumWithin(CMT.b2[j], CMT.w2[j], h, 1);
      out[j] := WeightedSum(CMT.b2[j], CMT.w2[j], h);
      if out[j] > out[best] {
        best := j;
      }
      j := j + 1;
    }
  }

  /** With the body input at rest the fourth neuron always fires, so the level is 1 or 2. */
  lemma RestingBodyFires(x: seq<i32>)
    requires |x| == 6 && x[2] == -ONE
    ensures |Hidden(CMT, x)| == 12 && Hidden(CMT, x)[3] == -43690
  {
    CmtShape();
    assert Affine(0, CMT.w1[3], x, 1) == 0;
    assert Affine(0, CMT.w1[3], x, 2) == 0;
    assert Affine(0, CMT.w1[3], x, 3) == -131072;
    assert Affine(0, CMT.w1[3], x, 4) == -131072;
    assert Affine(0, CMT.w1[3], x, 5) == -131072;
    RestingValues();
  }

  // ---- When an inference is defined ---------------------------------------------

  /** An inference on these reports stays within 32 bits. */
  ghost predicate InferenceDefined(m: Sensors, me: SelfReport, uptime: u32) {
    Readable(m, me, 0) && Defined(CMT, CmtPerceive(m, me, 0, uptime).Vector())
  }

  /** The self input leaves room for the fifth neuron, which doubles it. */
  predicate SelfFits(me: SelfReport) {
    Abs(SelfRatio(me)) <= 1073709055
  }

  lemma Affine6(b: int, w: seq<int>, x: seq<int>)
    requires |w| == 6 && |x| == 6
    ensures Affine(b, w, x, 0) == b && Affine(b, w, x, 1) == b + Mul(w[0], x[0])
    ensures Affine(b, w, x, 2) == b + Mul(w[0], x[0]) + Mul(w[1], x[1])
    ensures Affine(b, w, x, 3) == b + Mul(w[0], x[0]) + Mul(w[1], x[1]) + Mul(w[2], x[2])
    ensures Affine(b, w, x, 4) == b + Mul(w[0], x[0]) + Mul(w[1], x[1]) + Mul(w[2], x[2]) + Mul(w[3], x[3])
    ensures Affine(b, w, x, 5) == Affine(b, w, x, 4) + Mul(w[4], x[4])
    ensures Affine(b, w, x, 6) == Affine(b, w, x, 4) + Mul(w[4], x[4]) + Mul(w[5], x[5])
  {
    hide Mul;
    assert Affine(b, w, x, 2) == Affine(b, w, x, 1) + Mul(w[1], x[1]);
    assert Affine(b, w, x, 3) == Affine(b, w, x, 2) + Mul(w[2], x[2]);
    assert Affine(b, w, x, 4) == Affine(b, w, x, 3) + Mul(w[3], x[3]);
    assert Affine(b, w, x, 5) == Affine(b, w, x, 4) + Mul(w[4], x[4]);
    assert Affine(b, w, x, 6) == Affine(b, w, x, 5) + Mul(w[5], x[5]);
  }

  /** A row that ignores the self input computes the same without it. */
  lemma SelfIgnored(b: int, w: seq<int>, x: seq<int>)
    requires |w| == 6 && |x| == 6 && w[3] == 0
    ensures SumDefined(b, w, x) == SumDefined(b, w, x[3 := 0])
    ensures Affine(b, w, x, 6) == Affine(b, w, x[3 := 0], 6)
  {
    hide Mul;
    var y := x[3 := 0];
    NoWeight(x[3]);
    NoWeight(0);
    forall n | 0 <= n < 6
      ensures Mul(w[n], x[n]) == Mul(w[n], y[n])
    {
    }
    forall n | 0 <= n <= 6
      ensures Affine(b, w, x, n) == Affine(b, w, y, n)
    {
      hide Affine;
      Affine6(b, w, x);
      Affine6(b, w, y);
    }
  }

  lemma NoWeight(x: int)
    ensures Mul(0, x) == 0
  {
  }

  lemma Doubled(x: int)
    ensures Mul(131072, x) == 2 * x
  {
  }

  /** A row with a single weight, on the self input. */
  lemma OneWeight(b: int, w: seq<int>, x: seq<int>)
    requires |w| == 6 && |x| == 6 && w[0] == w[1] == w[2] == w[4] == w[5] == b == 0
    ensures Affine(b, w, x, 6) == Mul(w[3], x[3])
    ensures SumDefined(b, w, x) <==> Fits32(Mul(w[3], x[3]))
  {
    hide Affine, Mul;
    Affine6(b, w, x);
    forall n | 0 <= n < 6
      ensures Mul(0, x[n]) == 0
    {
      NoWeight(x[n]);
    }
  }

  lemma SelfRows()
    ensures |CMT.w1[4]| == 6 && CMT.w1[4][0] == CMT.w1[4][1] == CMT.w1[4][2] == CMT.w1[4][4] == CMT.w1[4][5] == CMT.b1[4] == 0
    ensures CMT.w1[4][3] == 131072
    ensures |CMT.w1[8]| == 6 && CMT.w1[8][0] == CMT.w1[8][1] == CMT.w1[8][4] == CMT.w1[8][5] == CMT.b1[8] == 0
    ensures CMT.w1[8][2] == CMT.w1[8][3] == 32768
  {
  }

  /** The fifth neuron sees twice the self input. */
  lemma DoubledSelf(x: seq<int>)
    requires |x| == 6
    ensures |CMT.w1[4]| == 6 && Affine(CMT.b1[4], CMT.w1[4], x, 6) == 2 * x[3]
    ensures SumDefined(CMT.b1[4], CMT.w1[4], x) <==> Fits32(2 * x[3])
  {
    hide Affine, SumDefined, Mul;
    SelfRows();
    OneWeight(CMT.b1[4], CMT.w1[4], x);
    Doubled(x[3]);
  }

  lemma Halved(x: int)
    requires Fits32(x)
    ensures Abs(Mul(32768, x)) <= 0x4000_0000 && Mul(32768, -ONE) == -32768
  {
  }

  /** A row with two small weights, on the body at rest and on the self input. */
  lemma TwoWeights(b: int, w: seq<int>, x: seq<int>)
    requires |w| == 6 && |x| == 6 && w[0] == w[1] == w[4] == w[5] == b == 0 && w[2] == w[3] == 32768
    requires x[2] == -ONE && Fits32(x[3])
    ensures SumDefined(b, w, x) && Fits32(65536 + Abs(Affine(b, w, x, 6)))
  {
    hide Affine, Mul;
    Affine6(b, w, x);
    Halved(x[3]);
    forall n | 0 <= n < 6
      ensures Mul(0, x[n]) == 0
    {
      NoWeight(x[n]);
    }
  }

  lemma OtherRows(i: nat)
    requires i < 12 && i != 4 && i != 8
    ensures |CMT.w1[i]| == 6 && CMT.w1[i][3] == 0
  {
  }

  /** One neuron can be computed in 32 bits. */
  ghost predicate RowDefined(b: int, w: seq<int>, x: seq<int>)
    requires |w| == |x|
  {
    SumDefined(b, w, x) && Fits32(65536 + Abs(Affine(b, w, x, |x|)))
  }

  lemma DefinedByRow(x: seq<int>)
    requires |x| == 6 && Shape(CMT, 6) && |CMT.w1| == 12
    ensures Defined(CMT, x) <==> forall i :: 0 <= i < 12 ==> RowDefined(CMT.b1[i], CMT.w1[i], x)
  {
    hide SumDefined, Affine;
  }

  /** Every neuron but the fifth is safe whatever the self input is. */
  lemma RowsButFifth(x: seq<int>, i: nat)
    requires |x| == 6 && Within(x[3 := 0], 2) && x[2] == -ONE && Fits32(x[3]) && i < 12 && i != 4
    ensures |CMT.w1[i]| == 6 && RowDefined(CMT.b1[i], CMT.w1[i], x)
  {
    hide Affine, SumDefined, Bounded, Defined, Within;
    if i == 8 {
      SelfRows();
      TwoWeights(CMT.b1[8], CMT.w1[8], x);
    } else {
      OtherRows(i);
      SelfIgnored(CMT.b1[i], CMT.w1[i], x);
      WithoutSelf(x, i);
    }
  }

  lemma WithoutSelf(x: seq<int>, i: nat)
    requires |x| == 6 && Within(x[3 := 0], 2) && i < 12
    ensures |CMT.w1[i]| == 6 && RowDefined(CMT.b1[i], CMT.w1[i], x[3 := 0])
  {
    hide RowDefined, Bounded, Defined;
    CmtShape();
    CmtFits();
    DefinedWithin(CMT, x[3 := 0], 10922);
    DefinedByRow(x[3 := 0]);
  }

  /** With the other inputs within two units and the body at rest, the self input alone decides
      whether the forward pass stays within 32 bits. */
  lemma SelfDecides(x: seq<int>)
    requires |x| == 6 && Within(x[3 := 0], 2) && x[2] == -ONE && Fits32(x[3])
    ensures Defined(CMT, x) <==> Abs(x[3]) <= 1073709055
  {
    hide Defined, RowDefined, Within;
    CmtShape();
    DefinedByRow(x);
    forall i | 0 <= i < 12 && i != 4
      ensures RowDefined(CMT.b1[i], CMT.w1[i], x)
    {
      RowsButFifth(x, i);
    }
    FifthRow(x);
  }

  lemma FifthRow(x: seq<int>)
    requires |x| == 6
    ensures |CMT.w1[4]| == 6 && (RowDefined(CMT.b1[4], CMT.w1[4], x) <==> Abs(x[3]) <= 1073709055)
  {
    hide SumDefined, Affine;
    DoubledSelf(x);
  }

  /** At rest, with sane sensors, everything but the self input is within two units. */
  lemma OthersWithin(m: Sensors, me: SelfReport, uptime: u32)
    requires m.Sane() && me.action <= 2
    ensures Readable(m, me, 0)
    ensures var x := CmtPerceive(m, me, 0, uptime).Vector();
            |x| == 6 && Within(x[3 := 0], 2) && x[2] == -ONE && x[3] == SelfRatio(me)
  {
    hide FromRatio, SelfRatio, Readable;
    SaneReadable(m, me);
  }

  /** Exactly when an inference stays within 32 bits: the two counters decide alone, whatever
      the sensors say. */
  lemma DefinedIff(m: Sensors, me: SelfReport, uptime: u32)
    requires m.Sane() && me.action <= 2
    ensures InferenceDefined(m, me, uptime) <==> SelfFits(me)
  {
    hide CmtPerceive, Readable, Defined, SelfRatio;
    OthersWithin(m, me, uptime);
    SelfDecides(CmtPerceive(m, me, 0, uptime).Vector());
  }

  /** Counters that do not wrap when they are added are always good. */
  lemma SaneDefined(m: Sensors, me: SelfReport, uptime: u32)
    requires m.Sane() && me.Sane()
    ensures SelfFits(me) && InferenceDefined(m, me, uptime)
  {
    hide InferenceDefined, SelfRatio;
    SelfRatioInUnit(me);
    DefinedIff(m, me, uptime);
  }

  lemma WrappedSelf(me: SelfReport)
    requires me.inferences == 16384 && me.errors == 0xFFFF_C001
    ensures SelfRatio(me) == 0x4000_0000 && !SelfFits(me)
  {
    assert Add32(me.inferences, me.errors) == 1 && FromRatio(16384, 1) == 0x4000_0000;
  }

  /** Counters that wrap need not be: here their sum is 1, and no inference is defined. */
  lemma WrappedCountersOverflow(m: Sensors, me: SelfReport, uptime: u32)
    requires m.Sane() && me.action <= 2 && me.inferences == 16384 && me.errors == 0xFFFF_C001
    ensures !InferenceDefined(m, me, uptime)
  {
    hide InferenceDefined, SelfFits;
    WrappedSelf(me);
    DefinedIff(m, me, uptime);
  }
}
