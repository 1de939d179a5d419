/** The Python mirror of the decision network. It rounds activations down where the kernel
    truncates, and it steps the timer rate without regard to the awareness level. */
module Mirror {
  import opened Bytes
  import opened FixedPoint
  import opened Network
  import opened AiCore

  /** fp_softsign of the mirror. */
  function FloorSoftsign(x: int): int {
    x * 65536 / (65536 + Abs(x))
  }

  /** Rounding down loses one unit in the last place, exactly on the inexact negative values. */
  lemma SoftsignDrift(x: int)
    ensures Softsign(x) - FloorSoftsign(x) == if x < 0 && x * 65536 % (65536 + Abs(x)) != 0 then 1 else 0
  {
    if x < 0 {
      FloorOfNegative(-x * 65536, 65536 + Abs(x));
    }
  }

  lemma FloorOfNegative(n: int, d: int)
    requires n >= 0 && d > 0
    ensures -n / d == if -n % d == 0 then -(n / d) else -(n / d) - 1
  {
    var m := n / d + -n / d;
    assert n == n / d * d + n % d && -n == -n / d * d + -n % d;
    assert m * d == n / d * d + -n / d * d;
    Grow(m, d);
    Grow(m + 1, d);
  }

  lemma Grow(m: int, d: int)
    requires d > 0
    ensures m >= 1 ==> m * d >= d
    ensures m <= -1 ==> m * d <= -d
  {
    if m >= 1 {
      Scale(1, m, d);
    } else if m <= -1 {
      Scale(m, -1, d);
    }
  }

  function FloorActivation(x: seq<int>, i: nat): (r: int)
    requires |x| == 3 && i < 8
    ensures 0 <= Activation(AI, x, i) - r <= 1
  {
    var s := Affine(AI.b1[i], AI.w1[i], x, 3);
    SoftsignDrift(s);
    FloorSoftsign(s)
  }

  function FloorHidden(x: seq<int>): seq<int>
    requires |x| == 3
  {
    seq(8, i requires 0 <= i < 8 => FloorActivation(x, i))
  }

  /** decide of the mirror. Python integers are unbounded, so no input is excluded. */
  method MirrorDecide(x: seq<int>) returns (best: nat)
    requires |x| == 3
    ensures FirstMax(Outputs(FloorHidden(x)), best)
  {
    var hidden := new int[8];
    for i := 0 to 8
      invariant forall m :: 0 <= m < i ==> hidden[m] == FloorActivation(x, m)
    {
      Affine3(AI.b1[i], AI.w1[i], x);
      var s := AI.b1[i] + Mul(AI.w1[i][0], x[0]) + Mul(AI.w1[i][1], x[1]) + Mul(AI.w1[i][2], x[2]);
      ActivationIs(x, i);
      hidden[i] := FloorSoftsign(s);
    }
    best := PickBest(hidden[..]);
    assert hidden[..] == FloorHidden(x);
  }

  lemma ActivationIs(x: seq<int>, i: nat)
    requires |x| == 3 && i < 8
    ensures FloorActivation(x, i) == FloorSoftsign(Affine(AI.b1[i], AI.w1[i], x, 3))
  {
  }

  /** The output loop of the mirror. */
  method PickBest(h: seq<int>) returns (best: nat)
    requires |h| == 8
    ensures FirstMax(Outputs(h), best)
  {
    hide Score, Mul;
    var out := new int[3](_ => 0);
    best := 0;
    for j := 0 to 3
      invariant 0 <= best < 3 && (j == 0 ==> best == 0) && (j > 0 ==> best < j)
      invariant forall m :: 0 <= m < j ==> out[m] == Output(h, m) && out[m] <= out[best]
      invariant forall m :: 0 <= m < best ==> out[m] < out[best]
    {
      var o: int := AI.b2[j];
      for i := 0 to 8
        invariant o == Affine(AI.b2[j], AI.w2[j], h, i)
      {
        o := o + Mul(AI.w2[j][i], h[i]);
      }
      ScoreIs(h, j);
      out[j] := Clamp(o, -4 * ONE, 4 * ONE);
      if out[j] > out[best] {
        best := j;
      }
    }
  }

  // ---- Drift ------------------------------------------------------------------

  /** `g` is `h` with some entries one lower. */
  ghost predicate JustBelow(h: seq<int>, g: seq<int>) {
    |h| == 8 == |g| && forall i :: 0 <= i < 8 ==> 0 <= h[i] - g[i] <= 1
  }

  /** What a step down from `h` to `g` adds to a product with weight -1/4. */
  function Quarter(h: int, g: int): int {
    Mul(-16384, g) - Mul(-16384, h)
  }

  /** The same for weight -1/2. */
  function Half(h: int, g: int): int {
    Mul(-32768, g) - Mul(-32768, h)
  }

  lemma Doubles(h: int)
    ensures Mul(131072, h) == 2 * h && Mul(-131072, h) == -2 * h && Mul(0, h) == 0
  {
  }

  lemma Units(h: int)
    ensures Mul(65536, h) == h && Mul(-65536, h) == -h && Mul(0, h) == 0
  {
  }

  lemma Halves(h: int)
    ensures Mul(32768, h) == h / 2
  {
  }

  lemma MinusHalves(h: int)
    ensures Mul(-32768, h) == -h / 2
  {
  }

  lemma MinusQuarters(h: int)
    ensures Mul(-16384, h) == -h / 4
  {
  }

  lemma HalfStep(h: int)
    ensures 0 <= (1 - h) / 2 - -h / 2 <= 1
    ensures h / 2 - (h - 1) / 2 == 1 - ((1 - h) / 2 - -h / 2)
  {
  }

  lemma QuarterStep(h: int)
    ensures 0 <= (1 - h) / 4 - -h / 4 <= (1 - h) / 2 - -h / 2
  {
    var q := h / 4;
    match h % 4 {
      case 0 => assert h == 4 * q; assert -h / 4 == -q && (1 - h) / 4 == -q;
      case 1 => assert h == 4 * q + 1; assert -h / 2 == -2 * q - 1 && (1 - h) / 2 == -2 * q;
      case 2 => assert h == 4 * q + 2; assert -h / 4 == -q - 1 && (1 - h) / 4 == -q - 1;
      case _ => assert h == 4 * q + 3; assert -h / 4 == -q - 1 && (1 - h) / 4 == -q - 1;
    }
  }

  /** One step down moves a product by a whole weight of two, and by at most one for smaller
      weights; of the weights 1/2 and -1/2 exactly one notices it, and -1/4 only with -1/2. */
  lemma OneStep(h: int, g: int)
    requires 0 <= h - g <= 1
    ensures Mul(131072, h) - Mul(131072, g) == 2 * (h - g) && Mul(-131072, h) - Mul(-131072, g) == -2 * (h - g)
    ensures 0 <= Quarter(h, g) <= Half(h, g) <= h - g
    ensures Mul(32768, h) - Mul(32768, g) == h - g - Half(h, g)
    ensures Mul(0, h) == 0 == Mul(0, g)
  {
    hide Mul;
    Doubles(h);
    Doubles(g);
    Halves(h);
    Halves(g);
    MinusHalves(h);
    MinusHalves(g);
    MinusQuarters(h);
    MinusQuarters(g);
    if g != h {
      HalfStep(h);
      QuarterStep(h);
      assert -g == 1 - h;
    }
  }

  /** How much lower the mirror's score of action `j` is. */
  function Loss(h: seq<int>, g: seq<int>, j: nat): int
    requires |h| == 8 == |g| && j < 3
  {
    Score(AI, h, j) - Score(AI, g, j)
  }

  lemma Scores(h: seq<int>)
    requires |h| == 8
    ensures Score(AI, h, 0) == Mul(-16384, h[0]) + Mul(-16384, h[1]) + Mul(-16384, h[2]) + Mul(-16384, h[3])
                               + Mul(32768, h[4]) + Mul(32768, h[5]) + Mul(-16384, h[6]) + Mul(32768, h[7])
    ensures Score(AI, h, 1) == Mul(131072, h[0]) + Mul(-131072, h[1]) + Mul(0, h[2]) + Mul(0, h[3])
                               + Mul(-32768, h[4]) + Mul(-32768, h[5]) + Mul(131072, h[6]) + Mul(0, h[7])
    ensures Score(AI, h, 2) == Mul(0, h[0]) + Mul(131072, h[1]) + Mul(131072, h[2]) + Mul(131072, h[3])
                               + Mul(32768, h[4]) + Mul(0, h[5]) + Mul(-32768, h[6]) + Mul(0, h[7])
  {
    hide Affine, Mul;
    Affine8(AI.b2[0], AI.w2[0], h);
    Affine8(AI.b2[1], AI.w2[1], h);
    Affine8(AI.b2[2], AI.w2[2], h);
  }

  /** The scores without fixed-point products. */
  lemma PlainScores(h: seq<int>)
    requires |h| == 8
    ensures Score(AI, h, 0) == -h[0] / 4 + -h[1] / 4 + -h[2] / 4 + -h[3] / 4 + h[4] / 2 + h[5] / 2 + -h[6] / 4 + h[7] / 2
    ensures Score(AI, h, 1) == 2 * h[0] - 2 * h[1] + -h[4] / 2 + -h[5] / 2 + 2 * h[6]
    ensures Score(AI, h, 2) == 2 * h[1] + 2 * h[2] + 2 * h[3] + h[4] / 2 + -h[6] / 2
  {
    hide Score, Mul;
    Scores(h);
    forall i | 0 <= i < 8
      ensures Mul(131072, h[i]) == 2 * h[i] && Mul(-131072, h[i]) == -2 * h[i] && Mul(0, h[i]) == 0
      ensures Mul(32768, h[i]) == h[i] / 2 && Mul(-32768, h[i]) == -h[i] / 2 && Mul(-16384, h[i]) == -h[i] / 4
    {
      Doubles(h[i]);
      Halves(h[i]);
      MinusHalves(h[i]);
      MinusQuarters(h[i]);
    }
  }

  /** The losses, neuron by neuron. */
  lemma Losses(h: seq<int>, g: seq<int>)
    requires JustBelow(h, g)
    ensures Loss(h, g, 0) == -Quarter(h[0], g[0]) - Quarter(h[1], g[1]) - Quarter(h[2], g[2]) - Quarter(h[3], g[3])
                             + (h[4] - g[4] - Half(h[4], g[4])) + (h[5] - g[5] - Half(h[5], g[5])) - Quarter(h[6], g[6])
                             + (h[7] - g[7] - Half(h[7], g[7]))
    ensures Loss(h, g, 1) == 2 * (h[0] - g[0]) - 2 * (h[1] - g[1]) - Half(h[4], g[4]) - Half(h[5], g[5]) + 2 * (h[6] - g[6])
    ensures Loss(h, g, 2) == 2 * (h[1] - g[1]) + 2 * (h[2] - g[2]) + 2 * (h[3] - g[3])
                             + (h[4] - g[4] - Half(h[4], g[4])) - Half(h[6], g[6])
    ensures forall i :: 0 <= i < 8 ==> 0 <= Quarter(h[i], g[i]) <= Half(h[i], g[i]) <= h[i] - g[i]
  {
    hide Score, Mul;
    Scores(h);
    Scores(g);
    forall i | 0 <= i < 8
      ensures Mul(131072, h[i]) - Mul(131072, g[i]) == 2 * (h[i] - g[i])
      ensures Mul(-131072, h[i]) - Mul(-131072, g[i]) == -2 * (h[i] - g[i])
      ensures 0 <= Quarter(h[i], g[i]) <= Half(h[i], g[i]) <= h[i] - g[i]
      ensures Mul(32768, h[i]) - Mul(32768, g[i]) == h[i] - g[i] - Half(h[i], g[i])
      ensures Mul(0, h[i]) == 0 == Mul(0, g[i])
    {
      OneStep(h[i], g[i]);
    }
  }

  /** What the activations of an input lose. */
  ghost predicate Drifts(x: seq<int>, h: seq<int>, g: seq<int>) {
    |x| == 3 && h == Hidden(AI, x) && g == FloorHidden(x)
  }

  /** An activation is lower only where its sum is negative. */
  lemma DriftNegative(x: seq<int>, i: nat)
    requires |x| == 3 && i < 8
    ensures |Hidden(AI, x)| == 8 == |FloorHidden(x)| && 0 <= Hidden(AI, x)[i] - FloorHidden(x)[i] <= 1
    ensures Hidden(AI, x)[i] != FloorHidden(x)[i] ==> Affine(AI.b1[i], AI.w1[i], x, 3) < 0
  {
    hide Affine, Softsign, FloorSoftsign;
    SoftsignDrift(Affine(AI.b1[i], AI.w1[i], x, 3));
  }

  lemma FirstSums(x: seq<int>)
    requires |x| == 3
    ensures Affine(AI.b1[0], AI.w1[0], x, 3) == 2 * x[2] && Affine(AI.b1[1], AI.w1[1], x, 3) == -2 * x[2]
    ensures Affine(AI.b1[2], AI.w1[2], x, 3) == 2 * x[0] - 65536 && Affine(AI.b1[3], AI.w1[3], x, 3) == 2 * x[1] - 65536
  {
    hide Affine, Mul;
    Doubles(x[0]);
    Doubles(x[1]);
    Doubles(x[2]);
    Affine3(AI.b1[0], AI.w1[0], x);
    Affine3(AI.b1[1], AI.w1[1], x);
    Affine3(AI.b1[2], AI.w1[2], x);
    Affine3(AI.b1[3], AI.w1[3], x);
  }

  lemma LastSums(x: seq<int>)
    requires |x| == 3
    ensures Affine(AI.b1[4], AI.w1[4], x, 3) == x[0] / 2 + x[1] / 2
    ensures Affine(AI.b1[5], AI.w1[5], x, 3) == 32768 - x[0] - x[1] - x[2]
    ensures Affine(AI.b1[6], AI.w1[6], x, 3) == x[0] + x[2] && Affine(AI.b1[7], AI.w1[7], x, 3) == 0
  {
    hide Affine, Mul;
    Halves(x[0]);
    Halves(x[1]);
    Units(x[0]);
    Units(x[1]);
    Units(x[2]);
    Affine3(AI.b1[4], AI.w1[4], x);
    Affine3(AI.b1[5], AI.w1[5], x);
    Affine3(AI.b1[6], AI.w1[6], x);
    Affine3(AI.b1[7], AI.w1[7], x);
  }

  /** Where the mirror's activations can be lower, in terms of the input. */
  lemma DriftSigns(x: seq<int>, h: seq<int>, g: seq<int>)
    requires Drifts(x, h, g)
    ensures JustBelow(h, g) && h[7] == g[7]
    ensures h[0] != g[0] ==> x[2] < 0
    ensures h[1] != g[1] ==> x[2] > 0
    ensures h[2] != g[2] ==> x[0] < 32768
    ensures h[3] != g[3] ==> x[1] < 32768
    ensures h[4] != g[4] ==> x[0] < 0 || x[1] < 0
    ensures h[6] != g[6] ==> x[0] + x[2] < 0
  {
    hide Affine, Hidden, FloorHidden;
    FirstSums(x);
    LastSums(x);
    forall i | 0 <= i < 8
      ensures |h| == 8 == |g| && 0 <= h[i] - g[i] <= 1
      ensures h[i] != g[i] ==> Affine(AI.b1[i], AI.w1[i], x, 3) < 0
    {
      DriftNegative(x, i);
    }
  }

  /** No score of the mirror is more than 7 units in the last place from the kernel's. */
  lemma ScoreDrift(x: seq<int>, h: seq<int>, g: seq<int>)
    requires Drifts(x, h, g)
    ensures JustBelow(h, g) && -5 <= Loss(h, g, 0) <= 2 && -4 <= Loss(h, g, 1) <= 4 && -1 <= Loss(h, g, 2) <= 7
  {
    hide Drifts, Loss, Quarter, Half;
    DriftSigns(x, h, g);
    Losses(h, g);
  }

  lemma OutputDrift(x: seq<int>, j: nat)
    requires |x| == 3 && j < 3
    ensures |Hidden(AI, x)| == 8 && Abs(Output(Hidden(AI, x), j) - Output(FloorHidden(x), j)) <= 7
  {
    hide Hidden, FloorHidden, Score;
    ScoreDrift(x, Hidden(AI, x), FloorHidden(x));
  }

  lemma OutputsAt(h: seq<int>)
    requires |h| == 8
    ensures |Outputs(h)| == 3 && forall j :: 0 <= j < 3 ==> Outputs(h)[j] == Output(h, j)
  {
  }

  // ---- When the decisions agree -------------------------------------------------

  /** The kernel decides for `ours`, by more than `d`. */
  ghost predicate Leads(h: seq<int>, ours: nat, d: nat)
    requires |h| == 8
  {
    FirstMax(Outputs(h), ours) && forall j :: 0 <= j < 3 && j != ours ==> Outputs(h)[j] + d < Outputs(h)[ours]
  }

  lemma LeadInScores(h: seq<int>, ours: nat, j: nat, d: nat)
    requires |h| == 8 && Leads(h, ours, d) && j < 3 && j != ours
    ensures ours < 3 && Output(h, j) + d < Output(h, ours) && Score(AI, h, j) + d < Score(AI, h, ours)
  {
    hide Score, Outputs;
    OutputsAt(h);
    assert Output(h, j) == Outputs(h)[j] && Output(h, ours) == Outputs(h)[ours];
    ClampedLead(Score(AI, h, ours), Score(AI, h, j), d);
  }

  lemma ClampedLead(a: int, b: int, d: nat)
    requires Clamp(b, -4 * ONE, 4 * ONE) + d < Clamp(a, -4 * ONE, 4 * ONE)
    ensures b + d < a
  {
  }

  lemma StaysBehind(h: seq<int>, g: seq<int>, ours: nat, j: nat, d: nat)
    requires |h| == 8 == |g| && Leads(h, ours, d) && ours < 3 && j < 3 && j != ours
    requires Loss(h, g, ours) - Loss(h, g, j) <= d && Loss(h, g, ours) <= d && -Loss(h, g, j) <= d
    ensures Output(g, j) < Output(g, ours)
  {
    hide Score, Leads;
    LeadInScores(h, ours, j, d);
    KeptLead(Score(AI, h, ours), Score(AI, h, j), Score(AI, g, ours), Score(AI, g, j), d);
  }

  /** A lead that no pair of scores can lose survives, the clamping of the outputs included. */
  lemma LeadSurvives(h: seq<int>, g: seq<int>, ours: nat, theirs: nat, d: nat)
    requires |h| == 8 == |g| && Leads(h, ours, d) && FirstMax(Outputs(g), theirs)
    requires ours < 3 && theirs < 3 && ours != theirs ==>
               Loss(h, g, ours) - Loss(h, g, theirs) <= d && Loss(h, g, ours) <= d && -Loss(h, g, theirs) <= d
    ensures ours == theirs
  {
    hide Outputs, Output, Loss;
    OutputsAt(h);
    OutputsAt(g);
    if ours != theirs {
      StaysBehind(h, g, ours, theirs, d);
    }
  }

  lemma KeptLead(a: int, b: int, a': int, b': int, d: nat)
    requires Clamp(b, -4 * ONE, 4 * ONE) + d < Clamp(a, -4 * ONE, 4 * ONE)
    requires (a - a') - (b - b') <= d && a - a' <= d && b' - b <= d
    ensures Clamp(b', -4 * ONE, 4 * ONE) < Clamp(a', -4 * ONE, 4 * ONE)
  {
  }

  /** What each pair of scores can lose. */
  lemma PairLosses(h: seq<int>, g: seq<int>)
    requires JustBelow(h, g) && h[7] == g[7]
    ensures Loss(h, g, 2) - Loss(h, g, 0) <= Quarter(h[0], g[0]) + 3 * (h[1] - g[1]) + 3 * (h[2] - g[2]) + 3 * (h[3] - g[3])
    ensures Loss(h, g, 2) - Loss(h, g, 1)
            <= 4 * (h[1] - g[1]) + 2 * (h[2] - g[2]) + 2 * (h[3] - g[3]) + (h[4] - g[4]) + (h[5] - g[5])
    ensures Loss(h, g, 1) - Loss(h, g, 0) <= 3 * (h[0] - g[0]) + (h[2] - g[2]) + (h[3] - g[3]) + 3 * (h[6] - g[6])
    ensures Loss(h, g, 0) - Loss(h, g, 1) <= 4 && Loss(h, g, 0) - Loss(h, g, 2) <= 2 && Loss(h, g, 1) - Loss(h, g, 2) <= 5
    ensures 0 <= Quarter(h[0], g[0]) <= h[0] - g[0]
  {
    hide Loss, Quarter, Half;
    Losses(h, g);
  }

  /** When the kernel's winner leads by more than 10, the mirror decides the same, on any
      integers. */
  lemma DecisionsAgree(x: seq<int>, ours: nat, theirs: nat)
    requires |x| == 3 && Leads(Hidden(AI, x), ours, 10) && FirstMax(Outputs(FloorHidden(x)), theirs)
    ensures ours == theirs
  {
    hide Hidden, FloorHidden, Loss, Quarter, Outputs, Leads, FirstMax;
    var h, g := Hidden(AI, x), FloorHidden(x);
    DriftSigns(x, h, g);
    PairLosses(h, g);
    ScoreDrift(x, h, g);
    LeadSurvives(h, g, ours, theirs, 10);
  }

  /** What the sensors can produce, whenever they are asked. */
  predicate Perceivable(x: seq<int>) {
    |x| == 3 && 0 <= x[0] <= ONE && 0 <= x[1] <= ONE
  }

  lemma HiddenIs(x: seq<int>, i: nat)
    requires |x| == 3 && i < 8
    ensures |Hidden(AI, x)| == 8 && Hidden(AI, x)[i] == Softsign(Affine(AI.b1[i], AI.w1[i], x, 3))
  {
  }

  lemma SignedNeurons(x: seq<int>)
    requires |x| == 3
    ensures var h := Hidden(AI, x);
            && |h| == 8 && h[1] == -h[0] && (x[2] >= 0 ==> h[0] >= 0) && (x[2] <= 0 ==> h[0] <= 0)
            && (x[0] <= 32768 ==> h[2] <= 0) && (x[1] <= 32768 ==> h[3] <= 0) && (x[0] + x[2] <= 0 ==> h[6] <= 0)
  {
    hide Affine, Softsign, Hidden;
    FirstSums(x);
    LastSums(x);
    HiddenIs(x, 0);
    HiddenIs(x, 1);
    HiddenIs(x, 2);
    HiddenIs(x, 3);
    HiddenIs(x, 6);
    SoftsignBound(2 * x[2]);
    SoftsignBound(2 * x[0] - 65536);
    SoftsignBound(2 * x[1] - 65536);
    SoftsignBound(x[0] + x[2]);
  }

  /** Under light load and late, REST does not beat BOOST. */
  lemma LateNeurons(x: seq<int>)
    requires Perceivable(x) && x[2] > 0 && x[0] < 32768 && x[1] < 32768
    ensures var h := Hidden(AI, x);
            && |h| == 8 && h[4] <= 21845 && h[5] <= 21845 && h[6] >= 0
            && (x[0] <= 16384 ==> h[2] <= -21845) && (x[0] >= 16384 ==> h[6] >= 13107)
  {
    hide Affine, Softsign, Hidden;
    FirstSums(x);
    LastSums(x);
    HiddenIs(x, 2);
    HiddenIs(x, 4);
    HiddenIs(x, 5);
    HiddenIs(x, 6);
    LateValues();
    SoftsignMonotone(x[0] / 2 + x[1] / 2, 32768);
    SoftsignMonotone(32768 - x[0] - x[1] - x[2], 32768);
    SoftsignBound(x[0] + x[2]);
    if x[0] <= 16384 {
      SoftsignMonotone(2 * x[0] - 65536, -32768);
    }
    if x[0] >= 16384 {
      SoftsignMonotone(16384, x[0] + x[2]);
    }
  }

  lemma LateValues()
    ensures Softsign(32768) == 21845 && Softsign(-32768) == -21845 && Softsign(16384) == 13107
  {
  }

  lemma NoRestWhenLate(x: seq<int>)
    requires Perceivable(x) && x[2] > 0 && x[0] < 32768 && x[1] < 32768
    ensures |Hidden(AI, x)| == 8 && Score(AI, Hidden(AI, x), 2) <= Score(AI, Hidden(AI, x), 1)
  {
    hide Hidden, Score, Mul;
    SignedNeurons(x);
    LateNeurons(x);
    PlainScores(Hidden(AI, x));
  }

  /** Under light load and early, BOOST hardly beats SUSTAIN. */
  lemma NoBoostWhenEarly(x: seq<int>)
    requires Perceivable(x) && x[0] < 32768 && x[1] < 32768 && x[0] + x[2] < 0
    ensures |Hidden(AI, x)| == 8 && Score(AI, Hidden(AI, x), 1) <= Score(AI, Hidden(AI, x), 0) + 7
  {
    hide Hidden, Score, Mul;
    SignedNeurons(x);
    EarlyNeurons(x);
    PlainScores(Hidden(AI, x));
  }

  lemma EarlyNeurons(x: seq<int>)
    requires Perceivable(x) && x[0] < 32768 && x[1] < 32768 && x[2] < 0
    ensures |Hidden(AI, x)| == 8 && Hidden(AI, x)[4] + Hidden(AI, x)[5] >= 0 && Hidden(AI, x)[7] == 0
  {
    hide Affine, Softsign, Hidden;
    LastSums(x);
    HiddenIs(x, 4);
    HiddenIs(x, 5);
    HiddenIs(x, 7);
    var s := 32768 - x[0] - x[1] - x[2];
    SoftsignBound(s);
    SoftsignBound(0);
    SoftsignMonotone(-s, x[0] / 2 + x[1] / 2);
  }

  /** Exact for what the sensors can produce: more than 7 is enough. */
  lemma PerceivedAgree(x: seq<int>, ours: nat, theirs: nat)
    requires Perceivable(x) && Leads(Hidden(AI, x), ours, 7) && FirstMax(Outputs(FloorHidden(x)), theirs)
    ensures ours == theirs
  {
    hide Hidden, FloorHidden, Loss, Quarter, Outputs, Leads, FirstMax, Score;
    var h, g := Hidden(AI, x), FloorHidden(x);
    DriftSigns(x, h, g);
    PairLosses(h, g);
    ScoreDrift(x, h, g);
    if ours == 2 && h[1] != g[1] && h[2] != g[2] && h[3] != g[3] {
      NoRestWhenLate(x);
      LeadInScores(h, 2, 1, 7);
    } else if ours == 1 && h[0] != g[0] && h[2] != g[2] && h[3] != g[3] && h[6] != g[6] {
      NoBoostWhenEarly(x);
      LeadInScores(h, 1, 0, 7);
    } else {
      LeadSurvives(h, g, ours, theirs, 7);
    }
  }

  /** Exact for what the kernel perceives, where the timer input is at rest: more than 6 is
      enough. */
  lemma RestingAgree(x: seq<int>, ours: nat, theirs: nat)
    requires Perceivable(x) && x[2] == -ONE && Leads(Hidden(AI, x), ours, 6) && FirstMax(Outputs(FloorHidden(x)), theirs)
    ensures ours == theirs
  {
    hide Hidden, FloorHidden, Loss, Quarter, Outputs, FirstMax, Score;
    var h, g := Hidden(AI, x), FloorHidden(x);
    DriftSigns(x, h, g);
    PairLosses(h, g);
    ScoreDrift(x, h, g);
    RestingQuarter(x);
    NeverBoosts(x, ours);
    RestingLoss(h, g);
    LeadSurvives(h, g, ours, theirs, 6);
  }

  lemma RestingQuarter(x: seq<int>)
    requires |x| == 3 && x[2] == -ONE
    ensures |Hidden(AI, x)| == 8 == |FloorHidden(x)| && Quarter(Hidden(AI, x)[0], FloorHidden(x)[0]) == 0
  {
    hide Affine;
    FirstSums(x);
    RestingStep();
  }

  lemma RestingStep()
    ensures Softsign(-131072) == -43690 && FloorSoftsign(-131072) == -43691 && Quarter(-43690, -43691) == 0
  {
  }

  lemma RestingLoss(h: seq<int>, g: seq<int>)
    requires JustBelow(h, g) && h[1] == g[1] && h[4] == g[4]
    ensures Loss(h, g, 2) <= 5
  {
    hide Loss, Quarter, Half;
    Losses(h, g);
  }

  // ---- How sharp that is --------------------------------------------------------

  /** Next to the line where SUSTAIN and REST tie, with the timer input at rest and 6 ticks
      after an inference. */
  const REST_TIE: seq<int> := [27012, 12732, -65536]
  const LATE_TIE: seq<int> := [161, 32248, -57672]

  const REST_KERNEL: seq<int> := [-43690, 43690, -9791, -24867, 15248, 30925, -24262, 0]
  const REST_MIRROR: seq<int> := [-43691, 43690, -9792, -24868, 15248, 30925, -24263, 0]
  const LATE_KERNEL: seq<int> := [-41791, 41791, -32687, -1023, 12991, 30777, -30630, 0]
  const LATE_MIRROR: seq<int> := [-41792, 41791, -32688, -1024, 12991, 30777, -30631, 0]

  /** The activations of an input, from those of its eight sums. */
  lemma Activations(x: seq<int>, h: seq<int>, g: seq<int>)
    requires |x| == 3 && |h| == 8 == |g|
    requires forall i :: 0 <= i < 8 ==>
               Softsign(Affine(AI.b1[i], AI.w1[i], x, 3)) == h[i] && FloorSoftsign(Affine(AI.b1[i], AI.w1[i], x, 3)) == g[i]
    ensures Hidden(AI, x) == h && FloorHidden(x) == g
  {
    hide Affine, Softsign, FloorSoftsign;
    forall i | 0 <= i < 8
      ensures Hidden(AI, x)[i] == h[i] && FloorHidden(x)[i] == g[i]
    {
    }
  }

  lemma RestQuotients()
    ensures Softsign(-131072) == -43690 && FloorSoftsign(-131072) == -43691
    ensures Softsign(131072) == 43690 && FloorSoftsign(131072) == 43690
    ensures Softsign(-11512) == -9791 && FloorSoftsign(-11512) == -9792
    ensures Softsign(-40072) == -24867 && FloorSoftsign(-40072) == -24868
    ensures Softsign(19872) == 15248 && FloorSoftsign(19872) == 15248
    ensures Softsign(58560) == 30925 && FloorSoftsign(58560) == 30925
    ensures Softsign(-38524) == -24262 && FloorSoftsign(-38524) == -24263
    ensures Softsign(0) == 0 && FloorSoftsign(0) == 0
  {
  }

  lemma LateQuotients()
    ensures Softsign(-115344) == -41791 && FloorSoftsign(-115344) == -41792
    ensures Softsign(115344) == 41791 && FloorSoftsign(115344) == 41791
    ensures Softsign(-65214) == -32687 && FloorSoftsign(-65214) == -32688
    ensures Softsign(-1040) == -1023 && FloorSoftsign(-1040) == -1024
    ensures Softsign(16204) == 12991 && FloorSoftsign(16204) == 12991
    ensures Softsign(58031) == 30777 && FloorSoftsign(58031) == 30777
    ensures Softsign(-57511) == -30630 && FloorSoftsign(-57511) == -30631
    ensures Softsign(0) == 0 && FloorSoftsign(0) == 0
  {
  }

  lemma RestActivations()
    ensures Hidden(AI, REST_TIE) == REST_KERNEL && FloorHidden(REST_TIE) == REST_MIRROR
  {
    hide Affine, Softsign, FloorSoftsign, Hidden, FloorHidden;
    FirstSums(REST_TIE);
    LastSums(REST_TIE);
    RestQuotients();
    Activations(REST_TIE, REST_KERNEL, REST_MIRROR);
  }

  lemma LateActivations()
    ensures Hidden(AI, LATE_TIE) == LATE_KERNEL && FloorHidden(LATE_TIE) == LATE_MIRROR
  {
    hide Affine, Softsign, FloorSoftsign, Hidden, FloorHidden;
    FirstSums(LATE_TIE);
    LastSums(LATE_TIE);
    LateQuotients();
    Activations(LATE_TIE, LATE_KERNEL, LATE_MIRROR);
  }

  lemma RestOutputs()
    ensures Outputs(REST_KERNEL) == [37813, -246371, 37819] && Outputs(REST_MIRROR) == [37815, -246375, 37815]
  {
    hide Score;
    PlainScores(REST_KERNEL);
    PlainScores(REST_MIRROR);
  }

  lemma LateOutputs()
    ensures Outputs(LATE_KERNEL) == [37965, -250309, 37972] && Outputs(LATE_MIRROR) == [37968, -250313, 37968]
  {
    hide Score;
    PlainScores(LATE_KERNEL);
    PlainScores(LATE_MIRROR);
  }

  /** Not every decision agrees: on these inputs the kernel rests, by 6 and by 7, and the
      mirror sustains. */
  lemma DecisionsDiffer()
    ensures Perceivable(REST_TIE) && Leads(Hidden(AI, REST_TIE), REST, 5) && FirstMax(Outputs(FloorHidden(REST_TIE)), SUSTAIN)
    ensures Perceivable(LATE_TIE) && Leads(Hidden(AI, LATE_TIE), REST, 6) && FirstMax(Outputs(FloorHidden(LATE_TIE)), SUSTAIN)
  {
    hide Outputs, Hidden, FloorHidden;
    RestActivations();
    RestOutputs();
    LateActivations();
    LateOutputs();
  }

  /** The sensors produce both: with 27012/65536 of the heap and 12732/65536 of the pages in use
      during an inference, and with 161/65536 and 32248/65536 in use 6 ticks after one. */
  lemma TieIsPerceived()
    ensures Perceive(0, Sensors(27012, 65536, 52804, 65536)) == REST_TIE
    ensures Perceive(6, Sensors(161, 65536, 33288, 65536)) == LATE_TIE
  {
    hide FromRatio;
    OutOfOne(27012);
    OutOfOne(12732);
    OutOfOne(161);
    OutOfOne(32248);
    TickRatios();
  }

  lemma OutOfOne(n: u32)
    requires n <= 65536
    ensures FromRatio(n, 65536) == n
  {
  }

  lemma TickRatios()
    ensures FromRatio(0, 50) == 0 && FromRatio(6, 50) == 7864
  {
  }

  /** On a perceivable input the kernel decides for `ours` by more than `d`, and the mirror for
      `theirs`. */
  ghost predicate Decided(x: seq<int>, ours: nat, theirs: nat, d: nat) {
    Perceivable(x) && Leads(Hidden(AI, x), ours, d) && FirstMax(Outputs(FloorHidden(x)), theirs)
  }

  /** A lead of more than `d` always makes the mirror decide like the kernel. */
  ghost predicate LeadSuffices(d: nat, resting: bool) {
    forall x, ours, theirs :: Decided(x, ours, theirs, d) && (resting ==> x[2] == -ONE) ==> ours == theirs
  }

  lemma LessLead(x: seq<int>, ours: nat, theirs: nat, d: nat, c: nat)
    requires Decided(x, ours, theirs, d) && c <= d
    ensures Decided(x, ours, theirs, c)
  {
    hide Outputs, Activation, FloorActivation;
  }

  lemma TiesDecided()
    ensures Decided(REST_TIE, REST, SUSTAIN, 5) && Decided(LATE_TIE, REST, SUSTAIN, 6)
  {
    hide Hidden, FloorHidden, Outputs, Leads, FirstMax;
    DecisionsDiffer();
  }

  lemma Agrees(x: seq<int>, ours: nat, theirs: nat, d: nat)
    requires Decided(x, ours, theirs, d)
    ensures d >= 7 || (d >= 6 && x[2] == -ONE) ==> ours == theirs
  {
    hide Outputs, Leads, FirstMax, Activation, FloorActivation;
    if d >= 7 {
      LessLead(x, ours, theirs, d, 7);
      PerceivedAgree(x, ours, theirs);
    } else if d == 6 && x[2] == -ONE {
      RestingAgree(x, ours, theirs);
    }
  }

  /** The exact lead: 6 in the kernel's inferences, 7 for everything the sensors can produce. */
  lemma LeadSufficesIff(d: nat)
    ensures LeadSuffices(d, true) <==> d >= 6
    ensures LeadSuffices(d, false) <==> d >= 7
  {
    TiesDecided();
    if d < 6 {
      LessLead(REST_TIE, REST, SUSTAIN, 5, d);
    }
    if d < 7 {
      LessLead(LATE_TIE, REST, SUSTAIN, 6, d);
    }
    DecidedPerceivable(d);
    hide Decided;
    forall x, ours, theirs | Decided(x, ours, theirs, d)
      ensures d >= 7 || (d >= 6 && x[2] == -ONE) ==> ours == theirs
    {
      Agrees(x, ours, theirs, d);
    }
  }

  lemma DecidedPerceivable(d: nat)
    ensures forall x, ours, theirs :: Decided(x, ours, theirs, d) ==> |x| == 3
  {
    hide Outputs, Leads, FirstMax, Activation, FloorActivation;
  }

  // ---- Acting -----------------------------------------------------------------

  /** act of the mirror. */
  function MirrorAct(hz: nat, action: nat): nat {
    if action == BOOST then if hz + 25 <= 200 then hz + 25 else hz
    else if action == REST then if hz >= 45 then hz - 25 else hz
    else hz
  }

  /** The mirror steps the rate like the kernel at level 2; at lower levels only where neither
      moves it. */
  lemma ActAgrees(action: nat, level: nat, hz: nat)
    requires level <= 2
    ensures MirrorAct(hz, action) == Act(action, level, hz)
       <==> level == 2 || ((action == BOOST ==> hz > 175) && (action == REST ==> hz < 45))
  {
  }
}
