/** The in-kernel decision network: three inputs, eight hidden neurons, three actions. */
module AiCore {
  import opened Bytes
  import opened FixedPoint
  import opened Network

  const SUSTAIN := 0
  const BOOST := 1
  const REST := 2

  const PERIOD_TICKS := 50

  const AI := Net(
    [[0, 0, 131072],
     [0, 0, -131072],
     [131072, 0, 0],
     [0, 131072, 0],
     [32768, 32768, 0],
     [-65536, -65536, -65536],
     [65536, 0, 65536],
     [0, 0, 0]],
    [0, 0, -65536, -65536, 0, 32768, 0, 0],
    [[-16384, -16384, -16384, -16384, 32768, 32768, -16384, 32768],
     [131072, -131072, 0, 0, -32768, -32768, 131072, 0],
     [0, 131072, 131072, 131072, 32768, 0, -32768, 0]],
    [0, 0, 0])

  /** What the memory managers report. */
  datatype Sensors = Sensors(heapUsed: u32, heapCap: u32, pagesFree: u32, pagesTotal: u32) {
    predicate Sane() {
      heapUsed <= heapCap && pagesFree <= pagesTotal
    }
  }

  /** The timer input can be computed without signed overflow. */
  predicate TimerDefined(ticksSince: u32) {
    Fits32(FromRatio(ticksSince, PERIOD_TICKS) - ONE)
  }

  /** ai_perceive; the difference of the page counts is unsigned. */
  function Perceive(ticksSince: u32, m: Sensors): (x: seq<i32>)
    requires TimerDefined(ticksSince)
    ensures |x| == 3 && -2 * ONE <= x[2] <= 2 * ONE && (ticksSince == 0 ==> x[2] == -ONE)
    ensures m.Sane() ==> Within(x, 2) && 0 <= x[0] <= ONE && 0 <= x[1] <= ONE
    ensures m.Sane() ==> IsFraction(x[0], m.heapUsed, m.heapCap) && IsFraction(x[1], m.pagesTotal - m.pagesFree, m.pagesTotal)
  {
    if m.Sane() then UnitInputs(m); Readings(ticksSince, m) else Readings(ticksSince, m)
  }

  function Readings(ticksSince: u32, m: Sensors): seq<i32>
    requires TimerDefined(ticksSince)
  {
    [FromRatio(m.heapUsed, m.heapCap), FromRatio(Sub32(m.pagesTotal, m.pagesFree), m.pagesTotal),
     Clamp(FromRatio(ticksSince, PERIOD_TICKS) - ONE, -2 * ONE, 2 * ONE)]
  }

  lemma UnitInputs(m: Sensors)
    requires m.Sane()
    ensures Sub32(m.pagesTotal, m.pagesFree) == m.pagesTotal - m.pagesFree
    ensures 0 <= FromRatio(m.heapUsed, m.heapCap) <= ONE && 0 <= FromRatio(m.pagesTotal - m.pagesFree, m.pagesTotal) <= ONE
    ensures IsFraction(FromRatio(m.heapUsed, m.heapCap), m.heapUsed, m.heapCap)
    ensures IsFraction(FromRatio(m.pagesTotal - m.pagesFree, m.pagesTotal), m.pagesTotal - m.pagesFree, m.pagesTotal)
  {
    hide IsFraction, FromRatio;
    FractionInUnit(m.heapUsed, m.heapCap);
    FractionInUnit(m.pagesTotal - m.pagesFree, m.pagesTotal);
    FractionRounds(m.heapUsed, m.heapCap);
    FractionRounds(m.pagesTotal - m.pagesFree, m.pagesTotal);
  }

  // ---- The weights ------------------------------------------------------------

  lemma Norm3(w: seq<int>)
    requires |w| == 3
    ensures Norm(w, 3) == Abs(w[0]) + Abs(w[1]) + Abs(w[2])
  {
    assert Norm(w, 1) == Abs(w[0]);
    assert Norm(w, 2) == Abs(w[0]) + Abs(w[1]);
  }

  lemma Norm8(w: seq<int>)
    requires |w| == 8
    ensures Norm(w, 8) == Abs(w[0]) + Abs(w[1]) + Abs(w[2]) + Abs(w[3]) + Abs(w[4]) + Abs(w[5]) + Abs(w[6]) + Abs(w[7])
  {
    assert Norm(w, 1) == Abs(w[0]);
    assert Norm(w, 2) == Norm(w, 1) + Abs(w[1]);
    assert Norm(w, 3) == Norm(w, 2) + Abs(w[2]);
    assert Norm(w, 4) == Norm(w, 3) + Abs(w[3]);
    assert Norm(w, 5) == Norm(w, 4) + Abs(w[4]);
    assert Norm(w, 6) == Norm(w, 5) + Abs(w[5]);
    assert Norm(w, 7) == Norm(w, 6) + Abs(w[6]);
  }

  /** The shipped weights leave room for every input within 10922 units, and scores always
      fit. */
  lemma Fits()
    ensures Bounded(AI, 3, 10922) && ScoresFit(AI)
  {
    hide Norm;
    forall i | 0 <= i < 8
      ensures Reach(AI.b1[i], AI.w1[i], 10922) <= 2147418111
    {
      Norm3(AI.w1[i]);
    }
    forall j | 0 <= j < 3
      ensures Reach(AI.b2[j], AI.w2[j], 1) < 0x8000_0000
    {
      Norm8(AI.w2[j]);
    }
  }

  /** One unit more is too much. */
  lemma FitsTight()
    ensures var x := [-715849728, -715849728, -715849728]; Within(x, 10923) && !Defined(AI, x)
  {
    var x := [-715849728, -715849728, -715849728];
    Affine3(AI.b1[5], AI.w1[5], x);
    assert !Fits32(Affine(AI.b1[5], AI.w1[5], x, 3));
  }

  // ---- Deciding ---------------------------------------------------------------

  /** One output: the score, clamped to four units. */
  function Output(h: seq<int>, j: nat): (r: int)
    requires |h| == 8 && j < 3
    ensures -262144 <= r <= 262144 && (-262144 <= Score(AI, h, j) <= 262144 <==> r == Score(AI, h, j))
  {
    Clamp(Score(AI, h, j), -4 * ONE, 4 * ONE)
  }

  function Outputs(h: seq<int>): seq<int>
    requires |h| == 8
  {
    [Output(h, 0), Output(h, 1), Output(h, 2)]
  }

  /** ai_decide: the first action with the largest output, for every input that stays within 32
      bits. */
  method Decide(x: seq<i32>) returns (best: nat)
    requires |x| == 3 && Defined(AI, x)
    ensures FirstMax(Outputs(Hidden(AI, x)), best)
  {
    hide Score, Reach, Defined;
    Fits();
    var h := HiddenLayer(AI, x);
    var out := new int[3];
    best := 0;
    var j := 0;
    while j < 3
      invariant 0 <= j <= out.Length == 3 && 0 <= best < 3 && (j == 0 ==> best == 0) && (j > 0 ==> best < j)
      invariant forall m :: 0 <= m < j ==> out[m] == Output(h, m) && out[m] <= out[best]
      invariant forall m :: 0 <= m < best ==> out[m] < out[best]
    {
      SumWithin(AI.b2[j], AI.w2[j], h, 1);
      var s := WeightedSum(AI.b2[j], AI.w2[j], h);
      ScoreIs(h, j);
      out[j] := Clamp(s, -4 * ONE, 4 * ONE);
      if out[j] > out[best] {
        best := j;
      }
      j := j + 1;
    }
  }

  lemma ScoreIs(h: seq<int>, j: nat)
    requires |h| == 8 && j < 3
    ensures Score(AI, h, j) == Affine(AI.b2[j], AI.w2[j], h, 8)
  {
  }

  // ---- What the network can decide ----------------------------------------------

  lemma Affine3(b: int, w: seq<int>, x: seq<int>)
    requires |w| == 3 && |x| == 3
    ensures Affine(b, w, x, 3) == b + Mul(w[0], x[0]) + Mul(w[1], x[1]) + Mul(w[2], x[2])
  {
    hide Mul;
    assert Affine(b, w, x, 1) == b + Mul(w[0], x[0]);
    assert Affine(b, w, x, 2) == Affine(b, w, x, 1) + Mul(w[1], x[1]);
  }

  lemma Affine8(b: int, w: seq<int>, x: seq<int>)
    requires |w| == 8 && |x| == 8
    ensures Affine(b, w, x, 8) == b + Mul(w[0], x[0]) + Mul(w[1], x[1]) + Mul(w[2], x[2]) + Mul(w[3], x[3])
                                  + Mul(w[4], x[4]) + Mul(w[5], x[5]) + Mul(w[6], x[6]) + Mul(w[7], x[7])
  {
    hide Mul;
    assert Affine(b, w, x, 1) == b + Mul(w[0], x[0]);
    assert Affine(b, w, x, 2) == Affine(b, w, x, 1) + Mul(w[1], x[1]);
    assert Affine(b, w, x, 3) == Affine(b, w, x, 2) + Mul(w[2], x[2]);
    assert Affine(b, w, x, 4) == Affine(b, w, x, 3) + Mul(w[3], x[3]);
    assert Affine(b, w, x, 5) == Affine(b, w, x, 4) + Mul(w[4], x[4]);
    assert Affine(b, w, x, 6) == Affine(b, w, x, 5) + Mul(w[5], x[5]);
    assert Affine(b, w, x, 7) == Affine(b, w, x, 6) + Mul(w[6], x[6]);
  }

  /** Bounds on the neurons when the timer input is at its resting value. */
  lemma RestingNeurons(x: seq<int>)
    requires |x| == 3 && 0 <= x[0] <= ONE && 0 <= x[1] <= ONE && x[2] == -ONE
    ensures var h := Hidden(AI, x);
            && |h| == 8 && h[0] == -43690 && h[1] == 43690 && h[2] <= 32768 && h[3] <= 32768
            && 0 <= h[4] && -21845 <= h[5] && h[6] <= 0 && h[7] == 0
  {
    hide Softsign, Affine;
    RestingSums(x);
    RestingValues();
    SoftsignMonotone(Affine(AI.b1[2], AI.w1[2], x, 3), 65536);
    SoftsignMonotone(Affine(AI.b1[3], AI.w1[3], x, 3), 65536);
    SoftsignBound(Affine(AI.b1[4], AI.w1[4], x, 3));
    SoftsignMonotone(-32768, Affine(AI.b1[5], AI.w1[5], x, 3));
    SoftsignBound(Affine(AI.b1[6], AI.w1[6], x, 3));
  }

  lemma RestingSums(x: seq<int>)
    requires |x| == 3 && 0 <= x[0] <= ONE && 0 <= x[1] <= ONE && x[2] == -ONE
    ensures Affine(AI.b1[0], AI.w1[0], x, 3) == -131072 && Affine(AI.b1[1], AI.w1[1], x, 3) == 131072
    ensures Affine(AI.b1[2], AI.w1[2], x, 3) <= 65536 && Affine(AI.b1[3], AI.w1[3], x, 3) <= 65536
    ensures Affine(AI.b1[4], AI.w1[4], x, 3) >= 0 && Affine(AI.b1[5], AI.w1[5], x, 3) >= -32768
    ensures Affine(AI.b1[6], AI.w1[6], x, 3) <= 0 && Affine(AI.b1[7], AI.w1[7], x, 3) == 0
  {
    hide Affine;
    Affine3(AI.b1[0], AI.w1[0], x);
    Affine3(AI.b1[1], AI.w1[1], x);
    Affine3(AI.b1[2], AI.w1[2], x);
    Affine3(AI.b1[3], AI.w1[3], x);
    Affine3(AI.b1[4], AI.w1[4], x);
    Affine3(AI.b1[5], AI.w1[5], x);
    Affine3(AI.b1[6], AI.w1[6], x);
    Affine3(AI.b1[7], AI.w1[7], x);
  }

  lemma RestingValues()
    ensures Softsign(-131072) == -43690 && Softsign(131072) == 43690 && Softsign(0) == 0
    ensures Softsign(65536) == 32768 && Softsign(-32768) == -21845
  {
  }

  /** The timer input is at rest in every inference, and then the network never chooses BOOST. */
  lemma NeverBoosts(x: seq<int>, best: nat)
    requires |x| == 3 && 0 <= x[0] <= ONE && 0 <= x[1] <= ONE && x[2] == -ONE
    requires FirstMax(Outputs(Hidden(AI, x)), best)
    ensures best != BOOST
  {
    hide Hidden, Affine;
    var h := Hidden(AI, x);
    RestingNeurons(x);
    Affine8(AI.b2[0], AI.w2[0], h);
    Affine8(AI.b2[1], AI.w2[1], h);
    assert Outputs(h)[0] == Output(h, 0) && Outputs(h)[1] == Output(h, 1);
  }

  // ---- Acting -----------------------------------------------------------------

  datatype Band = Band(step: nat, low: nat, high: nat)

  /** The step and the limits that the awareness level selects. */
  function BandOf(level: nat): Band {
    if level <= 1 then Band(12, 80, 120)
    else if level >= 3 then Band(50, 50, 200)
    else Band(25, 20, 200)
  }

  /** ai_act: the new timer rate. */
  function Act(action: nat, level: nat, hz: nat): nat {
    var b := BandOf(level);
    if action == BOOST then if hz + b.step <= b.high then hz + b.step else hz
    else if action == REST then if hz >= b.low + b.step then hz - b.step else hz
    else hz
  }

  /** The rates at which an action takes effect, and by how much, level by level. */
  lemma ActExact(level: nat, hz: nat)
    ensures Act(BOOST, level, hz) == hz + if level <= 1 then (if hz <= 108 then 12 else 0)
                                          else if level == 2 then (if hz <= 175 then 25 else 0)
                                          else (if hz <= 150 then 50 else 0)
    ensures Act(REST, level, hz) == hz - if level <= 1 then (if hz >= 92 then 12 else 0)
                                         else if level == 2 then (if hz >= 45 then 25 else 0)
                                         else (if hz >= 100 then 50 else 0)
  {
  }

  /** Whatever the level, the rate stays within the policy limits, and a step of 50 needs
      level 3. Once inside the band of a level it stays there while the level does. */
  lemma ActInRange(action: nat, level: nat, hz: nat)
    requires 20 <= hz <= 200
    ensures 20 <= Act(action, level, hz) <= 200
    ensures level <= 2 ==> Abs(Act(action, level, hz) - hz) <= 25
    ensures level <= 1 ==> Abs(Act(action, level, hz) - hz) <= 12
    ensures level <= 1 && 80 <= hz <= 120 ==> 80 <= Act(action, level, hz) <= 120
    ensures level >= 3 && 50 <= hz ==> 50 <= Act(action, level, hz)
  {
  }

  /** BOOST only raises and REST only lowers the rate, other actions leave it, and REST takes
      back what BOOST added at a rate inside the band. */
  lemma ActDirection(level: nat, hz: nat, other: nat)
    requires other != BOOST && other != REST
    ensures Act(REST, level, hz) <= Act(other, level, hz) == hz <= Act(BOOST, level, hz)
    ensures Act(BOOST, level, hz) != hz && hz >= BandOf(level).low ==> Act(REST, level, Act(BOOST, level, hz)) == hz
    ensures Act(REST, level, hz) != hz && hz <= BandOf(level).high ==> Act(BOOST, level, Act(REST, level, hz)) == hz
  {
  }
}
