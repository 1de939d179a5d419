/** The learning engine: fixed-point Q-learning with experience replay. */
module QLearning {
  import opened Bytes
  import opened FixedPoint

  const STATES := 8
  const ACTIONS := 3
  const MEMORY := 32
  const ALPHA := 1638
  const GAMMA := 52428
  const EPSILON := 1638

  type i16 = x: int | -0x8000 <= x < 0x8000

  datatype Memory = Memory(state: nat, action: nat, reward: i16, next: nat, done: bool) {
    predicate Valid() {
      state < STATES && action < ACTIONS && next < STATES
    }
  }

  type Table = seq<seq<int>>

  predicate Shaped(q: Table) {
    |q| == STATES && forall s :: 0 <= s < STATES ==> |q[s]| == ACTIONS
  }

  /** Every value is within one unit. */
  ghost predicate InHull(q: Table) {
    Shaped(q) && forall s, a :: 0 <= s < STATES && 0 <= a < ACTIONS ==> -ONE <= q[s][a] <= ONE
  }

  function MaxOf(row: seq<int>): (m: int)
    requires |row| == ACTIONS
    ensures m in row && forall a :: 0 <= a < ACTIONS ==> row[a] <= m
  {
    var m := if row[1] > row[0] then row[1] else row[0];
    if row[2] > m then row[2] else m
  }

  // ---- One update -------------------------------------------------------------

  /** A value after one step towards a target. */
  function Moved(c: int, target: int): int {
    c + Mul(ALPHA, target - c)
  }

  /** The step lands between the old value and the target. */
  lemma MovedBetween(c: int, t: int)
    ensures c <= t ==> c <= Moved(c, t) <= t
    ensures t <= c ==> t <= Moved(c, t) <= c
  {
  }

  /** Rounding down stops the ascent 40 units in the last place short of the target and never
      stops the descent. */
  lemma MovedStopsIff(c: int, t: int)
    ensures Moved(c, t) == c <==> 0 <= t - c <= 40
  {
  }

  /** A value after one update, before the clamp. */
  function Learned(c: int, maxNext: int, reward: int): int {
    Moved(c, reward + Mul(GAMMA, maxNext))
  }

  predicate RewardOk(r: int) {
    -13108 <= r <= 13148
  }

  lemma LearnedInHull(c: int, m: int, r: int)
    requires -ONE <= c <= ONE && -ONE <= m <= ONE && RewardOk(r)
    ensures -ONE <= Learned(c, m, r) <= ONE
  {
    assert -52428 <= Mul(GAMMA, m) <= 52428;
    MovedBetween(c, r + Mul(GAMMA, m));
  }

  /** The clamp has nothing to do, whatever the table, exactly for these rewards. */
  lemma ClampIdleIff(r: int)
    ensures (forall c, m :: -ONE <= c <= ONE && -ONE <= m <= ONE ==> -ONE <= Learned(c, m, r) <= ONE) <==> RewardOk(r)
  {
    if RewardOk(r) {
      forall c, m | -ONE <= c <= ONE && -ONE <= m <= ONE
        ensures -ONE <= Learned(c, m, r) <= ONE
      {
        LearnedInHull(c, m, r);
      }
    } else {
      Extremes(r);
      assert !(-ONE <= Learned(ONE, ONE, r) <= ONE && -ONE <= Learned(-ONE, -ONE, r) <= ONE);
    }
  }

  lemma Extremes(r: int)
    ensures r > 13148 ==> Learned(ONE, ONE, r) > ONE
    ensures r < -13108 ==> Learned(-ONE, -ONE, r) < -ONE
  {
  }

  // ---- Runs -------------------------------------------------------------------

  /** The textbook update of a table. */
  function Learn(q: Table, e: Memory): (r: Table)
    requires Shaped(q) && e.Valid()
    ensures Shaped(r)
  {
    q[e.state := q[e.state][e.action := Learned(q[e.state][e.action], MaxOf(q[e.next]), e.reward)]]
  }

  /** The update of the source: clamped to one unit. */
  function Step(q: Table, e: Memory): (r: Table)
    requires Shaped(q) && e.Valid()
    ensures Shaped(r)
  {
    q[e.state := q[e.state][e.action := Clamp(Learned(q[e.state][e.action], MaxOf(q[e.next]), e.reward), -ONE, ONE)]]
  }

  /** Fixed-point rounding aside, the update is Q-learning with rate 1638/65536 and discount
      52428/65536: the value of the state and action moves towards the reward plus the discounted
      best value of the next state, less than 1.025 units in the last place too low, and no
      other value changes. */
  lemma LearnMeans(q: Table, e: Memory, s: nat, a: nat)
    requires Shaped(q) && e.Valid() && s < STATES && a < ACTIONS
    ensures s != e.state || a != e.action ==> Learn(q, e)[s][a] == q[s][a]
    ensures var v, best := q[e.state][e.action] as real, MaxOf(q[e.next]) as real;
            var exact := v + 1638.0 / 65536.0 * (e.reward as real + 52428.0 / 65536.0 * best - v);
            exact - 1.025 < Learn(q, e)[e.state][e.action] as real <= exact
  {
    RoundedMove(q[e.state][e.action], MaxOf(q[e.next]), e.reward);
  }

  lemma RoundedMove(c: int, m: int, r: int)
    ensures var exact := c as real + 1638.0 / 65536.0 * (r as real + 52428.0 / 65536.0 * m as real - c as real);
            exact - 1.025 < Learned(c, m, r) as real <= exact
  {
    var g := Mul(GAMMA, m);
    assert 65536 * g <= 52428 * m < 65536 * g + 65536;
    var d := r + g - c;
    var u := Mul(ALPHA, d);
    assert 65536 * u <= 1638 * d < 65536 * u + 65536;
  }

  ghost predicate AllValid(es: seq<Memory>) {
    forall i :: 0 <= i < |es| ==> es[i].Valid()
  }

  function LearnAll(q: Table, es: seq<Memory>): (r: Table)
    requires Shaped(q) && forall i :: 0 <= i < |es| ==> es[i].Valid()
    ensures Shaped(r)
  {
    if es == [] then q else Learn(LearnAll(q, es[..|es| - 1]), es[|es| - 1])
  }

  function StepAll(q: Table, es: seq<Memory>): (r: Table)
    requires Shaped(q) && forall i :: 0 <= i < |es| ==> es[i].Valid()
    ensures Shaped(r)
  {
    if es == [] then q else Step(StepAll(q, es[..|es| - 1]), es[|es| - 1])
  }

  lemma StepInHull(q: Table, e: Memory)
    requires InHull(q) && e.Valid()
    ensures InHull(Step(q, e))
    ensures RewardOk(e.reward) ==> Step(q, e) == Learn(q, e)
  {
    hide Learned;
    if RewardOk(e.reward) {
      LearnedInHull(q[e.state][e.action], MaxOf(q[e.next]), e.reward);
    }
  }

  /** The clamp keeps every run in the hull; with rewards in range it never changes a value, so
      every run is the textbook one. */
  lemma {:induction false} NeverClamps(q: Table, es: seq<Memory>)
    requires InHull(q) && AllValid(es)
    ensures InHull(StepAll(q, es))
    ensures (forall i :: 0 <= i < |es| ==> RewardOk(es[i].reward)) ==> StepAll(q, es) == LearnAll(q, es)
  {
    hide Step, Learn;
    if es != [] {
      NeverClamps(q, es[..|es| - 1]);
      StepInHull(StepAll(q, es[..|es| - 1]), es[|es| - 1]);
    }
  }

  lemma {:induction false} StepAllAppend(q: Table, es: seq<Memory>, e: Memory)
    requires Shaped(q) && AllValid(es) && e.Valid()
    ensures AllValid(es + [e]) && StepAll(q, es + [e]) == Step(StepAll(q, es), e)
  {
    assert (es + [e])[..|es|] == es;
  }

  // ---- Metrics ------------------------------------------------------------------

  function ToInt16(x: int): i16 {
    (x + 0x8000) % 0x1_0000 - 0x8000
  }

  /** The bucket of the average pressure. */
  function Bucket(heapPct: u32, pagePct: u32): nat {
    Add32(heapPct, pagePct) / 2 * 8 % 0x1_0000_0000 / 100
  }

  function Pushed(bucket: nat, errors: u32): (s: nat)
    ensures s < STATES
  {
    var s := if errors > 10 then 7 else if errors > 5 && bucket < 6 then bucket + 2 else bucket;
    if s >= 8 then 7 else s
  }

  /** ai_learn_get_state. */
  function GetState(heapPct: u32, pagePct: u32, errors: u32): (s: nat)
    ensures s < STATES
  {
    Pushed(Bucket(heapPct, pagePct), errors)
  }

  lemma BucketIs(h: u32, p: u32)
    requires h + p <= 200
    ensures Bucket(h, p) == (h + p) / 2 * 8 / 100
  {
    hide Add32;
    SmallSum(h, p);
    SmallWord((h + p) / 2 * 8);
  }

  lemma SmallSum(h: u32, p: u32)
    requires h + p <= 200
    ensures Add32(h, p) == h + p
  {
  }

  lemma SmallWord(n: nat)
    requires n <= 800
    ensures n % 0x1_0000_0000 == n
  {
  }

  lemma BucketMonotone(h: u32, p: u32, h': u32, p': u32)
    requires h + p <= h' + p' <= 200
    ensures Bucket(h, p) <= Bucket(h', p')
  {
    hide Bucket;
    BucketIs(h, p);
    BucketIs(h', p');
  }

  /** The state is monotone in pressure, except that six to ten errors put the sixth bucket
      above the seventh. */
  lemma StateMonotoneIff(h: u32, p: u32, h': u32, p': u32, errors: u32)
    requires h + p <= h' + p' <= 200
    ensures GetState(h, p, errors) <= GetState(h', p', errors)
       <==> !(6 <= errors <= 10 && GetState(h, p, 0) == 5 && GetState(h', p', 0) == 6)
  {
    hide Bucket;
    BucketMonotone(h, p, h', p');
  }

  /** The eighth of the scale the average pressure falls into; more than ten errors mean the
      highest state, six to ten push by two where there is room. */
  lemma StateMeaning(h: u32, p: u32, errors: u32)
    requires h + p <= 200
    ensures var s := GetState(h, p, 0);
            && s * 100 <= (h + p) / 2 * 8 && (s < 7 ==> (h + p) / 2 * 8 < (s + 1) * 100)
            && GetState(h, p, errors) == if errors > 10 then 7 else if errors > 5 && s < 6 then s + 2 else s
  {
    hide Bucket;
    BucketIs(h, p);
  }

  /** What errors take off the reward, with the source's cast. */
  function Penalty(errors: u32): i16 {
    if errors > 0 then ToInt16(errors * 20 % 0x1_0000_0000) else 0
  }

  /** The reward before errors count. */
  function BaseReward(heapPct: u32, pagePct: u32, inferences: u32): int {
    (if inferences > 0 then 10 else 0) + (if heapPct < 50 then 5 else 0) + (if pagePct < 50 then 5 else 0)
    - (if heapPct > 80 then 15 else 0) - (if pagePct > 80 then 15 else 0) - (if heapPct > 95 then 50 else 0)
  }

  /** Where the reward falls as memory fills: by 5 at half of either kind, by 15 above 80 percent
      of either kind, and by 50 more above 95 percent of the heap. */
  lemma BaseRewardSteps(h: u32, p: u32, inferences: u32)
    requires h < 0xFFFF_FFFF && p < 0xFFFF_FFFF
    ensures BaseReward(h + 1, p, inferences) == BaseReward(h, p, inferences)
                                                - if h == 49 then 5 else if h == 80 then 15 else if h == 95 then 50 else 0
    ensures BaseReward(h, p + 1, inferences) == BaseReward(h, p, inferences) - if p == 49 then 5 else if p == 80 then 15 else 0
    ensures BaseReward(0, 0, 0) == 10 && BaseReward(0, 0, inferences) == if inferences > 0 then 20 else 10
  {
  }

  /** ai_learn_calculate_reward. */
  function Reward(heapPct: u32, pagePct: u32, errors: u32, inferences: u32): i16 {
    ToInt16(BaseReward(heapPct, pagePct, inferences) - Penalty(errors))
  }

  lemma WrapOnce(x: int)
    requires -0x8100 <= x < 0x8100
    ensures ToInt16(x) == if x < -0x8000 then x + 0x1_0000 else if x >= 0x8000 then x - 0x1_0000 else x
  {
  }

  lemma RewardIs(h: u32, p: u32, errors: u32, inferences: u32)
    ensures -80 <= BaseReward(h, p, inferences) <= 20 && (inferences > 0 ==> BaseReward(h, p, inferences) >= -70)
    ensures var x := BaseReward(h, p, inferences) - Penalty(errors);
            Reward(h, p, errors, inferences) == if x < -0x8000 then x + 0x1_0000 else if x >= 0x8000 then x - 0x1_0000 else x
  {
    hide ToInt16;
    WrapOnce(BaseReward(h, p, inferences) - Penalty(errors));
  }

  lemma FewErrors(errors: u32)
    requires errors <= 1638
    ensures Penalty(errors) == 20 * errors
  {
  }

  /** More pressure or more errors never raise the reward, while it does not wrap. */
  lemma RewardAntitone(h: u32, p: u32, errors: u32, h': u32, p': u32, errors': u32, inferences: u32)
    requires h <= h' && p <= p' && errors <= errors' <= 1634
    ensures Reward(h', p', errors', inferences) <= Reward(h, p, errors, inferences)
  {
    hide Reward, Penalty;
    FewErrors(errors);
    FewErrors(errors');
    RewardIs(h, p, errors, inferences);
    RewardIs(h', p', errors', inferences);
  }

  /** With one error more full memory is rewarded above empty memory. */
  lemma RewardWraps(inferences: u32)
    ensures Reward(100, 100, 1635, inferences) > Reward(0, 0, 0, inferences)
  {
    hide Reward, Penalty;
    FewErrors(1635);
    FewErrors(0);
    RewardIs(100, 100, 1635, inferences);
    RewardIs(0, 0, 0, inferences);
  }

  ghost predicate AntitoneUpTo(limit: u32, inferences: u32) {
    forall h: u32, p: u32, errors: u32, h': u32, p': u32, errors': u32 ::
      h <= h' && p <= p' && errors <= errors' <= limit ==>
        Reward(h', p', errors', inferences) <= Reward(h, p, errors, inferences)
  }

  /** The reward falls with pressure and errors exactly up to 1634 errors. */
  lemma RewardAntitoneIff(limit: u32, inferences: u32)
    ensures AntitoneUpTo(limit, inferences) <==> limit <= 1634
  {
    hide Reward;
    if limit <= 1634 {
      forall h: u32, p: u32, errors: u32, h': u32, p': u32, errors': u32
        | h <= h' && p <= p' && errors <= errors' <= limit
        ensures Reward(h', p', errors', inferences) <= Reward(h, p, errors, inferences)
      {
        RewardAntitone(h, p, errors, h', p', errors', inferences);
      }
    } else {
      RewardWraps(inferences);
    }
  }

  /** The error counts for which every reward is in range, whatever the memory pressure. */
  lemma RewardInRangeIff(errors: u32, inferences: u32)
    ensures var bonus := if inferences > 0 then 10 else 0;
            (forall h: u32, p: u32 :: RewardOk(Reward(h, p, errors, inferences)))
            <==> bonus - 13138 <= Penalty(errors) <= bonus + 13028
    ensures errors <= 651 ==> forall h: u32, p: u32 :: RewardOk(Reward(h, p, errors, inferences))
  {
    hide Reward, Penalty;
    var bonus := if inferences > 0 then 10 else 0;
    if errors <= 651 {
      FewErrors(errors);
    }
    RewardIs(0, 0, errors, inferences);
    RewardIs(100, 100, errors, inferences);
    assert RewardOk(Reward(0, 0, errors, inferences)) && RewardOk(Reward(100, 100, errors, inferences))
      <==> bonus - 13138 <= Penalty(errors) <= bonus + 13028;
    if bonus - 13138 <= Penalty(errors) <= bonus + 13028 {
      forall h: u32, p: u32
        ensures RewardOk(Reward(h, p, errors, inferences))
      {
        RewardIs(h, p, errors, inferences);
      }
    }
  }
}
