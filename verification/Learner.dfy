/** The state of the learning engine: the table and the replay ring. */
module Learner {
  import opened Bytes
  import opened FixedPoint
  import opened QLearning

  /** The prior of ai_learn_init: sustain everywhere, boost at low and rest at high pressure. */
  function Prior(s: int): seq<int> {
    [6553, if s < 2 then 6553 else 0, if s >= 4 then 3276 else -3276]
  }

  const PRIOR: Table := seq(8, s => Prior(s))

  lemma PriorInHull()
    ensures InHull(PRIOR)
  {
  }

  /** What is preferred before anything is learned: to sustain, with boosting as good exactly in
      the two lowest states, and resting rated above zero exactly in the upper half. */
  lemma PriorMeans(s: nat)
    requires s < STATES
    ensures PRIOR[s][0] == MaxOf(PRIOR[s]) == 6553 && (PRIOR[s][1] == MaxOf(PRIOR[s]) <==> s <= 1)
    ensures PRIOR[s][2] == (if s >= 4 then 3276 else -3276) && (s >= 2 ==> PRIOR[s][1] == 0)
  {
  }

  /** The ring slot of the i-th replay. */
  function Slot(updates: u32, i: u32, count: nat): (k: nat)
    requires count > 0
    ensures k < count
  {
    Add32(updates, i) % count
  }

  lemma SlotIs(updates: u32, i: u32, count: nat)
    requires count > 0
    ensures Slot(updates, i, count) == Add32(updates, i) % count
  {
  }

  /** The experiences one update replays: consecutive ring slots from the running count on. */
  function Samples(replay: seq<Memory>, updates: u32, count: nat): seq<Memory>
    requires 0 < count <= |replay|
  {
    seq(if count < 8 then count else 8, i requires 0 <= i < 8 => replay[Slot(updates, i, count)])
  }

  /** Replay goes round: every ring slot in use is replayed by one of four consecutive updates,
      and by the next one when there are at most eight. */
  lemma SamplesRotate(replay: seq<Memory>, updates: u32, count: nat, k: nat) returns (u: nat, i: nat)
    requires k < count <= 32 && count <= |replay| && updates + 32 <= 0x1_0000_0000
    ensures u < 4 && (count <= 8 ==> u == 0) && i < (if count < 8 then count else 8)
    ensures Samples(replay, Add32(updates, 8 * u), count)[i] == replay[k]
  {
    hide Slot;
    var off := (k - updates) % count;
    Rotated(updates, k, count);
    u, i := off / 8, off % 8;
    SlotOf(updates, u, i, off, count);
  }

  lemma SlotOf(updates: u32, u: nat, i: nat, off: nat, count: nat)
    requires 0 < count <= 32 && off < count && u == off / 8 && i == off % 8 && updates + 32 <= 0x1_0000_0000
    ensures Slot(Add32(updates, 8 * u), i, count) == (updates + off) % count
  {
    assert off == 8 * u + i;
    NoWrap(updates, 8 * u);
    NoWrap(updates + 8 * u, i);
  }

  lemma Rotated(updates: nat, k: nat, count: nat)
    requires k < count
    ensures var off := (k - updates) % count; 0 <= off < count && (updates + off) % count == k
  {
    var off := (k - updates) % count;
    var q := (k - updates) / count;
    assert k - updates == q * count + off;
    assert updates + off == k + (-q) * count;
    Residue(k, -q, count);
  }

  lemma Residue(k: nat, q: int, count: nat)
    requires k < count
    ensures (k + q * count) % count == k
  {
    var x := k + q * count;
    assert x == x / count * count + x % count;
    SameQuotient(q, x / count, count, k, x % count);
  }

  lemma SameQuotient(a: int, b: int, d: nat, r: int, t: int)
    requires d > 0 && 0 <= r < d && 0 <= t < d && a * d + r == b * d + t
    ensures a == b && r == t
  {
    if a > b {
      Scale(b + 1, a, d);
    } else if a < b {
      Scale(a + 1, b, d);
    }
  }

  /** fp_rand: fifteen bits of a linear congruential step. */
  function Rand(seed: u32): (r: nat)
    ensures r < 0x8000
  {
    (seed * 1103515245 + 12345) % 0x1_0000_0000 / 0x1_0000 % 0x8000
  }

  /** The ring holds the most recent experiences; `head` is the slot of the oldest, or the
      first empty one. */
  ghost predicate Ring(replay: seq<Memory>, head: nat, count: nat, stored: seq<Memory>) {
    && |replay| == 32 && head == |stored| % 32
    && count == (if |stored| < 32 then |stored| else 32)
    && forall k :: |stored| - count <= k < |stored| ==> replay[k % 32] == stored[k]
  }

  lemma SlotsDiffer(a: int, b: int)
    requires 0 < b - a < 32
    ensures a % 32 != b % 32
  {
  }

  lemma RingPush(replay: seq<Memory>, head: nat, count: nat, stored: seq<Memory>, e: Memory)
    requires Ring(replay, head, count, stored)
    ensures Ring(replay[head := e], (head + 1) % 32, if count < 32 then count + 1 else count, stored + [e])
  {
    var s, r, c := stored + [e], replay[head := e], if count < 32 then count + 1 else count;
    forall k | |s| - c <= k < |s|
      ensures r[k % 32] == s[k]
    {
      if k < |stored| {
        SlotsDiffer(k, |stored|);
      }
    }
  }

  /** The ring slots in use hold stored experiences. */
  lemma RingHolds(replay: seq<Memory>, head: nat, count: nat, stored: seq<Memory>, i: nat)
    requires Ring(replay, head, count, stored) && i < count
    ensures replay[i] in stored
  {
    var k := i + 32 * ((|stored| - 1 - i) / 32);
    assert k % 32 == i;
    assert replay[k % 32] == stored[k];
  }

  /** The loops of ai_learn_init. */
  method MakePrior() returns (q: Table)
    ensures q == PRIOR
  {
    q := seq(8, _ => [0, 0, 0]);
    for i := 0 to 8
      invariant Shaped(q) && forall s :: 0 <= s < i ==> q[s] == [6553, 0, -3276]
    {
      q := q[i := [6553, 0, -3276]];
    }
    for i := 4 to 8
      invariant Shaped(q)
      invariant forall s :: 0 <= s < 8 ==> q[s] == [6553, 0, if 4 <= s < i then 3276 else -3276]
    {
      q := q[i := q[i][2 := 3276]];
    }
    for i := 0 to 2
      invariant Shaped(q)
      invariant forall s :: 0 <= s < 8 ==> q[s] == [6553, if s < i then 6553 else 0, if 4 <= s then 3276 else -3276]
    {
      q := q[i := q[i][1 := 6553]];
    }
  }

  class Agent {
    var q: Table
    var replay: seq<Memory>
    var count: nat
    var head: nat
    var totalUpdates: u32
    var totalReward: u32
    var episodes: u32
    var enabled: bool
    /** Every experience ever stored, and every one ever replayed, in order. */
    ghost var stored: seq<Memory>
    ghost var replayed: seq<Memory>

    ghost predicate Valid()
      reads this
    {
      && AllValid(stored) && AllValid(replayed)
      && q == StepAll(PRIOR, replayed)
      && (forall e :: e in replayed ==> e in stored)
      && Ring(replay, head, count, stored)
    }

    /** ai_learn_init. */
    constructor ()
      ensures Valid() && q == PRIOR && stored == [] && replayed == [] && enabled && totalUpdates == 0
    {
      var prior := MakePrior();
      q := prior;
      replay := seq(MEMORY, _ => Memory(0, 0, 0, 0, false));
      count, head, totalUpdates, totalReward, episodes, enabled := 0, 0, 0, 0, 0, true;
      stored, replayed := [], [];
    }

    /** In any run whose rewards stay in range the table is the textbook one: no value was ever
        clamped. In every run it is in the hull. */
    lemma TextbookTable()
      requires Valid()
      ensures InHull(q)
      ensures (forall e :: e in stored ==> RewardOk(e.reward)) ==> q == LearnAll(PRIOR, replayed)
    {
      PriorInHull();
      NeverClamps(PRIOR, replayed);
    }

    /** ai_learn_best_action: the first action of largest value. */
    method BestAction(state: nat) returns (best: nat)
      requires Valid()
      ensures best < ACTIONS
      ensures state < STATES ==> && (forall a :: 0 <= a < ACTIONS ==> q[state][a] <= q[state][best])
                                 && (forall a :: 0 <= a < best ==> q[state][a] < q[state][best])
      ensures state >= STATES ==> best == 0
    {
      if state >= STATES {
        return 0;
      }
      best := 0;
      var bestVal := q[state][0];
      for i := 1 to 3
        invariant best < i && bestVal == q[state][best]
        invariant forall a :: 0 <= a < i ==> q[state][a] <= bestVal
        invariant forall a :: 0 <= a < best ==> q[state][a] < bestVal
      {
        if q[state][i] > bestVal {
          bestVal := q[state][i];
          best := i;
        }
      }
    }

    /** ai_learn_choose_action. */
    method ChooseAction(state: nat) returns (action: nat)
      requires Valid()
      ensures action < ACTIONS
      ensures Rand(Add32(totalUpdates, count)) < 1638 ==> action == Rand(Add32(totalUpdates, count)) % 3
      ensures Rand(Add32(totalUpdates, count)) >= 1638 && state < STATES
              ==> && (forall a :: 0 <= a < ACTIONS ==> q[state][a] <= q[state][action])
                  && (forall a :: 0 <= a < action ==> q[state][a] < q[state][action])
    {
      hide Rand;
      var r := Rand(Add32(totalUpdates, count));
      if r < EPSILON {
        action := r % 3;
      } else {
        action := BestAction(state);
      }
    }

    /** ai_learn_store: overwrites the oldest experience once the ring is full. */
    method Store(state: nat, action: nat, reward: i16, next: nat)
      requires Valid() && state < STATES && action < ACTIONS && next < STATES
      modifies this`replay, this`head, this`count, this`totalReward, this`stored
      ensures Valid()
      ensures stored == old(stored) + [Memory(state, action, reward, next, next >= STATES - 1)]
      ensures totalReward == Add32(old(totalReward), Abs(reward))
    {
      var e := Memory(state, action, reward, next, next >= STATES - 1);
      hide Ring;
      RingPush(replay, head, count, stored, e);
      RingShape(replay, head, count, stored);
      replay := replay[head := e];
      head := (head + 1) % 32;
      if count < MEMORY {
        count := count + 1;
      }
      totalReward := Add32(totalReward, if reward > 0 then reward as int else -(reward as int));
      stored := stored + [e];
    }

    /** ai_learn_update: replays up to eight experiences, clamping each new value. Typing every
        intermediate value as a 32-bit one makes each an overflow check. */
    method Update()
      requires Valid()
      modifies this`q, this`totalUpdates, this`episodes, this`replayed
      ensures Valid()
      ensures !enabled || count < 4 ==> unchanged(this)
      ensures enabled && count >= 4
              ==> && replayed == old(replayed) + Samples(replay, old(totalUpdates), count)
                  && totalUpdates == Add32(old(totalUpdates), if count < 8 then count else 8)
                  && episodes == Add32(old(episodes), 1)
    {
      if !enabled || count < 4 {
        return;
      }
      hide StepAll, Ring, Samples, Add32;
      RingShape(replay, head, count, stored);
      var samples := if count < 8 then count else 8;
      ReplayAll(samples);
      totalUpdates := Add32(totalUpdates, samples);
      episodes := Add32(episodes, 1);
    }

    /** The replay loop. */
    method ReplayAll(samples: nat)
      requires Valid() && 0 < count <= |replay| && samples == if count < 8 then count else 8
      modifies this`q, this`replayed
      ensures Valid() && replayed == old(replayed) + Samples(replay, totalUpdates, count)
    {
      hide StepAll, Ring, Slot;
      ghost var before := replayed;
      ghost var all := Samples(replay, totalUpdates, count);
      var i := 0;
      while i < samples
        invariant 0 <= i <= samples == |all| && Valid()
        invariant replayed == before + all[..i]
      {
        SlotIs(totalUpdates, i, count);
        Replay(Add32(totalUpdates, i) % count);
        i := i + 1;
      }
    }

    /** The body of the replay loop. */
    method Replay(idx: nat)
      requires Valid() && idx < count
      modifies this`q, this`replayed
      ensures Valid() && replayed == old(replayed) + [replay[idx]]
    {
      hide Ring, Step, StepAll, LearnAll, InHull;
      RingShape(replay, head, count, stored);
      RingHolds(replay, head, count, stored, idx);
      TextbookTable();
      ghost var e := replay[idx];
      q := ReplayOne(q, replay[idx]);
      StepAllAppend(PRIOR, replayed, e);
      replayed := replayed + [e];
    }
  }

  /** The largest value of a row. */
  method MaxNext(row: seq<int>) returns (m: int)
    requires |row| == 3
    ensures m == MaxOf(row)
  {
    m := row[0];
    for j := 1 to 3
      invariant m in row && forall a :: 0 <= a < j ==> row[a] <= m
    {
      if row[j] > m {
        m := row[j];
      }
    }
  }

  lemma MaxInHull(q: Table, s: nat)
    requires InHull(q) && s < 8
    ensures -ONE <= MaxOf(q[s]) <= ONE
  {
  }

  /** One replayed experience. */
  method ReplayOne(table: Table, e: Memory) returns (q: Table)
    requires InHull(table) && e.Valid()
    ensures q == Step(table, e)
  {
    hide InHull;
    q := table;
    HullAt(q, e.state, e.action);
    MaxInHull(q, e.next);
    var currentQ: i32 := q[e.state][e.action];
    var maxNext := MaxNext(q[e.next]);
    var target: i32 := e.reward + Mul(GAMMA, maxNext);
    var delta: i32 := target - currentQ;
    var update: i32 := Mul(ALPHA, delta);
    var value: i32 := currentQ + update;
    q := q[e.state := q[e.state][e.action := value]];
    if q[e.state][e.action] > ONE {
      q := q[e.state := q[e.state][e.action := ONE]];
    }
    if q[e.state][e.action] < -ONE {
      q := q[e.state := q[e.state][e.action := -ONE]];
    }
    assert q[e.state] == table[e.state][e.action := Clamp(value, -ONE, ONE)];
    assert q == table[e.state := q[e.state]];
  }

  lemma HullAt(q: Table, s: nat, a: nat)
    requires InHull(q) && s < 8 && a < 3
    ensures Shaped(q) && -ONE <= q[s][a] <= ONE
  {
  }

  lemma RingShape(replay: seq<Memory>, head: nat, count: nat, stored: seq<Memory>)
    requires Ring(replay, head, count, stored)
    ensures |replay| == 32 && head < 32 && count <= 32
  {
  }
}
