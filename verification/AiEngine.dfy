/** The decision engine's timer entry point: the learner and the network choose an action, the
    awareness level limits it, and the timer rate follows. */
module AiEngine {
  import opened Bytes
  import opened FixedPoint
  import opened Network
  import opened AiCore
  import opened CmtCore
  import opened CmtEngine
  import opened QLearning
  import opened Learner

  const HIST_LEN := 16

  /** A percentage as the source computes it, with the product in 32 bits. */
  function Percent(used: u32, cap: u32): nat {
    if cap > 0 then used * 100 % 0x1_0000_0000 / cap else 0
  }

  /** It never exceeds 100, and it is the true percentage exactly while the product fits. */
  lemma PercentExactIff(used: u32, cap: u32)
    requires used <= cap && cap > 0
    ensures Percent(used, cap) <= 100
    ensures Percent(used, cap) == used * 100 / cap <==> used <= 42949672
  {
    var n, w := used * 100, used * 100 % 0x1_0000_0000;
    assert w <= n && (used <= 42949672 <==> w == n);
    QuotientIs(w, cap, 101);
    if used > 42949672 {
      assert w + 0x1_0000_0000 <= n;
      SmallerQuotient(w, n, cap);
    }
  }

  lemma SmallerQuotient(w: nat, n: nat, d: nat)
    requires d > 0 && w + d <= n
    ensures w / d < n / d
  {
    QuotientIs(w, d, w / d);
    assert (w / d + 1) * d == w / d * d + d;
    QuotientIs(n, d, w / d + 1);
  }

  datatype Decision = Decision(tick: u32, action: nat)

  /** The network's decision on what the sensors report in an inference. */
  ghost predicate NetworkPicks(m: Sensors, action: nat)
    requires m.Sane()
  {
    FirstMax(Outputs(Hidden(AI, Perceive(0, m))), action)
  }

  method NetworkAction(m: Sensors, ticksSince: u32) returns (nn: nat)
    requires m.Sane() && ticksSince == 0
    ensures NetworkPicks(m, nn) && (nn == SUSTAIN || nn == REST)
  {
    hide Outputs, Perceive, Activation, FirstMax, Defined, Bounded;
    Fits();
    var x := Perceive(ticksSince, m);
    DefinedWithin(AI, x, 10922);
    nn := Decide(x);
    ThreeOutputs(Hidden(AI, x), nn);
    NeverBoosts(x, nn);
  }

  ghost predicate RewardsOk(es: seq<Memory>) {
    forall i :: 0 <= i < |es| ==> RewardOk(es[i].reward)
  }

  // ---- The counters of a run --------------------------------------------------

  datatype Event = Tick(m: Sensors) | SetAi(disabled: bool) | SetCmt(disabled: bool) | Force

  /** What decides when the engines infer and what the awareness engine reads of the other:
      ticks since the last inference, switches, and the two counters. */
  datatype Clock = Clock(since: u32, off: bool, cmtSince: u32, cmtOff: bool, inferences: u32, errors: u32) {
    predicate Ok() {
      since < PERIOD_TICKS && cmtSince <= CMT_PERIOD
    }

    /** The next tick is an inference of the awareness engine. */
    predicate Due() {
      !off && !cmtOff && cmtSince + 1 >= CMT_PERIOD
    }

    /** The next tick is an inference of the decision engine. */
    predicate Infers() {
      !off && since + 1 >= PERIOD_TICKS
    }

    /** The next tick stays within 32 bits. */
    predicate TickFits() {
      Due() ==> SelfFits(SelfReport(inferences, errors, 0))
    }
  }

  function Ticked(c: Clock): (r: Clock)
    requires c.Ok()
    ensures r.Ok()
  {
    if c.off then c.(errors := Add32(c.errors, 1))
    else c.(since := if c.Infers() then 0 else c.since + 1,
            cmtSince := if c.cmtOff then c.cmtSince else if c.Due() then 0 else c.cmtSince + 1,
            inferences := if c.Infers() then Add32(c.inferences, 1) else c.inferences)
  }

  function Advance(c: Clock, e: Event): (r: Clock)
    requires c.Ok()
    ensures r.Ok()
  {
    match e
    case Tick(_) => Ticked(c)
    case SetAi(off) => c.(off := off)
    case SetCmt(off) => c.(cmtOff := off)
    case Force => c.(cmtSince := CMT_PERIOD)
  }

  function AdvanceAll(c: Clock, es: seq<Event>): (r: Clock)
    requires c.Ok()
    ensures r.Ok()
    decreases |es|
  {
    if es == [] then c else AdvanceAll(Advance(c, es[0]), es[1..])
  }

  /** Every tick of the run stays within 32 bits. */
  predicate RunFits(c: Clock, es: seq<Event>)
    requires c.Ok()
    decreases |es|
  {
    es == [] || ((es[0].Tick? ==> c.TickFits()) && RunFits(Advance(c, es[0]), es[1..]))
  }

  /** Ticks that move the counters: all of a disabled engine, and every 50th of an enabled
      one. */
  function Increments(c: Clock, es: seq<Event>): nat
    requires c.Ok()
    decreases |es|
  {
    if es == [] then 0
    else (if es[0].Tick? && (c.off || c.Infers()) then 1 else 0) + Increments(Advance(c, es[0]), es[1..])
  }

  /** A run in which the two counters do not wrap when added is good. */
  lemma {:induction false} RoomFits(c: Clock, es: seq<Event>)
    requires c.Ok() && c.inferences + c.errors + Increments(c, es) < 0x1_0000_0000
    ensures RunFits(c, es)
    decreases |es|
  {
    hide SelfFits;
    if es != [] {
      SaneFits(c.inferences, c.errors);
      RoomFits(Advance(c, es[0]), es[1..]);
    }
  }

  lemma SaneFits(inferences: u32, errors: u32)
    requires inferences + errors < 0x1_0000_0000
    ensures SelfFits(SelfReport(inferences, errors, 0))
  {
    hide SelfRatio;
    SelfRatioInUnit(SelfReport(inferences, errors, 0));
  }

  /** A healthy engine counts every 50th tick only. */
  lemma {:induction false} HealthyIncrements(c: Clock, es: seq<Event>)
    requires c.Ok() && !c.off && forall i :: 0 <= i < |es| ==> !es[i].SetAi?
    ensures Increments(c, es) <= (c.since + |es|) / 50
    decreases |es|
  {
    if es != [] {
      HealthyIncrements(Advance(c, es[0]), es[1..]);
    }
  }

  /** The counters at boot. */
  const START := Clock(0, false, 0, false, 0, 0)

  // ---- A run that leaves 32 bits ------------------------------------------------

  function Ticks(m: Sensors, n: nat): seq<Event> {
    seq(n, _ => Tick(m))
  }

  lemma {:induction false} AdvanceJoin(c: Clock, a: seq<Event>, b: seq<Event>)
    requires c.Ok()
    ensures AdvanceAll(c, a + b) == AdvanceAll(AdvanceAll(c, a), b)
    ensures RunFits(c, a + b) <==> RunFits(c, a) && RunFits(AdvanceAll(c, a), b)
    decreases |a|
  {
    hide Advance, SelfFits;
    if a == [] {
      assert a + b == b;
    } else {
      assert (a + b)[1..] == a[1..] + b;
      AdvanceJoin(Advance(c, a[0]), a[1..], b);
    }
  }

  /** Both engines tick together when neither is disturbed. */
  predicate InStep(c: Clock) {
    c.Ok() && !c.off && !c.cmtOff && c.since == c.cmtSince
  }

  /** The counters after `n` undisturbed ticks. */
  function InStepFor(c: Clock, n: nat): Clock {
    c.(since := (c.since + n) % 50, cmtSince := (c.since + n) % 50, inferences := Add32(c.inferences, (c.since + n) / 50))
  }

  lemma NextPeriod(n: nat)
    ensures (49 + (n + 1)) / 50 == n / 50 + 1 && (49 + (n + 1)) % 50 == n % 50
  {
  }

  lemma InStepOnce(c: Clock, n: nat)
    requires InStep(c)
    ensures InStep(Ticked(c)) && InStepFor(Ticked(c), n) == InStepFor(c, n + 1)
  {
    hide Add32;
    if c.since == 49 {
      NextPeriod(n);
      OneMore(c.inferences, n / 50);
    } else {
      assert c.since + 1 + n == c.since + (n + 1);
    }
  }

  lemma {:induction false} EnabledTicks(c: Clock, m: Sensors, n: nat)
    requires InStep(c)
    ensures AdvanceAll(c, Ticks(m, n)) == InStepFor(c, n)
    decreases n
  {
    if n > 0 {
      hide InStepFor, InStep, Ticked;
      InStepOnce(c, n - 1);
      assert Ticks(m, n)[1..] == Ticks(m, n - 1);
      EnabledTicks(Ticked(c), m, n - 1);
    }
  }

  /** Before the next inference nothing is computed. */
  lemma {:induction false} QuietTicks(c: Clock, m: Sensors, n: nat)
    requires InStep(c) && c.since + n < 50
    ensures RunFits(c, Ticks(m, n))
    decreases n
  {
    hide SelfFits;
    if n > 0 {
      assert Ticks(m, n)[1..] == Ticks(m, n - 1);
      QuietTicks(Ticked(c), m, n - 1);
    }
  }

  lemma {:induction false} DisabledTicks(c: Clock, m: Sensors, n: nat)
    requires c.Ok() && c.off
    ensures AdvanceAll(c, Ticks(m, n)) == c.(errors := Add32(c.errors, n)) && RunFits(c, Ticks(m, n))
    decreases n
  {
    hide SelfFits, Add32;
    NoneMore(c.errors);
    if n > 0 {
      assert Ticks(m, n)[1..] == Ticks(m, n - 1);
      DisabledTicks(Ticked(c), m, n - 1);
      OneMore(c.errors, n - 1);
    }
  }

  lemma NoneMore(e: u32)
    ensures Add32(e, 0) == e
  {
  }

  lemma OneMore(e: u32, n: nat)
    ensures Add32(Add32(e, 1), n) == Add32(e, n + 1)
  {
  }

  /** One switch. */
  lemma Switched(c: Clock, off: bool)
    requires c.Ok()
    ensures AdvanceAll(c, [SetAi(off)]) == c.(off := off) && RunFits(c, [SetAi(off)])
  {
    assert [SetAi(off)][1..] == [];
    assert AdvanceAll(c.(off := off), []) == c.(off := off);
  }

  /** 16384 inferences, then ticks of a disabled engine until the counters add up to 1, then
      back on until the next inference. */
  function WrappingRun(m: Sensors): seq<Event> {
    Ticks(m, 819200) + ([SetAi(true)] + (Ticks(m, 0xFFFF_C001) + ([SetAi(false)] + Ticks(m, 49))))
  }

  /** The limit on the counters is reached: after this run from boot the next tick leaves 32
      bits, and no earlier one does. */
  lemma OverflowReachable(m: Sensors)
    ensures RunFits(START, WrappingRun(m)) && AdvanceAll(START, WrappingRun(m)).Due()
    ensures !AdvanceAll(START, WrappingRun(m)).TickFits()
  {
    hide AdvanceAll, RunFits, SelfFits, Increments;
    var c1 := Clock(0, false, 0, false, 16384, 0);
    var c2 := c1.(errors := 0xFFFF_C001);
    var rest := [SetAi(false)] + Ticks(m, 49);
    EnabledTicks(START, m, 819200);
    HealthyIncrements(START, Ticks(m, 819200));
    RoomFits(START, Ticks(m, 819200));
    AdvanceJoin(START, Ticks(m, 819200), [SetAi(true)] + (Ticks(m, 0xFFFF_C001) + rest));
    Switched(c1, true);
    AdvanceJoin(c1, [SetAi(true)], Ticks(m, 0xFFFF_C001) + rest);
    DisabledTicks(c1.(off := true), m, 0xFFFF_C001);
    AdvanceJoin(c1.(off := true), Ticks(m, 0xFFFF_C001), rest);
    Switched(c2.(off := true), false);
    AdvanceJoin(c2.(off := true), [SetAi(false)], Ticks(m, 49));
    EnabledTicks(c2, m, 49);
    QuietTicks(c2, m, 49);
    WrappedSelf(SelfReport(16384, 0xFFFF_C001, 0));
  }

  /** What one inference does to the learner besides storing: every tenth one replays up to eight
      experiences, once there are four. */
  ghost predicate Replays(inferences: u32, enabled: bool, replay: seq<Memory>, count: nat, updates: u32,
                          replayed: seq<Memory>, replayed': seq<Memory>)
  {
    if inferences % 10 == 0 && enabled && 4 <= count <= |replay|
    then replayed' == replayed + Samples(replay, updates, count)
    else replayed' == replayed
  }

  class Ai {
    const cmt: Cmt
    const agent: Agent
    var ticksTotal: u32
    var ticksSince: u32
    var inferences: u32
    var errors: u32
    ghost var faults: nat
    var hz: nat
    var action: nat
    var disabled: bool
    var hist: seq<Decision>
    var histCount: u32

    /** `faults` are the errors ever counted; the counter itself wraps. */
    ghost predicate Valid()
      reads this, cmt, agent
    {
      && cmt.Valid() && agent.Valid()
      && 20 <= hz <= 200 && action <= 2 && ticksSince < PERIOD_TICKS && |hist| == HIST_LEN
      && errors == faults % 0x1_0000_0000
      && (faults <= 651 ==> RewardsOk(agent.stored))
    }

    ghost function Counters(): (c: Clock)
      requires Valid()
      reads this, cmt, agent
      ensures c.Ok()
    {
      Clock(ticksSince, disabled, cmt.ticksSince, cmt.disabled, inferences, errors)
    }

    /** ai_init, after cmt_init. */
    constructor ()
      ensures Valid() && fresh(cmt) && fresh(agent)
      ensures hz == 100 && action == SUSTAIN && !disabled && inferences == 0 && errors == 0 && faults == 0 && cmt.level == 0
      ensures Counters() == START && agent.q == PRIOR && agent.stored == []
    {
      cmt := new Cmt();
      agent := new Agent();
      ticksTotal, ticksSince, inferences, errors, faults, hz, action, disabled := 0, 0, 0, 0, 0, 100, SUSTAIN, false;
      hist, histCount := seq(HIST_LEN, _ => Decision(0, 0)), 0;
    }

    /** The action: the learner's, unless it would sustain and the network would not. With the
        timer input at rest the network never adds a BOOST. */
    method Choose(m: Sensors, state: nat) returns (chosen: nat, ghost learned: nat)
      requires Valid() && m.Sane() && state < STATES && ticksSince == 0
      ensures chosen <= 2 && learned <= 2
      ensures learned != SUSTAIN ==> chosen == learned
      ensures learned == SUSTAIN ==> NetworkPicks(m, chosen)
      ensures chosen == BOOST ==> learned == BOOST
    {
      hide NetworkPicks;
      chosen := agent.ChooseAction(state);
      learned := chosen;
      var nn := NetworkAction(m, ticksSince);
      if chosen == SUSTAIN && nn != SUSTAIN {
        chosen := nn;
      }
    }

    /** One inference of ai_on_tick. */
    method Infer(m: Sensors)
      requires Valid() && m.Sane() && ticksSince == 0
      modifies this`hz, this`action, this`inferences, this`hist, this`histCount, agent
      ensures Valid() && inferences == Add32(old(inferences), 1)
      ensures hz == Act(action, cmt.level, old(hz)) && Abs(hz - old(hz)) <= 25
      ensures hist == old(hist)[old(histCount) % HIST_LEN := Decision(ticksTotal, action)]
      ensures histCount == Add32(old(histCount), 1)
      ensures var heap, pages := Percent(m.heapUsed, m.heapCap), Percent(m.pagesTotal - m.pagesFree, m.pagesTotal);
              heap <= 100 && pages <= 100 &&
              var s := GetState(heap, pages, errors);
              agent.stored == old(agent.stored) + [Memory(s, action, Reward(heap, pages, errors, inferences), s, s >= 7)]
      ensures Replays(inferences, agent.enabled, agent.replay, agent.count, old(agent.totalUpdates), old(agent.replayed), agent.replayed)
    {
      hide Percent, GetState, Reward, Act, Perceive, Hidden, Outputs, StepAll, Ring, Replays;
      PercentBound(m.heapUsed, m.heapCap);
      PercentBound(m.pagesTotal - m.pagesFree, m.pagesTotal);
      var heap, pages := Percent(m.heapUsed, m.heapCap), Percent(m.pagesTotal - m.pagesFree, m.pagesTotal);
      var state := GetState(heap, pages, errors);
      ghost var learned;
      var chosen;
      chosen, learned := Choose(m, state);
      ActInRange(chosen, cmt.level, hz);
      hz := Act(chosen, cmt.level, hz);
      action := chosen;
      inferences := Add32(inferences, 1);
      hist := hist[histCount % HIST_LEN := Decision(ticksTotal, action)];
      histCount := Add32(histCount, 1);
      Remember(state, heap, pages);
    }

    /** The learning part of an inference. */
    method Remember(state: nat, heap: u32, pages: u32)
      requires Valid() && state < STATES
      modifies agent
      ensures Valid()
      ensures agent.stored == old(agent.stored)
                              + [Memory(state, action, Reward(heap, pages, errors, inferences), GetState(heap, pages, errors),
                                        GetState(heap, pages, errors) >= 7)]
      ensures Replays(inferences, agent.enabled, agent.replay, agent.count, old(agent.totalUpdates), old(agent.replayed), agent.replayed)
    {
      hide GetState, Reward, StepAll, Ring, Penalty, Samples;
      var reward := Reward(heap, pages, errors, inferences);
      var next := GetState(heap, pages, errors);
      if faults <= 651 {
        RewardInRangeIff(errors, inferences);
      }
      agent.Store(state, action, reward, next);
      RingShape(agent.replay, agent.head, agent.count, agent.stored);
      if inferences % 10 == 0 {
        agent.Update();
      }
    }

    /** ai_on_tick, for every tick that stays within 32 bits. */
    method OnTick(m: Sensors)
      requires Valid() && m.Sane() && Counters().TickFits()
      modifies this, cmt, agent
      ensures Valid() && Counters() == Ticked(old(Counters()))
      ensures faults == old(faults) + if disabled then 1 else 0
      ensures ticksTotal == if disabled then old(ticksTotal) else Add32(old(ticksTotal), 1)
      ensures old(disabled) ==> unchanged(`hz, `action, cmt, agent)
      ensures !old(Counters().Infers()) ==> unchanged(`hz, `action, agent)
      ensures old(Counters().Infers()) ==> hz == Act(action, cmt.level, old(hz))
      ensures old(Counters().Due()) ==> 1 <= cmt.level
      ensures Abs(hz - old(hz)) <= 25 && cmt.level <= 2
    {
      hide Act, SelfFits, RewardsOk, DeriveLevel, Replays, Percent, GetState, Reward, Ring, StepAll;
      if disabled {
        errors, faults := Add32(errors, 1), faults + 1;
        return;
      }
      ticksTotal := Add32(ticksTotal, 1);
      TickCmt(m);
      CountTick(m);
    }

    /** The rest of a tick: every 50th one is an inference. */
    method CountTick(m: Sensors)
      requires Valid() && m.Sane()
      modifies this`ticksSince, this`hz, this`action, this`inferences, this`hist, this`histCount, agent
      ensures Valid()
      ensures ticksSince == if old(ticksSince) + 1 >= PERIOD_TICKS then 0 else old(ticksSince) + 1
      ensures old(ticksSince) + 1 < PERIOD_TICKS ==> unchanged(`hz, `action, `inferences, agent)
      ensures old(ticksSince) + 1 >= PERIOD_TICKS ==>
                inferences == Add32(old(inferences), 1) && hz == Act(action, cmt.level, old(hz))
      ensures Abs(hz - old(hz)) <= 25
    {
      hide Act, RewardsOk, DeriveLevel, Replays, Percent, GetState, Reward, Ring, StepAll;
      if ticksSince + 1 >= PERIOD_TICKS {
        ticksSince := 0;
        Infer(m);
      } else {
        ticksSince := ticksSince + 1;
      }
    }

    /** The awareness engine's part of a tick. */
    method TickCmt(m: Sensors)
      requires Valid() && m.Sane() && !disabled && Counters().TickFits()
      modifies cmt
      ensures Valid()
      ensures Counters() == old(Counters()).(cmtSince := Ticked(old(Counters())).cmtSince)
      ensures old(Counters().Due()) ==> 1 <= cmt.level
    {
      hide InferenceDefined, SelfFits, RewardsOk, DeriveLevel, Experienced, CmtPerceive, CmtScores, Hidden, FirstMax;
      SameSelf(SelfReport(inferences, errors, action));
      DefinedIff(m, SelfReport(inferences, errors, action), Add32(cmt.uptime, 1));
      cmt.OnTick(m, SelfReport(inferences, errors, action));
    }

    /** ai_enable and ai_disable. */
    method SetDisabled(value: bool)
      requires Valid()
      modifies this`disabled
      ensures Valid() && disabled == value
    {
      disabled := value;
    }

    /** Until the 652nd error no table value was ever clamped. */
    lemma TableUnclamped()
      requires Valid() && faults <= 651
      ensures agent.q == LearnAll(PRIOR, agent.replayed) && InHull(agent.q)
    {
      agent.TextbookTable();
    }

    /** One event of a run. */
    method Handle(e: Event)
      requires Valid() && (e.Tick? ==> e.m.Sane() && Counters().TickFits())
      modifies this, cmt, agent
      ensures Valid() && cmt.level <= 2 && Abs(hz - old(hz)) <= 25
      ensures Counters() == Advance(old(Counters()), e)
    {
      hide Act, DeriveLevel, SelfFits;
      match e {
        case Tick(m) => OnTick(m);
        case SetAi(off) => SetDisabled(off);
        case SetCmt(off) => cmt.SetDisabled(off);
        case Force => cmt.ForceInference();
      }
    }

    /** Any interleaving of timer ticks with the calls that other code makes into the engines,
        as long as it stays within 32 bits: the policy rate stays in range and never moves by
        more than 25, and level 3, the one that selects the step of 50, never occurs. */
    method Run(events: seq<Event>) returns (rates: seq<int>, levels: seq<int>)
      requires Valid() && RunFits(Counters(), events)
      requires forall i :: 0 <= i < |events| ==> events[i].Tick? ==> events[i].m.Sane()
      modifies this, cmt, agent
      ensures Valid() && |rates| == |levels| == |events|
      ensures forall i :: 0 <= i < |events| ==> 20 <= rates[i] <= 200 && levels[i] <= 2
      ensures |events| > 0 ==> Abs(rates[0] - old(hz)) <= 25
      ensures forall i :: 0 < i < |events| ==> Abs(rates[i] - rates[i - 1]) <= 25
      ensures Counters() == AdvanceAll(old(Counters()), events)
    {
      hide Act, DeriveLevel, SelfFits, Advance, RewardsOk;
      rates, levels := [], [];
      assert events[0..] == events;
      var i := 0;
      while i < |events|
        invariant 0 <= i <= |events| && Valid() && |rates| == |levels| == i
        invariant RunFits(Counters(), events[i..])
        invariant AdvanceAll(Counters(), events[i..]) == AdvanceAll(old(Counters()), events)
        invariant forall j :: 0 <= j < i ==> 20 <= rates[j] <= 200 && levels[j] <= 2
        invariant forall j :: 0 < j < i ==> Abs(rates[j] - rates[j - 1]) <= 25
        invariant if i > 0 then rates[i - 1] == hz && Abs(rates[0] - old(hz)) <= 25 else hz == old(hz)
      {
        assert events[i..][0] == events[i] && events[i..][1..] == events[i + 1..];
        Handle(events[i]);
        rates, levels := rates + [hz], levels + [cmt.level];
        i := i + 1;
      }
    }
  }

  lemma SameSelf(me: SelfReport)
    ensures SelfFits(me) == SelfFits(SelfReport(me.inferences, me.errors, 0))
  {
  }

  lemma PercentBound(used: u32, cap: u32)
    requires used <= cap
    ensures Percent(used, cap) <= 100
  {
    if cap > 0 {
      PercentExactIff(used, cap);
    }
  }

  lemma ThreeOutputs(h: seq<i32>, best: nat)
    requires |h| == 8 && FirstMax(Outputs(h), best)
    ensures best < 3
  {
  }
}
