/** What holds over every run of the scheduler: safety, and bounded waiting. */
module SchedulerRuns {
  import opened Scheduler

  /** Timer ticks fall between operations. Operations are those of the running task. */
  datatype Event = OnTick | OnSpawn(valid: bool) | OnYield | OnExit | SetWatchdog(limit: nat)

  /** Gives up the CPU. */
  predicate Leaves(e: Event) {
    e.OnYield? || e.OnExit?
  }

  /** One event. A parked CPU takes ticks only. */
  function Next(s: State, e: Event): State
    requires Shape(s)
  {
    match e
    case OnTick => Tick(s)
    case OnSpawn(valid) => if s.parked then s else Spawn(s, valid)
    case OnYield => if s.parked then s else Yield(s)
    case OnExit => if s.parked then s else Exit(s)
    case SetWatchdog(limit) => if s.parked then s else s.(limit := limit)
  }

  // ---- Safety -----------------------------------------------------------------

  /** Exactly the current task runs unless the CPU is parked, which happens only when nothing
      is ready; no ready task is flagged or has starved; slot 0 is never flagged. */
  predicate Safe(s: State) {
    && |s.tasks| == MAX_TASKS && 0 <= s.current < MAX_TASKS
    && (forall i :: 0 <= i < MAX_TASKS ==> (s.tasks[i].state == Running <==> i == s.current && !s.parked))
    && (s.parked ==> forall i :: 0 <= i < MAX_TASKS ==> s.tasks[i].state != Ready)
    && (forall i :: 0 <= i < MAX_TASKS && s.tasks[i].state == Ready ==> !s.tasks[i].killPending && s.tasks[i].starvedTicks == 0)
    && !s.tasks[0].killPending
  }

  lemma InitSafe(s: State)
    ensures Safe(Init(s))
  {
  }

  lemma TickSafe(s: State)
    requires Safe(s)
    ensures Safe(Tick(s)) && Tick(s).current == s.current
  {
  }

  lemma SpawnSafe(s: State, valid: bool)
    requires Safe(s) && !s.parked
    ensures Safe(Spawn(s, valid)) && Spawn(s, valid).current == s.current
  {
  }

  lemma ExitSafe(s: State)
    requires Safe(s) && !s.parked
    ensures Safe(Exit(s))
    ensures Exit(s).parked <==> forall i :: 0 <= i < MAX_TASKS ==> s.tasks[i].state != Ready
  {
    var s1 := s.(tasks := s.tasks[s.current := s.tasks[s.current].(state := Finished)]);
    assert forall i :: 0 <= i < MAX_TASKS && i != s.current ==> s1.tasks[i] == s.tasks[i];
  }

  lemma YieldSafe(s: State)
    requires Safe(s) && !s.parked
    ensures Safe(Yield(s))
    ensures Yield(s).parked <==> s.tasks[s.current].killPending
                                 && forall i :: 0 <= i < MAX_TASKS ==> s.tasks[i].state != Ready
  {
    if s.tasks[s.current].killPending {
      ExitSafe(s);
    }
  }

  lemma NextSafe(s: State, e: Event)
    requires Safe(s)
    ensures Safe(Next(s, e))
  {
    hide Tick, Spawn, Exit, Yield;
    match e {
      case OnTick => TickSafe(s);
      case OnSpawn(valid) => if !s.parked { SpawnSafe(s, valid); }
      case OnYield => if !s.parked { YieldSafe(s); }
      case OnExit => if !s.parked { ExitSafe(s); }
      case SetWatchdog(_) =>
    }
  }

  /** The state after a run. */
  function After(s: State, es: seq<Event>): (r: State)
    requires Safe(s)
    ensures Safe(r)
    decreases |es|
  {
    if es == [] then s
    else
      NextSafe(s, es[0]);
      After(Next(s, es[0]), es[1..])
  }

  /** A spawn works exactly when its arguments are valid and some slot is unused or finished; the
      lowest such slot becomes a fresh ready task and nothing else changes. */
  lemma SpawnEffect(s: State, valid: bool)
    requires Safe(s)
    ensures (forall i :: 0 <= i < MAX_TASKS ==> s.tasks[i].state == Ready || s.tasks[i].state == Running) || !valid ==>
              Spawn(s, valid) == s
    ensures forall i :: valid && 0 <= i < MAX_TASKS && (s.tasks[i].state == Unused || s.tasks[i].state == Finished)
                        && (forall j :: 0 <= j < i ==> s.tasks[j].state == Ready || s.tasks[j].state == Running) ==>
              Spawn(s, valid) == s.(tasks := s.tasks[i := Task(Ready, 0, 0, 0, false)])
  {
    var slot := FreeSlot(s.tasks);
    hide FreeSlot;
    forall i | valid && 0 <= i < MAX_TASKS && Reusable(s.tasks[i]) && (forall j :: 0 <= j < i ==> !Reusable(s.tasks[j]))
      ensures i == slot
    {
    }
  }

  /** An exit ends the current task; the next ready one, if any, runs, and no other slot
      changes. */
  lemma ExitEffect(s: State, i: nat)
    requires Safe(s) && !s.parked && i < MAX_TASKS
    ensures Shape(Exit(s)) && Exit(s).uptime == s.uptime && Exit(s).limit == s.limit
    ensures var s' := Exit(s);
            s'.tasks[i] == if i == s.current then s.tasks[i].(state := Finished)
                           else if i == s'.current then s.tasks[i].(state := Running) else s.tasks[i]
  {
  }

  /** A yield of a task that is not flagged starts its count again; if somebody else runs, it
      becomes ready and the yield is counted. No other slot changes. */
  lemma YieldEffect(s: State, i: nat)
    requires Safe(s) && !s.parked && !s.tasks[s.current].killPending && i < MAX_TASKS
    ensures Shape(Yield(s)) && Yield(s).uptime == s.uptime && Yield(s).limit == s.limit
    ensures var s', t := Yield(s), s.tasks[i];
            s'.tasks[i] == if i == s.current
                           then if s'.current == s.current then t.(starvedTicks := 0)
                                else t.(starvedTicks := 0, state := Ready, yieldCount := Inc32(t.yieldCount))
                           else if i == s'.current then t.(state := Running) else t
  {
  }

  /** A flagged task is finished at its next yield, and a finished slot changes only when a
      new task is spawned into it. */
  lemma FlaggedNeverRunsAgain(s: State, e: Event, i: nat)
    requires Safe(s) && i < MAX_TASKS
    ensures s.current == i && !s.parked && s.tasks[i].killPending && e.OnYield? ==> Next(s, e).tasks[i].state == Finished
    ensures s.tasks[i].state == Finished && Next(s, e).tasks[i] != s.tasks[i] ==>
              e == OnSpawn(true) && FreeSlot(s.tasks) == i && Next(s, e).tasks[i] == Task(Ready, 0, 0, 0, false)
  {
    hide FreeSlot, NextReady;
    if e.OnYield? && !s.parked {
      YieldTouches(s, i);
    }
  }

  function Ticks(n: nat): seq<Event> {
    seq(n, _ => OnTick)
  }

  /** A 32-bit count after `n` more. */
  function Wrap(a: nat, n: nat): nat {
    (a + n) % 0x1_0000_0000
  }

  /** A count that starts at `a` is at the limit after one of the next `n` ticks. */
  ghost predicate Reaches(a: nat, n: nat, limit: nat) {
    exists k :: 1 <= k <= n && limit <= Wrap(a, k)
  }

  /** Short of a wrap the last tick decides; a whole round of the counter reaches every limit. */
  lemma ReachesIff(a: nat, n: nat, limit: nat)
    requires a < 0x1_0000_0000
    ensures a + n < 0x1_0000_0000 ==> (Reaches(a, n, limit) <==> n > 0 && limit <= a + n)
    ensures n >= 0x1_0000_0000 && limit < 0x1_0000_0000 ==> Reaches(a, n, limit)
  {
    if a + n < 0x1_0000_0000 {
      assert n > 0 ==> Wrap(a, n) == a + n;
      forall k | 1 <= k <= n
        ensures Wrap(a, k) <= a + n
      {
      }
    } else if n >= 0x1_0000_0000 {
      var k := if a == 0xFFFF_FFFF then 0x1_0000_0000 else 0xFFFF_FFFF - a;
      assert Wrap(a, k) == 0xFFFF_FFFF;
    }
  }

  /** `r` is `s` after its current task ran for `n` more ticks: it is flagged if and only if it
      was, or is watched and went without a yield for the limit; nobody else is touched. */
  ghost predicate RanFor(s: State, r: State, n: nat)
    requires Safe(s)
  {
    var c := s.current;
    && |r.tasks| == MAX_TASKS && r.current == c && r.limit == s.limit && r.parked == s.parked
    && RanTask(s.tasks[c], r.tasks[c], s.limit > 0 && c != 0, s.limit, n)
    && r.uptime == Wrap(s.uptime, n)
    && forall i :: 0 <= i < MAX_TASKS && i != c ==> r.tasks[i] == s.tasks[i]
  }

  ghost predicate RanTask(t: Task, u: Task, watched: bool, limit: nat, n: nat) {
    && u.state == t.state && u.yieldCount == t.yieldCount
    && u.ticksUsed == Wrap(t.ticksUsed, n)
    && u.starvedTicks == (if watched then Wrap(t.starvedTicks, n) else t.starvedTicks)
    && (u.killPending <==> t.killPending || (watched && Reaches(t.starvedTicks, n, limit)))
  }

  lemma IncWrap(a: nat, n: nat)
    ensures Inc32(Wrap(a, n)) == Wrap(a, n + 1)
  {
  }

  lemma RanOneMore(s: State, r: State, n: nat)
    requires Safe(s) && !s.parked && RanFor(s, r, n)
    ensures RanFor(s, Next(r, OnTick), n + 1)
  {
    hide Inc32, Ticked, Wrap, Reaches;
    var c, t := s.current, r.tasks[s.current];
    assert Next(r, OnTick) == r.(uptime := Inc32(r.uptime), tasks := r.tasks[c := Ticked(t, r.limit > 0 && c != 0, r.limit)]);
    IncWrap(s.uptime, n);
    TickedOneMore(s.tasks[c], t, c != 0 && s.limit > 0, s.limit, n);
  }

  lemma TickedOneMore(t: Task, u: Task, watched: bool, limit: nat, n: nat)
    requires RanTask(t, u, watched, limit, n)
    ensures RanTask(t, Ticked(u, watched, limit), watched, limit, n + 1)
  {
    hide Wrap, Inc32;
    IncWrap(t.ticksUsed, n);
    IncWrap(t.starvedTicks, n);
    assert limit <= Wrap(t.starvedTicks, n + 1) ==> Reaches(t.starvedTicks, n + 1, limit);
  }

  /** The watchdog is exact, for every limit, every count and every number of ticks without a
      yield. */
  lemma {:induction false} WatchdogExact(s: State, n: nat)
    requires Safe(s) && !s.parked
    requires s.uptime < 0x1_0000_0000
    requires s.tasks[s.current].ticksUsed < 0x1_0000_0000 && s.tasks[s.current].starvedTicks < 0x1_0000_0000
    ensures RanFor(s, After(s, Ticks(n)), n)
  {
    hide Next;
    if n > 0 {
      WatchdogExact(s, n - 1);
      AfterSnoc(s, Ticks(n - 1), OnTick);
      assert Ticks(n) == Ticks(n - 1) + [OnTick];
      hide RanFor, After;
      RanOneMore(s, After(s, Ticks(n - 1)), n - 1);
    }
  }

  /** A new limit counts from the next tick on. */
  lemma NewLimitCounts(s: State, limit: nat, n: nat)
    requires Safe(s) && !s.parked && s.uptime < 0x1_0000_0000
    requires s.tasks[s.current].ticksUsed < 0x1_0000_0000 && s.tasks[s.current].starvedTicks < 0x1_0000_0000
    ensures RanFor(s.(limit := limit), After(s, [SetWatchdog(limit)] + Ticks(n)), n)
  {
    hide RanFor;
    assert ([SetWatchdog(limit)] + Ticks(n))[1..] == Ticks(n);
    NextSafe(s, SetWatchdog(limit));
    WatchdogExact(s.(limit := limit), n);
  }

  /** Whoever gets the CPU starts with a clean count. */
  lemma DispatchedFresh(s: State, e: Event)
    requires Safe(s) && Next(s, e).current != s.current
    ensures Shape(Next(s, e)) && 0 <= Next(s, e).current
    ensures var t := Next(s, e).tasks[Next(s, e).current]; t.state == Running && t.starvedTicks == 0 && !t.killPending
  {
    NextSafe(s, e);
  }

  lemma {:induction false} AfterSnoc(s: State, es: seq<Event>, e: Event)
    requires Safe(s)
    ensures After(s, es + [e]) == Next(After(s, es), e)
    decreases |es|
  {
    hide Next;
    if es == [] {
      assert es + [e] == [e];
    } else {
      assert (es + [e])[1..] == es[1..] + [e];
      NextSafe(s, es[0]);
      AfterSnoc(Next(s, es[0]), es[1..], e);
    }
  }

  /** A yield that does not end the running task starts its count again. */
  lemma YieldRestartsWatchdog(s: State)
    requires Safe(s) && !s.parked && !s.tasks[s.current].killPending
    ensures Yield(s).tasks[s.current].starvedTicks == 0 && !Yield(s).tasks[s.current].killPending
    ensures Yield(s).tasks[s.current].state == if Yield(s).current == s.current then Running else Ready
  {
  }

  lemma YieldTouches(s: State, i: nat)
    requires Safe(s) && !s.parked && i < MAX_TASKS
    ensures s.tasks[i].state == Finished ==> Yield(s).tasks[i] == s.tasks[i]
    ensures s.current == i && s.tasks[i].killPending ==> Yield(s).tasks[i].state == Finished
  {
  }

  // ---- Bounded waiting --------------------------------------------------------

  predicate Waiting(s: State, t: nat) {
    t < MAX_TASKS && |s.tasks| == MAX_TASKS && s.tasks[t].state == Ready
  }

  /** An event that is not a yield or exit leaves the CPU where it is and a waiting task
      waiting. */
  lemma QuietEvent(s: State, e: Event, t: nat)
    requires Safe(s) && Waiting(s, t) && !Leaves(e)
    ensures Waiting(Next(s, e), t) && Next(s, e).current == s.current
  {
  }

  /** With nobody waiting the CPU stays where it is, whatever happens. */
  lemma NobodyWaits(s: State, e: Event)
    requires Safe(s) && forall i :: 0 <= i < MAX_TASKS ==> !Waiting(s, i)
    ensures Next(s, e).current == s.current
  {
    forall i | 0 <= i < MAX_TASKS
      ensures s.tasks[i].state != Ready
    {
      assert !Waiting(s, i);
    }
  }

  /** The progress measure: while `t` waits, every yield or exit switches to a slot strictly
      closer to `t`, going round, and possibly to `t` itself. */
  lemma LeavingComesCloser(s: State, e: Event, t: nat)
    requires Safe(s) && Waiting(s, t) && Leaves(e)
    ensures var s' := Next(s, e);
            && Safe(s') && !s'.parked && s'.current != s.current
            && Distance(s.current, s'.current) <= Distance(s.current, t)
            && (s'.current == t <==> s'.tasks[t].state == Running)
            && (s'.current != t ==> Waiting(s', t)
                                    && Distance(s'.current, t) == Distance(s.current, t) - Distance(s.current, s'.current))
  {
    NextSafe(s, e);
    if e.OnExit? || s.tasks[s.current].killPending {
      ExitCloser(s, t);
    } else {
      YieldCloser(s, t);
    }
  }

  lemma ExitCloser(s: State, t: nat)
    requires Safe(s) && Waiting(s, t)
    ensures var s' := Exit(s);
            && !s'.parked && s'.current != s.current && Distance(s.current, s'.current) <= Distance(s.current, t)
            && (s'.current != t ==> Waiting(s', t))
  {
    var s1 := s.(tasks := s.tasks[s.current := s.tasks[s.current].(state := Finished)]);
    assert s1.tasks[t].state == Ready;
    var n := NextReady(s1.tasks, s.current);
    assert 1 <= Distance(s.current, t);
  }

  lemma YieldCloser(s: State, t: nat)
    requires Safe(s) && Waiting(s, t) && !s.tasks[s.current].killPending
    ensures var s' := Yield(s);
            && !s'.parked && s'.current != s.current && Distance(s.current, s'.current) <= Distance(s.current, t)
            && (s'.current != t ==> Waiting(s', t))
  {
    var s1 := s.(tasks := s.tasks[s.current := s.tasks[s.current].(starvedTicks := 0)]);
    assert s1.tasks[t].state == Ready;
    var n := NextReady(s1.tasks, s.current);
    assert 1 <= Distance(s.current, t);
  }

  function Departures(es: seq<Event>): nat {
    if es == [] then 0 else (if Leaves(es[0]) then 1 else 0) + Departures(es[1..])
  }

  /** Bounded waiting: a ready task runs by the time the CPU has been given up as often as the
      task is slots away, which is at most 15 times, whatever the other tasks do. */
  lemma {:induction false} RunsInTime(s: State, es: seq<Event>, t: nat) returns (k: nat)
    requires Safe(s) && Waiting(s, t)
    requires Departures(es) >= Distance(s.current, t)
    ensures k <= |es| && After(s, es[..k]).tasks[t].state == Running && After(s, es[..k]).current == t
    decreases |es|
  {
    hide Next;
    var s' := Next(s, es[0]);
    NextSafe(s, es[0]);
    if Leaves(es[0]) {
      LeavingComesCloser(s, es[0], t);
      if s'.current == t {
        k := 1;
        assert es[..1][1..] == [];
        return;
      }
    } else {
      QuietEvent(s, es[0], t);
    }
    k := RunsInTime(s', es[1..], t);
    assert es[..k + 1][1..] == es[1..][..k];
    k := k + 1;
  }

  lemma DistanceBound(s: State, t: nat)
    requires Safe(s) && Waiting(s, t)
    ensures 1 <= Distance(s.current, t) <= 15
  {
  }

  /** The slots that get the CPU during a run, in order. */
  function Dispatched(s: State, es: seq<Event>): seq<nat>
    requires Safe(s)
    decreases |es|
  {
    if es == [] then []
    else
      NextSafe(s, es[0]);
      var s' := Next(s, es[0]);
      (if s'.current != s.current then [s'.current as nat] else []) + Dispatched(s', es[1..])
  }

  /** While a task waits, no slot gets the CPU twice: the slots that do come at strictly
      growing distances from where the wait began, all nearer than the waiting task. */
  lemma {:induction false} NobodyRunsTwice(s: State, es: seq<Event>, t: nat)
    requires Safe(s) && Waiting(s, t)
    requires forall k :: 0 <= k <= |es| ==> Waiting(After(s, es[..k]), t)
    ensures var d := Dispatched(s, es);
            && |d| == Departures(es)
            && (forall i :: 0 <= i < |d| ==> d[i] < MAX_TASKS && 1 <= Distance(s.current, d[i]) < Distance(s.current, t))
            && (forall i, j :: 0 <= i < j < |d| ==> Distance(s.current, d[i]) < Distance(s.current, d[j]))
    decreases |es|
  {
    hide Next;
    if es != [] {
      var s' := Next(s, es[0]);
      NextSafe(s, es[0]);
      StillWaiting(s, es, t);
      if Leaves(es[0]) {
        LeavingComesCloser(s, es[0], t);
        assert s'.current != t;
      } else {
        QuietEvent(s, es[0], t);
      }
      NobodyRunsTwice(s', es[1..], t);
      DistancesAdd(s.current, s'.current, t, Dispatched(s', es[1..]));
    }
  }

  lemma StillWaiting(s: State, es: seq<Event>, t: nat)
    requires Safe(s) && es != [] && Safe(Next(s, es[0]))
    requires forall k :: 0 <= k <= |es| ==> Waiting(After(s, es[..k]), t)
    ensures Waiting(Next(s, es[0]), t)
    ensures forall k :: 0 <= k <= |es[1..]| ==> Waiting(After(Next(s, es[0]), es[1..][..k]), t)
  {
    hide Next, Waiting;
    assert es[..1][1..] == [] && After(s, es[..1]) == Next(s, es[0]);
    forall k | 0 <= k <= |es[1..]|
      ensures Waiting(After(Next(s, es[0]), es[1..][..k]), t)
    {
      assert es[..k + 1][1..] == es[1..][..k];
      assert Waiting(After(s, es[..k + 1]), t);
    }
  }

  lemma DistancesAdd(c: nat, c': nat, t: nat, d: seq<nat>)
    requires c < MAX_TASKS && c' < MAX_TASKS && t < MAX_TASKS
    requires c' == c || Distance(c', t) == Distance(c, t) - Distance(c, c')
    requires forall i :: 0 <= i < |d| ==> d[i] < MAX_TASKS && 1 <= Distance(c', d[i]) < Distance(c', t)
    ensures forall i :: 0 <= i < |d| ==>
              Distance(c, d[i]) == Distance(c', d[i]) + (if c' == c then 0 else Distance(c, c'))
  {
  }
}
