/** The cooperative round-robin scheduler: states, operations and the class that implements
    them in place. */
module Scheduler {
  import opened Bytes

  const MAX_TASKS: nat := 16

  datatype TaskState = Unused | Ready | Running | Finished

  /** The accounting part of a task slot. Counters are 32 bits wide. */
  datatype Task = Task(state: TaskState, ticksUsed: nat, yieldCount: nat, starvedTicks: nat, killPending: bool)

  const EMPTY: Task := Task(Unused, 0, 0, 0, false)

  function Inc32(n: nat): nat {
    Add32(n, 1)
  }

  /** `parked` says that the current task has ended and the CPU idles for good. */
  datatype State = State(tasks: seq<Task>, current: int, uptime: nat, limit: nat, parked: bool)

  // ---- Choosing ---------------------------------------------------------------

  /** How many slots past `from` slot `i` comes, going round: 1..16. */
  function Distance(from: int, i: nat): (r: nat)
    requires 0 <= from < MAX_TASKS && i < MAX_TASKS
    ensures 1 <= r <= 16 && (from + r) % 16 == i
  {
    if i > from then i - from else i + 16 - from
  }

  /** The ready slot that comes first after `from`, from offset `i` on, or -1. */
  function NextReady(tasks: seq<Task>, from: nat, i: nat := 1): (r: int)
    requires |tasks| == MAX_TASKS && from < MAX_TASKS && 1 <= i <= 17
    ensures -1 <= r < MAX_TASKS
    ensures r >= 0 ==> tasks[r].state == Ready && i <= Distance(from, r)
    ensures r >= 0 ==> forall j :: 0 <= j < MAX_TASKS && i <= Distance(from, j) < Distance(from, r) ==> tasks[j].state != Ready
    ensures r < 0 ==> forall j :: 0 <= j < MAX_TASKS && i <= Distance(from, j) ==> tasks[j].state != Ready
    decreases 17 - i
  {
    if i == 17 then -1
    else if tasks[(from + i) % 16].state == Ready then (from + i) % 16
    else NextReady(tasks, from, i + 1)
  }

  predicate Reusable(t: Task) {
    t.state == Unused || t.state == Finished
  }

  /** The lowest slot a new task may take, from `i` on, or -1. */
  function FreeSlot(tasks: seq<Task>, i: nat := 0): (r: int)
    requires |tasks| == MAX_TASKS && i <= MAX_TASKS
    ensures -1 <= r < MAX_TASKS
    ensures r >= 0 ==> i <= r && Reusable(tasks[r]) && forall j :: i <= j < r ==> !Reusable(tasks[j])
    ensures r < 0 ==> forall j :: i <= j < MAX_TASKS ==> !Reusable(tasks[j])
    decreases MAX_TASKS - i
  {
    if i == MAX_TASKS then -1 else if Reusable(tasks[i]) then i else FreeSlot(tasks, i + 1)
  }

  // ---- Operations -------------------------------------------------------------

  predicate Shape(s: State) {
    |s.tasks| == MAX_TASKS && -1 <= s.current < MAX_TASKS
  }

  function Ticked(t: Task, watched: bool, limit: nat): Task {
    var t1 := t.(ticksUsed := Inc32(t.ticksUsed));
    if !watched then t1
    else
      var starved := Inc32(t.starvedTicks);
      t1.(starvedTicks := starved, killPending := t.killPending || starved >= limit)
  }

  /** sched_on_tick. */
  function Tick(s: State): State
    requires Shape(s)
  {
    var s1 := s.(uptime := Inc32(s.uptime));
    if s.current >= 0 && s.tasks[s.current].state == Running
    then s1.(tasks := s.tasks[s.current := Ticked(s.tasks[s.current], s.limit > 0 && s.current != 0, s.limit)])
    else s1
  }

  /** sched_spawn; `valid` says that entry, stack and stack length pass its checks. */
  function Spawn(s: State, valid: bool): State
    requires Shape(s)
  {
    var slot := FreeSlot(s.tasks);
    if slot < 0 || !valid then s else s.(tasks := s.tasks[slot := Task(Ready, 0, 0, 0, false)])
  }

  /** Hands the CPU to slot `n`. */
  function Dispatch(s: State, n: nat): State
    requires Shape(s) && n < MAX_TASKS
  {
    s.(tasks := s.tasks[n := s.tasks[n].(state := Running)], current := n)
  }

  /** sched_exit. */
  function Exit(s: State): State
    requires Shape(s)
  {
    if s.current < 0 then s.(parked := true)
    else
      var s1 := s.(tasks := s.tasks[s.current := s.tasks[s.current].(state := Finished)]);
      var n := NextReady(s1.tasks, s.current);
      if n >= 0 then Dispatch(s1, n) else s1.(parked := true)
  }

  /** sched_yield. */
  function Yield(s: State): State
    requires Shape(s)
  {
    if s.current < 0 then s
    else if s.tasks[s.current].killPending then Exit(s)
    else
      var t := s.tasks[s.current].(starvedTicks := 0);
      var s1 := s.(tasks := s.tasks[s.current := t]);
      var n := NextReady(s1.tasks, s.current);
      if n < 0 then s1
      else Dispatch(s1.(tasks := s1.tasks[s.current := t.(state := Ready, yieldCount := Inc32(t.yieldCount))]), n)
  }

  /** sched_init: the boot context becomes task 0. */
  function Init(s: State): State {
    s.(tasks := seq(16, i => if i == 0 then EMPTY.(state := Running) else EMPTY), current := 0, parked := false)
  }

  // ---- The implementation -----------------------------------------------------

  class Table {
    var tasks: array<Task>
    var current: int
    var uptime: nat
    var limit: nat
    var parked: bool

    ghost predicate Valid()
      reads this
    {
      tasks.Length == MAX_TASKS && -1 <= current < MAX_TASKS
    }

    ghost function Abstract(): (s: State)
      requires Valid()
      reads this, tasks
      ensures Shape(s)
    {
      State(tasks[..], current, uptime, limit, parked)
    }

    /** The state before sched_init: no current task, the watchdog at 600 ticks. */
    constructor ()
      ensures Valid() && fresh(tasks)
      ensures Abstract() == State(seq(16, _ => EMPTY), -1, 0, 600, false)
    {
      tasks := new Task[16](_ => EMPTY);
      current, uptime, limit, parked := -1, 0, 600, false;
      new;
      assert tasks[..] == seq(16, _ => EMPTY);
    }

    method Initialize()
      requires Valid()
      modifies this`current, this`parked, tasks
      ensures Valid() && Abstract() == Init(old(Abstract()))
    {
      for i := 0 to MAX_TASKS
        invariant forall k :: 0 <= k < i ==> tasks[k] == EMPTY
      {
        tasks[i] := EMPTY;
      }
      tasks[0] := tasks[0].(state := Running);
      current, parked := 0, false;
    }

    method FindReady(from: nat) returns (idx: int)
      requires Valid() && from < MAX_TASKS
      ensures idx == NextReady(tasks[..], from)
    {
      var i := 1;
      while i <= MAX_TASKS
        invariant 1 <= i <= 17
        invariant NextReady(tasks[..], from) == NextReady(tasks[..], from, i)
      {
        idx := (from + i) % 16;
        if tasks[idx].state == Ready {
          return;
        }
        i := i + 1;
      }
      return -1;
    }

    method FindFree() returns (slot: int)
      requires Valid()
      ensures slot == FreeSlot(tasks[..])
    {
      for i := 0 to MAX_TASKS
        invariant FreeSlot(tasks[..]) == FreeSlot(tasks[..], i)
      {
        if tasks[i].state == Unused || tasks[i].state == Finished {
          return i;
        }
      }
      return -1;
    }

    method OnTick()
      requires Valid()
      modifies this`uptime, tasks
      ensures Valid() && Abstract() == Tick(old(Abstract()))
    {
      uptime := Inc32(uptime);
      if current >= 0 && tasks[current].state == Running {
        tasks[current] := tasks[current].(ticksUsed := Inc32(tasks[current].ticksUsed));
        if limit > 0 && current != 0 {
          tasks[current] := tasks[current].(starvedTicks := Inc32(tasks[current].starvedTicks));
          if tasks[current].starvedTicks >= limit && !tasks[current].killPending {
            tasks[current] := tasks[current].(killPending := true);
          }
        }
      }
    }

    method SpawnTask(valid: bool) returns (slot: int)
      requires Valid()
      modifies tasks
      ensures Valid() && Abstract() == Spawn(old(Abstract()), valid)
      ensures slot == if valid then FreeSlot(old(Abstract()).tasks) else -1
    {
      slot := FindFree();
      if slot < 0 || !valid {
        return -1;
      }
      tasks[slot] := Task(Ready, 0, 0, 0, false);
    }

    method ExitTask()
      requires Valid()
      modifies this`current, this`parked, tasks
      ensures Valid() && Abstract() == Exit(old(Abstract()))
    {
      hide NextReady;
      if current < 0 {
        parked := true;
        return;
      }
      ghost var finished := old(tasks[..])[current := tasks[current].(state := Finished)];
      tasks[current] := tasks[current].(state := Finished);
      assert tasks[..] == finished;
      var next := FindReady(current);
      if next >= 0 {
        tasks[next] := tasks[next].(state := Running);
        assert tasks[..] == finished[next := finished[next].(state := Running)];
        current := next;
        return;
      }
      parked := true;
    }

    /** The watchdog verdict at a yield: switch away for good, or park. */
    method KillTask()
      requires Valid() && current >= 0
      modifies this`current, this`parked, tasks
      ensures Valid() && Abstract() == Exit(old(Abstract()))
    {
      hide NextReady;
      ghost var finished := old(tasks[..])[current := tasks[current].(state := Finished)];
      tasks[current] := tasks[current].(state := Finished);
      assert tasks[..] == finished;
      var next := FindReady(current);
      if next >= 0 {
        tasks[next] := tasks[next].(state := Running);
        assert tasks[..] == finished[next := finished[next].(state := Running)];
        current := next;
        return;
      }
      assert finished[current := finished[current].(state := Finished)] == finished;
      ExitTask();
    }

    method YieldTask()
      requires Valid()
      modifies this`current, this`parked, tasks
      ensures Valid() && Abstract() == Yield(old(Abstract()))
    {
      hide NextReady;
      if current < 0 {
        return;
      }
      if tasks[current].killPending {
        KillTask();
        return;
      }
      tasks[current] := tasks[current].(starvedTicks := 0);
      ghost var rested := tasks[..];
      assert rested == old(tasks[..])[current := tasks[current]];
      var next := FindReady(current);
      if next < 0 {
        return;
      }
      var prev := current;
      tasks[prev] := tasks[prev].(state := Ready);
      tasks[next] := tasks[next].(state := Running);
      tasks[prev] := tasks[prev].(yieldCount := Inc32(tasks[prev].yieldCount));
      current := next;
    }
  }
}
