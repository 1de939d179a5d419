/** Mutex and counting semaphore, and their runs on top of the scheduler. */
module Sync {
  import opened Bytes
  import opened Scheduler
  import opened SchedulerRuns

  const FREE: int := -1

  /** A mutex records the slot that holds it and how often it was found busy. */
  datatype Lock = Lock(owner: int, lockCount: nat)

  /** A counting semaphore and its diagnostic post counter. */
  datatype Sem = Sem(count: int, wakeups: nat)

  const INT32_MAX: int := 0x7fff_ffff

  // ---- The primitives ---------------------------------------------------------

  predicate Takes(l: Lock, me: int) {
    l.owner == FREE || l.owner == me
  }

  /** mutex_trylock, called from slot `me`. */
  function TryLock(l: Lock, me: int): (Lock, bool) {
    if Takes(l, me) then (l.(owner := me), true) else (l.(lockCount := Inc32(l.lockCount)), false)
  }

  function Unlock(l: Lock, me: int): Lock {
    if l.owner == me then l.(owner := FREE) else l
  }

  function TryWait(s: Sem): (Sem, bool) {
    if s.count > 0 then (s.(count := s.count - 1), true) else (s, false)
  }

  function Post(s: Sem): Sem {
    Sem(s.count + 1, Inc32(s.wakeups))
  }

  /** Between a successful try and the holder's unlock nobody else gets in or can release, and
      the unlock gives back the mutex as it was found. */
  lemma LockUnlock(l: Lock, me: int, other: int)
    requires TryLock(l, me).1 && other != me && me != FREE && other != FREE
    ensures var held := TryLock(l, me).0;
            && !TryLock(held, other).1 && TryLock(held, other).0.owner == me
            && Unlock(held, other) == held && TryLock(held, me) == (held, true)
            && Unlock(held, me) == l.(owner := FREE) && TryLock(Unlock(held, me), other).1
  {
  }

  /** A post pays for exactly one wait: the count returns to what it was, and without a token
      the next try fails again. */
  lemma PostThenWait(s: Sem)
    requires s.count >= 0
    ensures TryWait(Post(s)).1 && TryWait(Post(s)).0.count == s.count
    ensures s.count == 0 ==> !TryWait(TryWait(Post(s)).0).1
    ensures TryWait(s).1 ==> Post(TryWait(s).0).count == s.count
    ensures Post(s).wakeups == Inc32(s.wakeups) && TryWait(s).0.wakeups == s.wakeups
  {
  }

  class Mutex {
    var lock: Lock

    constructor ()
      ensures lock == Lock(FREE, 0)
    {
      lock := Lock(FREE, 0);
    }

    /** Success means that nobody else can succeed; failure leaves the holder alone. */
    method TryAcquire(me: nat) returns (got: bool)
      modifies this
      ensures (lock, got) == TryLock(old(lock), me)
      ensures got ==> forall other :: Takes(lock, other) ==> other == me
      ensures !got ==> lock.owner == old(lock).owner && lock.owner != me && lock.owner != FREE
    {
      if lock.owner == FREE || lock.owner == me {
        lock := lock.(owner := me);
        got := true;
      } else {
        lock := lock.(lockCount := Inc32(lock.lockCount));
        got := false;
      }
    }

    /** The holder's release lets anyone in; anybody else's changes nothing. */
    method Release(me: nat)
      modifies this
      ensures lock == Unlock(old(lock), me)
      ensures old(lock).owner == me ==> forall other :: Takes(lock, other)
      ensures old(lock).owner != me ==> lock == old(lock)
    {
      if lock.owner == me {
        lock := lock.(owner := FREE);
      }
    }
  }

  class Semaphore {
    var sem: Sem

    constructor (initial: int)
      ensures sem == Sem(initial, 0)
    {
      sem := Sem(initial, 0);
    }

    /** A token is taken if there is one, so the count never falls below zero, and a post
        would give it back. */
    method TryTake() returns (got: bool)
      modifies this
      ensures (sem, got) == TryWait(old(sem))
      ensures old(sem).count >= 0 ==> sem.count >= 0
      ensures got ==> Post(sem).count == old(sem).count
    {
      got := sem.count > 0;
      if got {
        sem := sem.(count := sem.count - 1);
      }
    }

    /** The next try succeeds when nobody was in debt. */
    method Give()
      requires sem.count < INT32_MAX
      modifies this
      ensures sem == Post(old(sem))
      ensures old(sem).count >= 0 ==> TryWait(sem) == (old(sem).(wakeups := sem.wakeups), true)
    {
      sem := Sem(sem.count + 1, Inc32(sem.wakeups));
    }
  }

  // ---- Runs -------------------------------------------------------------------

  /** The system: scheduler, one mutex, one semaphore. `inside` are the tasks between a lock
      and its unlock; `posts` and `waits` count posts and completed waits. */
  datatype World = World(s: State, lock: Lock, sem: Sem, inside: set<nat>, initial: int, posts: nat, waits: nat)

  /** What the running task does next, or a scheduler event. `DoLock` and `DoWait` are one
      round of the retry loops: try, and yield when that fails. */
  datatype Act = Sched(e: Event) | DoLock | DoUnlock | DoWait | DoPost

  predicate Alive(t: Task) {
    t.state == Ready || t.state == Running
  }

  /** A task that has ended is not inside any more. */
  function Surviving(inside: set<nat>, s: State): set<nat>
    requires Shape(s)
  {
    set i | i in inside && i < MAX_TASKS && Alive(s.tasks[i])
  }

  /** Tasks pair lock and unlock and do not nest them; posts stay within the counter. */
  predicate Disciplined(w: World, a: Act) {
    match a
    case Sched(_) => true
    case DoLock => !w.s.parked && w.s.current !in w.inside
    case DoUnlock => !w.s.parked && w.s.current in w.inside
    case DoWait => !w.s.parked
    case DoPost => !w.s.parked && w.sem.count < INT32_MAX
  }

  function YieldIn(w: World): World
    requires Shape(w.s) && Shape(Yield(w.s))
  {
    w.(s := Yield(w.s), inside := Surviving(w.inside, Yield(w.s)))
  }

  function Do(w: World, a: Act): World
    requires Safe(w.s) && Disciplined(w, a)
  {
    NextSafe(w.s, if a.Sched? then a.e else OnYield);
    var me := w.s.current;
    match a
    case Sched(e) => w.(s := Next(w.s, e), inside := Surviving(w.inside, Next(w.s, e)))
    case DoLock =>
      var (lock, got) := TryLock(w.lock, me);
      if got then w.(lock := lock, inside := w.inside + {me as nat}) else YieldIn(w.(lock := lock))
    case DoUnlock => w.(lock := Unlock(w.lock, me), inside := w.inside - {me as nat})
    case DoWait =>
      var (sem, got) := TryWait(w.sem);
      if got then w.(sem := sem, waits := w.waits + 1) else YieldIn(w)
    case DoPost => w.(sem := Post(w.sem), posts := w.posts + 1)
  }

  /** Whoever is inside owns the mutex and is alive, and the semaphore's tokens add up. */
  predicate Inv(w: World) {
    && Safe(w.s)
    && (forall i :: i in w.inside ==> i < MAX_TASKS && i == w.lock.owner && Alive(w.s.tasks[i]))
    && w.sem.count == w.initial + w.posts - w.waits
    && (w.initial >= 0 ==> w.sem.count >= 0)
  }

  lemma DoKeepsInv(w: World, a: Act)
    requires Inv(w) && Disciplined(w, a)
    ensures Inv(Do(w, a)) && Do(w, a).initial == w.initial
  {
    hide Next, Yield;
    NextSafe(w.s, if a.Sched? then a.e else OnYield);
    NextIsYield(w.s);
  }

  lemma NextIsYield(s: State)
    requires Safe(s)
    ensures Next(s, OnYield) == if s.parked then s else Yield(s)
  {
  }

  predicate DisciplinedRun(w: World, acts: seq<Act>)
    requires Inv(w)
    decreases |acts|
  {
    acts == [] || (Disciplined(w, acts[0]) && (DoKeepsInv(w, acts[0]); DisciplinedRun(Do(w, acts[0]), acts[1..])))
  }

  function After(w: World, acts: seq<Act>): (r: World)
    requires Inv(w) && DisciplinedRun(w, acts)
    ensures Inv(r) && r.initial == w.initial
    decreases |acts|
  {
    if acts == [] then w
    else
      DoKeepsInv(w, acts[0]);
      After(Do(w, acts[0]), acts[1..])
  }

  /** Mutual exclusion and token conservation over every disciplined run, through yields,
      exits, watchdog kills and slots that are used again. */
  lemma EveryRun(w: World, acts: seq<Act>)
    requires Inv(w) && DisciplinedRun(w, acts)
    ensures var r := After(w, acts);
            && (forall i, j :: i in r.inside && j in r.inside ==> i == j)
            && r.sem.count == w.initial + r.posts - r.waits
            && (w.initial >= 0 ==> 0 <= r.sem.count && r.waits <= w.initial + r.posts)
  {
  }

  /** An unlock by its holder frees the mutex, and whoever tries next gets it. */
  lemma UnlockFrees(w: World, next: int)
    requires Inv(w) && Disciplined(w, DoUnlock)
    ensures Do(w, DoUnlock).lock.owner == FREE && Do(w, DoUnlock).inside == {}
    ensures Takes(Do(w, DoUnlock).lock, next)
  {
    var me: nat := w.s.current;
    assert forall i :: i in w.inside ==> i == me;
  }

  // ---- Fairness ---------------------------------------------------------------

  /** What the scheduler sees of an act. */
  function EventOf(w: World, a: Act): Option<Event> {
    match a
    case Sched(e) => Some(e)
    case DoLock => if TryLock(w.lock, w.s.current).1 then None else Some(OnYield)
    case DoWait => if TryWait(w.sem).1 then None else Some(OnYield)
    case DoUnlock => None
    case DoPost => None
  }

  lemma ActIsEvent(w: World, a: Act)
    requires Inv(w) && Disciplined(w, a)
    ensures Do(w, a).s == match EventOf(w, a) case Some(e) => Next(w.s, e) case None => w.s
  {
    hide Next, Yield;
    NextIsYield(w.s);
  }

  predicate GivesUp(w: World, a: Act) {
    EventOf(w, a).Some? && Leaves(EventOf(w, a).value)
  }

  /** Whoever runs could take the mutex with one try. */
  predicate Open(w: World) {
    Takes(w.lock, w.s.current)
  }

  /** The running task is about to give up the CPU with the mutex held and somebody waiting. */
  predicate HandsOver(w: World, a: Act) {
    w.lock.owner != FREE && GivesUp(w, a) && exists i :: 0 <= i < MAX_TASKS && Waiting(w.s, i)
  }

  predicate AlwaysOpen(w: World, acts: seq<Act>)
    requires Inv(w) && DisciplinedRun(w, acts)
    decreases |acts|
  {
    Open(w) && (acts == [] || (DoKeepsInv(w, acts[0]); AlwaysOpen(Do(w, acts[0]), acts[1..])))
  }

  predicate NeverHandsOver(w: World, acts: seq<Act>)
    requires Inv(w) && DisciplinedRun(w, acts)
    decreases |acts|
  {
    acts == [] || (!HandsOver(w, acts[0]) && (DoKeepsInv(w, acts[0]); NeverHandsOver(Do(w, acts[0]), acts[1..])))
  }

  /** The CPU changes hands exactly when it is given up and somebody waits for it. */
  lemma SwitchIff(w: World, a: Act)
    requires Inv(w) && Disciplined(w, a)
    ensures Do(w, a).s.current != w.s.current <==> GivesUp(w, a) && exists i :: 0 <= i < MAX_TASKS && Waiting(w.s, i)
  {
    hide Next, Do;
    ActIsEvent(w, a);
    match EventOf(w, a)
    case None =>
    case Some(e) =>
      if i :| 0 <= i < MAX_TASKS && Waiting(w.s, i) {
        if Leaves(e) {
          LeavingComesCloser(w.s, e, i);
        } else {
          QuietEvent(w.s, e, i);
        }
      } else {
        NobodyWaits(w.s, e);
      }
  }

  /** What an act does to the mutex as seen by the task that ran. */
  lemma LockStep(w: World, a: Act)
    requires Inv(w) && Disciplined(w, a) && Open(w)
    ensures Takes(Do(w, a).lock, w.s.current)
    ensures GivesUp(w, a) ==> Do(w, a).lock == w.lock
  {
    hide Next, Yield;
    NextSafe(w.s, if a.Sched? then a.e else OnYield);
  }

  /** From a state where a try succeeds, one act leads to another such state exactly when it
      does not give up the CPU, with the mutex held, while somebody waits. */
  lemma OpenStep(w: World, a: Act)
    requires Inv(w) && Disciplined(w, a) && Open(w)
    ensures Open(Do(w, a)) <==> !HandsOver(w, a)
  {
    hide Do, GivesUp, Disciplined, Waiting;
    SwitchIff(w, a);
    LockStep(w, a);
  }

  /** When retry loops are fair: over a whole run, every try succeeds at once, whoever makes it
      and whenever, if and only if nobody gives up the CPU while the mutex is held and somebody
      waits. */
  lemma {:induction false} FirstTryIff(w: World, acts: seq<Act>)
    requires Inv(w) && DisciplinedRun(w, acts) && Open(w)
    ensures AlwaysOpen(w, acts) <==> NeverHandsOver(w, acts)
    decreases |acts|
  {
    hide Do, Safe, Disciplined, Open, HandsOver;
    if acts != [] {
      DoKeepsInv(w, acts[0]);
      OpenStep(w, acts[0]);
      if Open(Do(w, acts[0])) {
        FirstTryIff(Do(w, acts[0]), acts[1..]);
      } else {
        NotOpen(Do(w, acts[0]), acts[1..]);
      }
    }
  }

  lemma NotOpen(w: World, acts: seq<Act>)
    requires Inv(w) && DisciplinedRun(w, acts) && !Open(w)
    ensures !AlwaysOpen(w, acts)
  {
  }

  // ---- First tries on the semaphore -------------------------------------------

  /** A token is there in every state of the run. */
  predicate AlwaysStocked(w: World, acts: seq<Act>)
    requires Inv(w) && DisciplinedRun(w, acts)
    decreases |acts|
  {
    TryWait(w.sem).1 && (acts == [] || (DoKeepsInv(w, acts[0]); AlwaysStocked(Do(w, acts[0]), acts[1..])))
  }

  /** What an act adds to the tokens when it succeeds. */
  function Change(a: Act): int {
    if a.DoPost? then 1 else if a.DoWait? then -1 else 0
  }

  /** Posts minus waits. */
  function Balance(acts: seq<Act>): int {
    if acts == [] then 0 else Change(acts[0]) + Balance(acts[1..])
  }

  /** Waits never catch up with the tokens at the start plus the posts so far. */
  predicate Covered(tokens: int, acts: seq<Act>) {
    forall k :: 0 <= k <= |acts| ==> tokens + Balance(acts[..k]) > 0
  }

  lemma CoveredStep(tokens: int, acts: seq<Act>)
    requires acts != [] && tokens > 0
    ensures Covered(tokens, acts) <==> Covered(tokens + Change(acts[0]), acts[1..])
  {
    forall k | 0 <= k < |acts|
      ensures Change(acts[0]) + Balance(acts[1..][..k]) == Balance(acts[..k + 1])
    {
      assert acts[..k + 1][1..] == acts[1..][..k];
    }
    if Covered(tokens + Change(acts[0]), acts[1..]) {
      forall k | 0 <= k <= |acts|
        ensures tokens + Balance(acts[..k]) > 0
      {
        assert k > 0 ==> tokens + Change(acts[0]) + Balance(acts[1..][..k - 1]) > 0;
      }
    }
  }

  lemma StockStep(w: World, a: Act)
    requires Inv(w) && Disciplined(w, a) && TryWait(w.sem).1
    ensures Do(w, a).sem.count == w.sem.count + Change(a)
  {
    hide Next, Yield;
    NextSafe(w.s, if a.Sched? then a.e else OnYield);
  }

  /** When waiting is fair: over a whole run every try to take a token succeeds at once,
      whoever makes it and whenever, if and only if the acts themselves never let the waits
      catch up with the tokens. Nothing about the scheduler matters. */
  lemma {:induction false} FirstWaitIff(w: World, acts: seq<Act>)
    requires Inv(w) && DisciplinedRun(w, acts)
    ensures AlwaysStocked(w, acts) <==> Covered(w.sem.count, acts)
    decreases |acts|
  {
    hide Do, Disciplined, Safe;
    assert acts[..0] == [];
    if TryWait(w.sem).1 && acts != [] {
      DoKeepsInv(w, acts[0]);
      StockStep(w, acts[0]);
      CoveredStep(w.sem.count, acts);
      FirstWaitIff(Do(w, acts[0]), acts[1..]);
    }
  }

  // ---- Bounded waiting --------------------------------------------------------

  /** How often the CPU is given up during a run. */
  function HandOffs(w: World, acts: seq<Act>): nat
    requires Inv(w) && DisciplinedRun(w, acts)
    decreases |acts|
  {
    if acts == [] then 0
    else
      DoKeepsInv(w, acts[0]);
      (if GivesUp(w, acts[0]) then 1 else 0) + HandOffs(Do(w, acts[0]), acts[1..])
  }

  lemma WaitingStep(w: World, a: Act, t: nat)
    requires Inv(w) && Disciplined(w, a) && Waiting(w.s, t)
    ensures Inv(Do(w, a)) && w.s.current != t
    ensures !GivesUp(w, a) ==> Waiting(Do(w, a).s, t) && Do(w, a).s.current == w.s.current
    ensures GivesUp(w, a) ==>
              var s' := Do(w, a).s;
              && (s'.current == t ==> s'.tasks[t].state == Running && !s'.parked)
              && (s'.current != t ==> Waiting(s', t) && Distance(s'.current, t) < Distance(w.s.current, t))
  {
    hide Next, Do;
    DoKeepsInv(w, a);
    ActIsEvent(w, a);
    match EventOf(w, a)
    case None =>
    case Some(e) =>
      if Leaves(e) {
        LeavingComesCloser(w.s, e, t);
      } else {
        QuietEvent(w.s, e, t);
      }
  }

  /** A ready task gets the CPU within as many hand-offs as it is slots away. What holds in
      every state of the run holds then. */
  lemma {:induction false} GetsCpuInTime(w: World, acts: seq<Act>, t: nat) returns (k: nat)
    requires Inv(w) && DisciplinedRun(w, acts)
    requires Waiting(w.s, t) && HandOffs(w, acts) >= Distance(w.s.current, t)
    ensures k <= |acts| && DisciplinedRun(w, acts[..k])
    ensures var r := After(w, acts[..k]);
            && r.s.current == t && r.s.tasks[t].state == Running
            && (AlwaysOpen(w, acts) ==> Open(r)) && (AlwaysStocked(w, acts) ==> TryWait(r.sem).1)
    decreases |acts|
  {
    hide Do, Safe, Disciplined, GivesUp, Open, TryWait;
    var a := acts[0];
    var w' := Do(w, a);
    WaitingStep(w, a, t);
    if w'.s.current == t {
      k := 1;
      assert acts[..1][1..] == [];
      AlwaysNow(w', acts[1..]);
    } else {
      k := GetsCpuInTime(w', acts[1..], t);
      assert acts[..k + 1][1..] == acts[1..][..k];
      k := k + 1;
    }
  }

  lemma AlwaysNow(w: World, acts: seq<Act>)
    requires Inv(w) && DisciplinedRun(w, acts)
    ensures (AlwaysOpen(w, acts) ==> Open(w)) && (AlwaysStocked(w, acts) ==> TryWait(w.sem).1)
  {
  }

  /** Bounded waiting for the mutex: in a run that never gives up the CPU with the mutex held
      and somebody waiting, a ready task gets the CPU within as many hand-offs as it is slots
      away, at most 15, and takes the mutex with its first try. */
  lemma GetsMutexInTime(w: World, acts: seq<Act>, t: nat) returns (k: nat)
    requires Inv(w) && DisciplinedRun(w, acts) && Open(w) && NeverHandsOver(w, acts)
    requires Waiting(w.s, t) && HandOffs(w, acts) >= Distance(w.s.current, t)
    ensures k <= |acts| && DisciplinedRun(w, acts[..k])
    ensures var r := After(w, acts[..k]);
            r.s.current == t && r.s.tasks[t].state == Running && TryLock(r.lock, t).1
  {
    hide Do, Safe, Disciplined, HandsOver, NeverHandsOver, AlwaysOpen, HandOffs;
    FirstTryIff(w, acts);
    k := GetsCpuInTime(w, acts, t);
  }

  /** Bounded waiting for a token: the same in a run whose waits never catch up with the
      tokens. */
  lemma GetsTokenInTime(w: World, acts: seq<Act>, t: nat) returns (k: nat)
    requires Inv(w) && DisciplinedRun(w, acts) && Covered(w.sem.count, acts)
    requires Waiting(w.s, t) && HandOffs(w, acts) >= Distance(w.s.current, t)
    ensures k <= |acts| && DisciplinedRun(w, acts[..k])
    ensures var r := After(w, acts[..k]);
            r.s.current == t && r.s.tasks[t].state == Running && TryWait(r.sem).1
  {
    hide Do, Safe, Disciplined, Covered, AlwaysStocked, HandOffs;
    FirstWaitIff(w, acts);
    k := GetsCpuInTime(w, acts, t);
  }

  // ---- Starvation -------------------------------------------------------------

  /** Task 0 runs, task 1 waits for the CPU, and nobody else exists. */
  predicate Pair(s: State) {
    && Safe(s) && s.current == 0 && !s.parked
    && s.tasks[1].state == Ready && !s.tasks[1].killPending
    && (forall i :: 2 <= i < MAX_TASKS ==> s.tasks[i].state == Unused)
  }

  /** Task 0 of such a pair holds the mutex. */
  predicate TwoTasks(w: World) {
    Inv(w) && Pair(w.s) && w.lock.owner == 0 && w.inside == {0}
  }

  /** Task 1 of such a pair is outside, and no token is left. */
  predicate TwoWaiters(w: World) {
    Inv(w) && Pair(w.s) && w.sem.count == 0 && 1 !in w.inside
  }

  predicate Tries(w: World, a: Act, t: nat) {
    w.s.current == t && (a.DoLock? || a.DoWait?)
  }

  /** Task `t` is outside, and if this is its try, it fails. */
  predicate Denied(w: World, a: Act, t: nat) {
    t !in w.inside && (Tries(w, a, t) ==> if a.DoLock? then !TryLock(w.lock, t).1 else !TryWait(w.sem).1)
  }

  /** Task `t` is outside in every state of the run, and every try it makes fails. */
  predicate NeverServed(w: World, acts: seq<Act>, t: nat)
    requires Inv(w) && DisciplinedRun(w, acts)
    decreases |acts|
  {
    t !in w.inside
    && (acts == [] || (Denied(w, acts[0], t) && (DoKeepsInv(w, acts[0]); NeverServed(Do(w, acts[0]), acts[1..], t))))
  }

  /** How often task `t` tries during a run. */
  function TriesOf(w: World, acts: seq<Act>, t: nat): nat
    requires Inv(w) && DisciplinedRun(w, acts)
    decreases |acts|
  {
    if acts == [] then 0
    else
      DoKeepsInv(w, acts[0]);
      (if Tries(w, acts[0], t) then 1 else 0) + TriesOf(Do(w, acts[0]), acts[1..], t)
  }

  /** The yield of the only runnable task but one goes to that one. */
  lemma YieldToOther(s: State, other: nat)
    requires Safe(s) && !s.parked && !s.tasks[s.current].killPending && other < MAX_TASKS && other != s.current
    requires forall i :: 0 <= i < MAX_TASKS ==> (s.tasks[i].state == Ready <==> i == other)
    ensures var s' := Yield(s);
            && s'.current == other && !s'.parked && s'.limit == s.limit
            && s'.tasks[other].state == Running && s'.tasks[s.current].state == Ready
            && s'.tasks[other].killPending == s.tasks[other].killPending
            && !s'.tasks[s.current].killPending
            && forall i :: 0 <= i < MAX_TASKS && i != other && i != s.current ==> s'.tasks[i] == s.tasks[i]
  {
    var s1 := s.(tasks := s.tasks[s.current := s.tasks[s.current].(starvedTicks := 0)]);
    var n := NextReady(s1.tasks, s.current);
    assert s1.tasks[other].state == Ready && 1 <= Distance(s.current, other);
    assert n == other;
  }

  /** A pair that yields to each other is a pair again. */
  lemma PairYields(s: State)
    requires Pair(s)
    ensures var s' := Yield(s);
            && Safe(s') && s'.current == 1 && !s'.parked && Pair(Yield(s'))
            && (forall i :: 0 <= i < MAX_TASKS ==> Alive(s'.tasks[i]) == Alive(s.tasks[i]) == Alive(Yield(s').tasks[i]))
  {
    hide Yield;
    YieldSafe(s);
    YieldToOther(s, 1);
    YieldSafe(Yield(s));
    YieldToOther(Yield(s), 0);
  }

  /** One denied act of a run. */
  ghost predicate Link(w: World, a: Act, w': World, t: nat) {
    Inv(w) && Disciplined(w, a) && w' == Do(w, a) && Inv(w') && Denied(w, a, t)
  }

  lemma Prepend(w: World, a: Act, w': World, rest: seq<Act>, t: nat)
    requires Link(w, a, w', t) && DisciplinedRun(w', rest) && NeverServed(w', rest, t)
    ensures DisciplinedRun(w, [a] + rest) && NeverServed(w, [a] + rest, t)
    ensures After(w, [a] + rest) == After(w', rest)
    ensures TriesOf(w, [a] + rest, t) == (if Tries(w, a, t) then 1 else 0) + TriesOf(w', rest, t)
  {
    hide Do;
    assert ([a] + rest)[1..] == rest;
  }

  /** One round of two tasks: give back, take again, yield; the other tries. */
  function Round(give: Act, take: Act, rest: seq<Act>): seq<Act> {
    [give] + ([take] + ([Sched(OnYield)] + ([take] + rest)))
  }

  function Rounds(give: Act, take: Act, n: nat): seq<Act> {
    if n == 0 then [] else Round(give, take, Rounds(give, take, n - 1))
  }

  /** The states of such a round, in which task 1 tries once and fails. */
  ghost predicate RoundLinks(w: World, w1: World, w2: World, w3: World, w4: World, give: Act, take: Act) {
    && Link(w, give, w1, 1) && Link(w1, take, w2, 1) && Link(w2, Sched(OnYield), w3, 1) && Link(w3, take, w4, 1)
    && !Tries(w, give, 1) && !Tries(w1, take, 1) && Tries(w3, take, 1)
  }

  lemma ExtendRound(w: World, w1: World, w2: World, w3: World, w4: World, give: Act, take: Act, rest: seq<Act>)
    requires RoundLinks(w, w1, w2, w3, w4, give, take) && Inv(w4) && DisciplinedRun(w4, rest) && NeverServed(w4, rest, 1)
    ensures Inv(w) && DisciplinedRun(w, Round(give, take, rest)) && NeverServed(w, Round(give, take, rest), 1)
    ensures After(w, Round(give, take, rest)) == After(w4, rest)
    ensures TriesOf(w, Round(give, take, rest), 1) == 1 + TriesOf(w4, rest, 1)
  {
    hide Do, DisciplinedRun, NeverServed, After, Disciplined, Denied, TriesOf;
    Prepend(w3, take, w4, rest, 1);
    Prepend(w2, Sched(OnYield), w3, [take] + rest, 1);
    Prepend(w1, take, w2, [Sched(OnYield)] + ([take] + rest), 1);
    Prepend(w, give, w1, [take] + ([Sched(OnYield)] + ([take] + rest)), 1);
  }

  /** A round on the mutex: at its end everything is as it was, except that the other task has
      tried once more. */
  lemma MutexRound(w: World) returns (w1: World, w2: World, w3: World, w4: World)
    requires TwoTasks(w)
    ensures RoundLinks(w, w1, w2, w3, w4, DoUnlock, DoLock) && TwoTasks(w4)
    ensures w4.lock.lockCount == Inc32(w.lock.lockCount)
  {
    hide Yield, Next;
    w1 := Do(w, DoUnlock);
    DoKeepsInv(w, DoUnlock);
    w2 := Do(w1, DoLock);
    DoKeepsInv(w1, DoLock);
    PairYields(w.s);
    NextIsYield(w.s);
    w3 := Do(w2, Sched(OnYield));
    DoKeepsInv(w2, Sched(OnYield));
    w4 := Do(w3, DoLock);
    DoKeepsInv(w3, DoLock);
  }

  /** A round on the semaphore: the token that task 0 posts is the one it takes. */
  lemma TokenRound(w: World) returns (w1: World, w2: World, w3: World, w4: World)
    requires TwoWaiters(w)
    ensures RoundLinks(w, w1, w2, w3, w4, DoPost, DoWait) && TwoWaiters(w4)
    ensures w4.posts == w.posts + 1 && w4.waits == w.waits + 1
  {
    hide Yield, Next;
    w1 := Do(w, DoPost);
    DoKeepsInv(w, DoPost);
    w2 := Do(w1, DoWait);
    DoKeepsInv(w1, DoWait);
    PairYields(w.s);
    NextIsYield(w.s);
    w3 := Do(w2, Sched(OnYield));
    DoKeepsInv(w2, Sched(OnYield));
    w4 := Do(w3, DoWait);
    DoKeepsInv(w3, DoWait);
  }

  function IncTimes(c: nat, n: nat): nat
    decreases n
  {
    if n == 0 then c else IncTimes(Inc32(c), n - 1)
  }

  /** The retry loop of the mutex is not fair: for every n there is a run in which the mutex is
      released n times and a task that waits for it tries n times and never gets in. */
  lemma {:induction false} RetryLoopCanStarve(w: World, n: nat)
    requires TwoTasks(w)
    ensures var run := Rounds(DoUnlock, DoLock, n);
            && DisciplinedRun(w, run) && NeverServed(w, run, 1) && TriesOf(w, run, 1) == n
            && TwoTasks(After(w, run)) && After(w, run).lock.lockCount == IncTimes(w.lock.lockCount, n)
    decreases n
  {
    hide Do, Inv, DisciplinedRun, NeverServed, After, TwoTasks, Round, RoundLinks, TriesOf;
    PairInv(w);
    if n == 0 {
      EmptyRun(w);
    } else {
      var w1, w2, w3, w4 := MutexRound(w);
      RetryLoopCanStarve(w4, n - 1);
      PairInv(w4);
      ExtendRound(w, w1, w2, w3, w4, DoUnlock, DoLock, Rounds(DoUnlock, DoLock, n - 1));
    }
  }

  /** Nor is the one of the semaphore: n tokens are posted, a waiting task tries n times and
      never gets one. */
  lemma {:induction false} WaitLoopCanStarve(w: World, n: nat)
    requires TwoWaiters(w)
    ensures var run := Rounds(DoPost, DoWait, n);
            && DisciplinedRun(w, run) && NeverServed(w, run, 1) && TriesOf(w, run, 1) == n
            && TwoWaiters(After(w, run)) && After(w, run).posts == w.posts + n
    decreases n
  {
    hide Do, Inv, DisciplinedRun, NeverServed, After, TwoWaiters, Round, RoundLinks, TriesOf;
    PairInv(w);
    if n == 0 {
      EmptyRun(w);
    } else {
      var w1, w2, w3, w4 := TokenRound(w);
      WaitLoopCanStarve(w4, n - 1);
      PairInv(w4);
      ExtendRound(w, w1, w2, w3, w4, DoPost, DoWait, Rounds(DoPost, DoWait, n - 1));
    }
  }

  lemma PairInv(w: World)
    requires TwoTasks(w) || TwoWaiters(w)
    ensures Inv(w) && w.s.tasks[1].state == Ready && 1 !in w.inside
  {
  }

  lemma EmptyRun(w: World)
    requires Inv(w) && 1 !in w.inside
    ensures DisciplinedRun(w, []) && NeverServed(w, [], 1) && After(w, []) == w && TriesOf(w, [], 1) == 0
  {
  }

  /** A freshly initialised system. */
  function Booted(s: State): World {
    World(Init(s), Lock(FREE, 0), Sem(0, 0), {}, 0, 0, 0)
  }

  /** Spawn a task, then lock: the start of the starving runs. */
  const PREPARE: seq<Act> := [Sched(OnSpawn(true)), DoLock]

  lemma BootedInv(s: State)
    ensures Inv(Booted(s))
  {
  }

  lemma PrepareReaches(s: State)
    ensures Inv(Booted(s)) && DisciplinedRun(Booted(s), PREPARE)
    ensures TwoTasks(After(Booted(s), PREPARE)) && TwoWaiters(After(Booted(s), PREPARE))
    ensures After(Booted(s), PREPARE).lock.lockCount == 0 && After(Booted(s), PREPARE).posts == 0
  {
    var w := Booted(s);
    BootedInv(s);
    assert FreeSlot(w.s.tasks) == 1;
    var w1 := Do(w, PREPARE[0]);
    DoKeepsInv(w, PREPARE[0]);
    assert PREPARE[1..] == [DoLock] && [DoLock][1..] == [];
    var w2 := Do(w1, DoLock);
    DoKeepsInv(w1, DoLock);
    assert TwoTasks(w2) && TwoWaiters(w2);
  }

  /** Starvation is real: a system reaches, two acts after boot, a state from which one task
      can fail any number of times although the mutex is released, or a token posted, each
      time. */
  lemma StarvationReachable(s: State, n: nat)
    ensures Inv(Booted(s)) && DisciplinedRun(Booted(s), PREPARE)
    ensures var w, run := After(Booted(s), PREPARE), Rounds(DoUnlock, DoLock, n);
            && w.s.tasks[1].state == Ready && DisciplinedRun(w, run) && NeverServed(w, run, 1)
            && TriesOf(w, run, 1) == n && After(w, run).lock.lockCount == IncTimes(0, n)
    ensures var w, run := After(Booted(s), PREPARE), Rounds(DoPost, DoWait, n);
            && DisciplinedRun(w, run) && NeverServed(w, run, 1)
            && TriesOf(w, run, 1) == n && After(w, run).posts == n
  {
    hide Do, DisciplinedRun, NeverServed, Disciplined, TriesOf, TwoTasks, TwoWaiters;
    PrepareReaches(s);
    PairInv(After(Booted(s), PREPARE));
    RetryLoopCanStarve(After(Booted(s), PREPARE), n);
    WaitLoopCanStarve(After(Booted(s), PREPARE), n);
  }
}
