/** Progress of the job queue: the lock is taken whenever it is free, given back by whoever
    holds it, and an operation that is left alone finishes with the effect it was started
    for. */
module SmpProgress {
  import opened SmpQueue

  /** A step in which the store-exclusive does not fail for no reason. The operation only
      matters to a core that starts one. */
  const CLEAN := Choice(Pop, false)

  // ---- One step ---------------------------------------------------------------

  /** Where a step leads a core that is inside an operation. */
  lemma OwnStep(s: System, c: nat, ch: Choice)
    requires Shape(s) && c < |s.cores| && !s.cores[c].at.Idle? && (s.cores[c].at.Store? ==> !ch.spurious)
    ensures |Step(s, c, ch).cores| == |s.cores| && Step(s, c, ch).cores[c].op == s.cores[c].op
    ensures var k, k' := s.cores[c], Step(s, c, ch).cores[c];
            match k.at
            case Load => k'.at == Test(s.locked) && k'.monitor
            case Test(seen) => k' == k.(at := if seen != 0 then Load else Store)
            case Store => k'.at == if !k.monitor then Load else if k.op.Submit? then NextSlot else TestEmpty
            case NextSlot => k'.at.TestFull?
            case TestFull(_) => k'.at == Unlock(Dropped) || k'.at.PutFn?
            case PutFn(_) => k'.at.PutArg?
            case PutArg(_) => k'.at.PutTail?
            case PutTail(_) => k'.at == Unlock(Accepted)
            case TestEmpty => k'.at == Unlock(Nothing) || k'.at.GetFn?
            case GetFn => k'.at.GetArg?
            case GetArg(_) => k'.at.PutHead?
            case PutHead(job) => k'.at == Unlock(Got(job))
            case Unlock(o) => k'.at == if o.Got? then Run(o.job) else Idle
            case Run(_) => k'.at == Idle
            case Idle => true
  {
  }

  // ---- Runs from any state ------------------------------------------------------

  /** The state after `moves`. */
  function RunFrom(s: System, moves: seq<Move>): (r: System)
    requires Inv(s) && Schedule(|s.cores|, moves)
    ensures Inv(r) && |r.cores| == |s.cores|
    decreases |moves|
  {
    if moves == [] then s
    else
      StepKeepsInv(s, moves[0].core, moves[0].choice);
      RunFrom(Step(s, moves[0].core, moves[0].choice), moves[1..])
  }

  /** The prefix that starts with the first move. */
  lemma RunOneMore(s: System, moves: seq<Move>, k: nat)
    requires Inv(s) && Schedule(|s.cores|, moves) && k < |moves|
    ensures var s' := Step(s, moves[0].core, moves[0].choice);
            && Inv(s') && |s'.cores| == |s.cores| && Schedule(|s.cores|, moves[1..][..k]) && Schedule(|s.cores|, moves[..k + 1])
            && RunFrom(s, moves[..k + 1]) == RunFrom(s', moves[1..][..k])
  {
    hide Inv, Step;
    InvShape(s);
    StepKeepsInv(s, moves[0].core, moves[0].choice);
    assert moves[..k + 1][0] == moves[0] && moves[..k + 1][1..] == moves[1..][..k];
  }

  // ---- The holder leaves --------------------------------------------------------

  /** How many of its own steps a core inside still needs. */
  function Left(p: Phase): nat {
    match p
    case NextSlot => 6
    case TestFull(_) => 5
    case PutFn(_) => 4
    case PutArg(_) => 3
    case PutTail(_) => 2
    case TestEmpty => 5
    case GetFn => 4
    case GetArg(_) => 3
    case PutHead(_) => 2
    case Unlock(_) => 1
    case _ => 0
  }

  function MovesOf(moves: seq<Move>, c: nat): nat {
    if moves == [] then 0 else (if moves[0].core == c then 1 else 0) + MovesOf(moves[1..], c)
  }

  lemma HolderStep(s: System, c: nat, ch: Choice, h: nat)
    requires Inv(s) && c < |s.cores| && h < |s.cores| && HoldsLock(s.cores[h].at)
    ensures var s' := Step(s, c, ch);
            && Inv(s') && |s'.cores| == |s.cores|
            && (c != h ==> s'.cores[h].at == s.cores[h].at)
            && (c == h ==> Left(s'.cores[h].at) < Left(s.cores[h].at))
            && (!HoldsLock(s'.cores[h].at) ==> s'.locked == 0)
  {
    hide Step, Progress, RingHolds, MutualExclusion;
    StepKeepsInv(s, c, ch);
    LockStep(s, c, ch);
    if c == h {
      OwnStep(s, h, ch);
    } else {
      OthersStay(s, c, ch, h);
    }
  }

  /** Whoever holds the lock gives it back after at most 6 moves of its own, in every schedule
      and whatever the other cores do. */
  lemma {:induction false} HolderLeaves(s: System, moves: seq<Move>, h: nat) returns (k: nat)
    requires Inv(s) && Schedule(|s.cores|, moves) && h < |s.cores| && HoldsLock(s.cores[h].at)
    requires MovesOf(moves, h) >= Left(s.cores[h].at)
    ensures k <= |moves| && RunFrom(s, moves[..k]).locked == 0 && !HoldsLock(RunFrom(s, moves[..k]).cores[h].at)
    decreases |moves|
  {
    hide Inv, Step;
    InvShape(s);
    var m := moves[0];
    var s' := Step(s, m.core, m.choice);
    HolderStep(s, m.core, m.choice, h);
    if HoldsLock(s'.cores[h].at) {
      k := HolderLeaves(s', moves[1..], h);
    } else {
      k := 0;
      assert moves[1..][..0] == [];
    }
    RunOneMore(s, moves, k);
    k := k + 1;
  }

  // ---- Somebody gets in -----------------------------------------------------------

  /** How many steps at most a core still takes until it gets the lock, if it stays free. */
  function Spin(k: Core): nat {
    match k.at
    case Store => if k.monitor then 1 else 4
    case Test(seen) => if seen != 0 then 4 else if k.monitor then 2 else 5
    case Load => 3
    case Idle => 4
    case Run(_) => 5
    case _ => 0
  }

  function Spins(cores: seq<Core>): nat {
    if cores == [] then 0 else Spin(cores[0]) + Spins(cores[1..])
  }

  lemma {:induction false} SpinsUpdate(cores: seq<Core>, c: nat, k: Core)
    requires c < |cores|
    ensures Spins(cores[c := k]) == Spins(cores) - Spin(cores[c]) + Spin(k)
  {
    if c > 0 {
      SpinsUpdate(cores[1..], c - 1, k);
      assert cores[c := k][1..] == cores[1..][c - 1 := k];
    } else {
      assert cores[c := k][1..] == cores[1..];
    }
  }

  lemma {:induction false} SpinsBound(cores: seq<Core>)
    ensures Spins(cores) <= 5 * |cores|
  {
    if cores != [] {
      SpinsBound(cores[1..]);
    }
  }

  /** While the lock is free, a clean step takes it or brings its core closer to taking it. */
  lemma FreeStep(s: System, c: nat, ch: Choice)
    requires Shape(s) && c < |s.cores| && s.locked == 0 && !HoldsLock(s.cores[c].at) && !ch.spurious
    ensures var s' := Step(s, c, ch);
            || (s'.locked == 1 && |s'.cores| == |s.cores| && HoldsLock(s'.cores[c].at))
            || (s'.locked == 0 && s'.cores == s.cores[c := s'.cores[c]] && Spin(s'.cores[c]) < Spin(s.cores[c]))
  {
  }

  /** A free lock is taken: in every schedule without failures for no reason, within 5 moves per
      core somebody gets in. */
  lemma {:induction false} SomebodyGetsIn(s: System, moves: seq<Move>) returns (k: nat)
    requires Inv(s) && Schedule(|s.cores|, moves) && s.locked == 0
    requires forall i :: 0 <= i < |moves| ==> !moves[i].choice.spurious
    requires |moves| > Spins(s.cores)
    ensures k <= |moves| && RunFrom(s, moves[..k]).locked == 1
    decreases |moves|
  {
    hide Inv, Step, Spin;
    InvShape(s);
    NobodyInside(s, moves[0].core);
    var m := moves[0];
    var s' := Step(s, m.core, m.choice);
    StepKeepsInv(s, m.core, m.choice);
    FreeStep(s, m.core, m.choice);
    if s'.locked == 1 {
      k := 0;
      assert moves[1..][..0] == [];
    } else {
      SpinsUpdate(s.cores, m.core, s'.cores[m.core]);
      k := SomebodyGetsIn(s', moves[1..]);
    }
    RunOneMore(s, moves, k);
    k := k + 1;
  }

  lemma NobodyInside(s: System, c: nat)
    requires Inv(s) && c < |s.cores| && s.locked == 0
    ensures !HoldsLock(s.cores[c].at)
  {
  }

  // ---- An operation left alone ----------------------------------------------------

  /** The state after `n` clean steps of one core. */
  function Alone(s: System, c: nat, n: nat): (r: System)
    requires Inv(s) && c < |s.cores|
    ensures Inv(r) && |r.cores| == |s.cores|
    decreases n
  {
    if n == 0 then s
    else
      StepKeepsInv(s, c, CLEAN);
      Alone(Step(s, c, CLEAN), c, n - 1)
  }

  /** `r` is `s` with core `c` at `p`, the same operation, nothing changed for the other cores
      but their monitors, and these jobs added to the histories. */
  predicate Did(s: System, r: System, c: nat, p: Phase, accepted: seq<Job>, popped: seq<Job>, executed: seq<Job>)
    requires c < |s.cores|
  {
    && |r.cores| == |s.cores| && r.cores[c].at == p && r.cores[c].op == s.cores[c].op
    && (forall d :: 0 <= d < |s.cores| && d != c ==> r.cores[d].at == s.cores[d].at && r.cores[d].op == s.cores[d].op)
    && r.accepted == s.accepted + accepted && r.popped == s.popped + popped && r.executed == s.executed + executed
  }

  lemma DidMore(s: System, r: System, t: System, c: nat, p: Phase, q: Phase,
                a: seq<Job>, b: seq<Job>, e: seq<Job>, a': seq<Job>, b': seq<Job>, e': seq<Job>)
    requires c < |s.cores| && Did(s, r, c, p, a, b, e) && Did(r, t, c, q, a', b', e')
    ensures Did(s, t, c, q, a + a', b + b', e + e')
  {
  }

  /** What one clean step does. */
  lemma StepDid(s: System, c: nat)
    requires Inv(s) && c < |s.cores| && !s.cores[c].at.Idle?
    ensures var s', p := Step(s, c, CLEAN), s.cores[c].at;
            && Inv(s') && |s'.cores| == |s.cores|
            && Did(s, s', c, s'.cores[c].at, if p.PutTail? && s.cores[c].op.Submit? then [s.cores[c].op.job] else [], TakenBy(p), RunBy(p))
  {
    hide Inv;
    InvShape(s);
    var s' := Step(s, c, CLEAN);
    StepKeepsInv(s, c, CLEAN);
    OwnStep(s, c, CLEAN);
    forall d | 0 <= d < |s.cores| && d != c
      ensures s'.cores[d].at == s.cores[d].at && s'.cores[d].op == s.cores[d].op
    {
      OthersStay(s, c, CLEAN, d);
    }
    assert s.accepted + [] == s.accepted && s.popped + [] == s.popped && s.executed + [] == s.executed;
  }

  /** What an operation adds to the histories. */
  datatype Effect = Effect(accepted: seq<Job>, popped: seq<Job>, executed: seq<Job>)

  const NONE := Effect([], [], [])

  function Submitted(s: System, k: Core): Effect {
    if k.op.Submit? then Effect([k.op.job], [], []) else NONE
  }

  function Taken(q: seq<Job>): Effect {
    if q == [] then NONE else Effect([], [q[0]], [q[0]])
  }

  /** What a core inside still does: a submit appends its job unless 15 wait, a pop takes out the
      oldest job and runs it unless none waits. */
  function Rest(s: System, k: Core): Effect
    requires |s.popped| <= |s.accepted|
  {
    match k.at
    case NextSlot => if |Pending(s)| == 15 then NONE else Submitted(s, k)
    case TestFull(_) => if |Pending(s)| == 15 then NONE else Submitted(s, k)
    case PutFn(_) => Submitted(s, k)
    case PutArg(_) => Submitted(s, k)
    case PutTail(_) => Submitted(s, k)
    case TestEmpty => Taken(Pending(s))
    case GetFn => Taken(Pending(s))
    case GetArg(_) => Taken(Pending(s))
    case PutHead(_) => Taken(Pending(s))
    case Unlock(o) => if o.Got? then Effect([], [], [o.job]) else NONE
    case Run(job) => Effect([], [], [job])
    case _ => NONE
  }

  /** In how many steps. */
  function Steps(s: System, k: Core): nat
    requires |s.popped| <= |s.accepted|
  {
    match k.at
    case NextSlot => if |Pending(s)| == 15 then 3 else 6
    case TestFull(_) => if |Pending(s)| == 15 then 2 else 5
    case PutFn(_) => 4
    case PutArg(_) => 3
    case PutTail(_) => 2
    case TestEmpty => if Pending(s) == [] then 2 else 6
    case GetFn => 5
    case GetArg(_) => 4
    case PutHead(_) => 3
    case Unlock(o) => if o.Got? then 2 else 1
    case Run(_) => 1
    case _ => 0
  }

  /** The lock is held or already given back. */
  predicate PastLock(p: Phase) {
    HoldsLock(p) || p.Run?
  }

  predicate DidEffect(s: System, r: System, c: nat, p: Phase, e: Effect)
    requires c < |s.cores|
  {
    Did(s, r, c, p, e.accepted, e.popped, e.executed)
  }

  function Then(e: Effect, f: Effect): Effect {
    Effect(e.accepted + f.accepted, e.popped + f.popped, e.executed + f.executed)
  }

  lemma Histories(s: System)
    requires Inv(s)
    ensures |s.popped| <= |s.accepted| && Shape(s) && RingHolds(s)
    ensures forall c :: 0 <= c < |s.cores| ==> Progress(s, s.cores[c])
  {
  }

  function EffectOf(k: Core): Effect {
    Effect(if k.at.PutTail? && k.op.Submit? then [k.op.job] else [], TakenBy(k.at), RunBy(k.at))
  }

  /** One step of an operation does its share and leaves the rest. */
  lemma RestStep(s: System, c: nat)
    requires Inv(s) && c < |s.cores| && PastLock(s.cores[c].at)
    ensures var s', k := Step(s, c, CLEAN), s.cores[c];
            && Inv(s') && |s'.cores| == |s.cores| && |s'.popped| <= |s'.accepted| && |s.popped| <= |s.accepted|
            && (s'.cores[c].at == Idle || PastLock(s'.cores[c].at))
            && Rest(s, k) == Then(EffectOf(k), Rest(s', s'.cores[c]))
            && Steps(s, k) == 1 + Steps(s', s'.cores[c])
  {
    hide Inv, Step, Pending, Progress, RingHolds;
    Histories(s);
    var s', k := Step(s, c, CLEAN), s.cores[c];
    StepKeepsInv(s, c, CLEAN);
    Histories(s');
    OwnStep(s, c, CLEAN);
    StepRefines(s, c, CLEAN);
    IsSubmit(s, k);
    Waits(s, k);
  }

  lemma IsSubmit(s: System, k: Core)
    requires Shape(s) && Progress(s, k)
    ensures k.at.NextSlot? || k.at.TestFull? || k.at.PutFn? || k.at.PutArg? || k.at.PutTail? ==> k.op.Submit?
  {
  }

  lemma Waits(s: System, k: Core)
    requires Shape(s) && Progress(s, k) && RingHolds(s)
    ensures k.at.GetFn? || k.at.GetArg? || k.at.PutHead? ==> Pending(s) != []
  {
    hide Ring;
    RingFull(s.head, s.tail, s.fns, s.args, Pending(s));
  }

  /** From inside, an operation left alone ends in exactly that many steps and does exactly what
      is left of it. */
  lemma {:induction false} Finishes(s: System, c: nat)
    requires Inv(s) && c < |s.cores| && PastLock(s.cores[c].at) && |s.popped| <= |s.accepted|
    ensures DidEffect(s, Alone(s, c, Steps(s, s.cores[c])), c, Idle, Rest(s, s.cores[c]))
    decreases Steps(s, s.cores[c])
  {
    hide Inv, Step, Pending, Rest, Steps, Did;
    Histories(s);
    var s' := Step(s, c, CLEAN);
    RestStep(s, c);
    StepDid(s, c);
    if s'.cores[c].at == Idle {
      Idles(s', c);
      Alone1(s, c);
      ThenNothing(EffectOf(s.cores[c]));
    } else {
      Finishes(s', c);
      DidMore(s, s', Alone(s', c, Steps(s', s'.cores[c])), c, s'.cores[c].at, Idle, EffectOf(s.cores[c]).accepted,
              EffectOf(s.cores[c]).popped, EffectOf(s.cores[c]).executed, Rest(s', s'.cores[c]).accepted,
              Rest(s', s'.cores[c]).popped, Rest(s', s'.cores[c]).executed);
    }
  }

  lemma ThenNothing(e: Effect)
    ensures Then(e, NONE) == e
  {
    assert e.accepted + [] == e.accepted && e.popped + [] == e.popped && e.executed + [] == e.executed;
  }

  lemma Idles(s: System, c: nat)
    requires c < |s.cores| && s.cores[c].at == Idle && |s.popped| <= |s.accepted|
    ensures Rest(s, s.cores[c]) == NONE && Steps(s, s.cores[c]) == 0
  {
  }

  lemma Alone1(s: System, c: nat)
    requires Inv(s) && c < |s.cores|
    ensures Alone(s, c, 1) == Step(s, c, CLEAN)
  {
    hide Inv, Step;
    Histories(s);
    StepKeepsInv(s, c, CLEAN);
    assert Alone(Step(s, c, CLEAN), c, 0) == Step(s, c, CLEAN);
  }

  lemma {:induction false} AloneJoin(s: System, c: nat, m: nat, n: nat)
    requires Inv(s) && c < |s.cores|
    ensures Alone(Alone(s, c, m), c, n) == Alone(s, c, m + n)
    decreases m
  {
    hide Inv, Step;
    Histories(s);
    if m > 0 {
      StepKeepsInv(s, c, CLEAN);
      AloneJoin(Step(s, c, CLEAN), c, m - 1, n);
    }
  }

  /** A free lock is taken by a core that is left alone, in at most 5 steps and in 3 from the
      start. Nothing else happens. */
  lemma {:induction false} Acquires(s: System, c: nat)
    requires Inv(s) && c < |s.cores| && s.locked == 0
    requires s.cores[c].at.Load? || s.cores[c].at.Test? || s.cores[c].at.Store?
    ensures var r := Alone(s, c, Spin(s.cores[c]));
            && r.locked == 1 && DidEffect(s, r, c, if s.cores[c].op.Submit? then NextSlot else TestEmpty, NONE)
    decreases Spin(s.cores[c])
  {
    hide Inv, Step, Did;
    Histories(s);
    NobodyInside(s, c);
    var s' := Step(s, c, CLEAN);
    StepDid(s, c);
    OwnStep(s, c, CLEAN);
    FreeStep(s, c, CLEAN);
    if s'.locked == 1 {
      Alone1(s, c);
      SpinsOnce(s, c);
    } else {
      SpinStep(s, c);
      Acquires(s', c);
      DidMore(s, s', Alone(s', c, Spin(s'.cores[c])), c, s'.cores[c].at, if s.cores[c].op.Submit? then NextSlot else TestEmpty,
              [], [], [], [], [], []);
      DidOp(s, s', c);
    }
  }

  lemma SpinsOnce(s: System, c: nat)
    requires Shape(s) && c < |s.cores| && s.locked == 0 && !HoldsLock(s.cores[c].at) && Step(s, c, CLEAN).locked == 1
    ensures Spin(s.cores[c]) == 1 && |Step(s, c, CLEAN).cores| == |s.cores|
  {
  }

  lemma SpinStep(s: System, c: nat)
    requires Shape(s) && c < |s.cores| && s.locked == 0 && Step(s, c, CLEAN).locked == 0
    requires s.cores[c].at.Load? || s.cores[c].at.Test? || s.cores[c].at.Store?
    ensures |Step(s, c, CLEAN).cores| == |s.cores|
    ensures var k := Step(s, c, CLEAN).cores[c];
            Spin(s.cores[c]) == 1 + Spin(k) && (k.at.Load? || k.at.Test? || k.at.Store?)
  {
  }

  lemma DidOp(s: System, r: System, c: nat)
    requires c < |s.cores| && |r.cores| == |s.cores| && Did(s, r, c, r.cores[c].at, [], [], [])
    ensures r.cores[c].op == s.cores[c].op
  {
  }

  /** Obstruction freedom: from any state with the lock free, an operation that runs alone ends,
      after exactly 9 steps, or 6 for a submit that finds 15 jobs waiting, or 5 for a pop that
      finds none. The submit has appended its job unless it was dropped; the pop has taken out
      and run the oldest waiting job. Other cores are where they were, and the lock is free. */
  lemma LeftAlone(s: System, c: nat) returns (n: nat)
    requires Inv(s) && c < |s.cores| && s.locked == 0 && s.cores[c].at == Load
    ensures |s.popped| <= |s.accepted|
    ensures match s.cores[c].op
            case Submit(job) =>
              if |Pending(s)| == 15 then n == 6 && Did(s, Alone(s, c, n), c, Idle, [], [], [])
              else n == 9 && Did(s, Alone(s, c, n), c, Idle, [job], [], [])
            case Pop =>
              if Pending(s) == [] then n == 5 && Did(s, Alone(s, c, n), c, Idle, [], [], [])
              else n == 9 && Did(s, Alone(s, c, n), c, Idle, [], [Pending(s)[0]], [Pending(s)[0]])
    ensures Alone(s, c, n).locked == 0
  {
    hide Inv, Step, Did, Alone;
    Histories(s);
    var r := Alone(s, c, 3);
    Acquires(s, c);
    Histories(r);
    SamePending(s, r, c);
    Finishes(r, c);
    n := 3 + Steps(r, r.cores[c]);
    AloneJoin(s, c, 3, Steps(r, r.cores[c]));
    var e := Rest(r, r.cores[c]);
    DidMore(s, r, Alone(s, c, n), c, r.cores[c].at, Idle, [], [], [], e.accepted, e.popped, e.executed);
    LockFree(s, Alone(s, c, n), c, e);
  }

  lemma SamePending(s: System, r: System, c: nat)
    requires c < |s.cores| && |s.popped| <= |s.accepted| && |r.cores| == |s.cores|
    requires Did(s, r, c, if s.cores[c].op.Submit? then NextSlot else TestEmpty, [], [], [])
    ensures |r.popped| <= |r.accepted| && Pending(r) == Pending(s) && r.cores[c].op == s.cores[c].op
    ensures r.cores[c].at == if s.cores[c].op.Submit? then NextSlot else TestEmpty
  {
  }

  lemma LockFree(s: System, r: System, c: nat, e: Effect)
    requires Inv(s) && Inv(r) && c < |s.cores| && s.locked == 0 && Did(s, r, c, Idle, [] + e.accepted, [] + e.popped, [] + e.executed)
    ensures r.locked == 0
    ensures Did(s, r, c, Idle, e.accepted, e.popped, e.executed)
  {
    assert [] + e.accepted == e.accepted && [] + e.popped == e.popped && [] + e.executed == e.executed;
    forall d | 0 <= d < |r.cores|
      ensures !HoldsLock(r.cores[d].at)
    {
      if d != c {
        assert r.cores[d].at == s.cores[d].at;
      }
      NobodyInside(s, d);
    }
  }

  // ---- No deadlock ----------------------------------------------------------------

  /** The holder, left alone, gives the lock back in at most 6 steps; the other cores are where
      they were. */
  lemma {:induction false} LeavesAlone(s: System, h: nat) returns (a: nat)
    requires Inv(s) && h < |s.cores| && HoldsLock(s.cores[h].at)
    ensures a <= Left(s.cores[h].at) && Alone(s, h, a).locked == 0
    ensures forall d :: 0 <= d < |s.cores| && d != h ==>
              Alone(s, h, a).cores[d].at == s.cores[d].at && Alone(s, h, a).cores[d].op == s.cores[d].op
    decreases Left(s.cores[h].at)
  {
    hide Inv, Step;
    Histories(s);
    var s' := Step(s, h, CLEAN);
    HolderStep(s, h, CLEAN, h);
    StepDid(s, h);
    if HoldsLock(s'.cores[h].at) {
      a := LeavesAlone(s', h);
    } else {
      a := 0;
    }
    a := a + 1;
  }

  lemma StepsBound(s: System, k: Core)
    requires |s.popped| <= |s.accepted|
    ensures Steps(s, k) <= 6
  {
  }

  lemma FinishesInside(s: System, c: nat) returns (n: nat)
    requires Inv(s) && c < |s.cores| && PastLock(s.cores[c].at)
    ensures n <= 6 && Alone(s, c, n).cores[c].at == Idle
  {
    hide Inv, Step, Alone, Rest;
    Histories(s);
    Finishes(s, c);
    StepsBound(s, s.cores[c]);
    n := Steps(s, s.cores[c]);
  }

  lemma FinishesFree(s: System, c: nat) returns (n: nat)
    requires Inv(s) && c < |s.cores| && s.locked == 0 && !s.cores[c].at.Idle?
    ensures n <= 11 && Alone(s, c, n).cores[c].at == Idle
  {
    hide Inv, Step, Alone;
    NobodyInside(s, c);
    if s.cores[c].at.Run? {
      n := FinishesInside(s, c);
    } else {
      Acquires(s, c);
      var m := Spin(s.cores[c]);
      n := FinishesInside(Alone(s, c, m), c);
      AloneJoin(s, c, m, n);
      n := n + m;
    }
  }

  lemma Holder(s: System) returns (h: nat)
    requires Inv(s) && s.locked != 0
    ensures h < |s.cores| && HoldsLock(s.cores[h].at)
  {
    h :| 0 <= h < |s.cores| && HoldsLock(s.cores[h].at);
  }

  /** No state is a deadlock: every operation that has begun can be finished by at most 6 steps
      of the core that is inside and at most 11 of its own. */
  lemma NoDeadlock(s: System, c: nat) returns (h: nat, a: nat, n: nat)
    requires Inv(s) && c < |s.cores| && !s.cores[c].at.Idle?
    ensures h < |s.cores| && a <= 6 && n <= 11 && Alone(Alone(s, h, a), c, n).cores[c].at == Idle
  {
    hide Inv, Step;
    h, a := c, 0;
    if s.locked == 0 {
      n := FinishesFree(s, c);
    } else {
      h := Holder(s);
      if h == c {
        n := FinishesInside(s, c);
      } else {
        a := LeavesAlone(s, h);
        n := FinishesFree(Alone(s, h, a), c);
      }
    }
  }
}
