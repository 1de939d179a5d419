/** The SMP job queue: an LL/SC spinlock and a ring of 16 slots, shared by any number of
    cores and modelled one memory access at a time.

    A core runs submit or pop. Every load and store of the lock word, of the two indices and
    of the two halves of a slot is a step of its own, and the steps of all cores interleave in
    any order. */
module SmpQueue {

  const JOB_QUEUE: nat := 16

  datatype Job = Job(fn: nat, arg: nat)

  datatype Op = Submit(job: Job) | Pop

  datatype Outcome = Accepted | Dropped | Nothing | Got(job: Job)

  datatype Phase =
    | Idle
    // spin_lock: load-exclusive, test, store-exclusive
    | Load
    | Test(seen: nat)
    | Store
    // smp_submit, holding the lock
    | NextSlot
    | TestFull(next: nat)
    | PutFn(next: nat)
    | PutArg(next: nat)
    | PutTail(next: nat)
    // job_pop, holding the lock
    | TestEmpty
    | GetFn
    | GetArg(fn: nat)
    | PutHead(job: Job)
    // spin_unlock, then the worker runs what it popped
    | Unlock(outcome: Outcome)
    | Run(job: Job)

  datatype Core = Core(op: Op, at: Phase, monitor: bool)

  /** `accepted`, `popped` and `executed` are histories: the jobs stored, taken out and run
      so far. */
  datatype System = System(
    locked: nat, head: nat, tail: nat, fns: seq<nat>, args: seq<nat>, cores: seq<Core>,
    accepted: seq<Job>, popped: seq<Job>, executed: seq<Job>)

  predicate HoldsLock(p: Phase) {
    !(p.Idle? || p.Load? || p.Test? || p.Store? || p.Run?)
  }

  // ---- Steps ------------------------------------------------------------------

  /** What the schedule decides for one step: an idle core may start an operation, and a
      store-exclusive may fail for no reason. */
  datatype Choice = Choice(op: Op, spurious: bool)

  function Goto(s: System, c: nat, p: Phase): System
    requires c < |s.cores|
  {
    s.(cores := s.cores[c := s.cores[c].(at := p)])
  }

  /** A store to the lock word by core `c` clears every core's exclusive monitor. */
  function StoreLock(s: System, c: nat, v: nat, p: Phase): System
    requires c < |s.cores|
  {
    s.(locked := v,
       cores := seq(|s.cores|, i requires 0 <= i < |s.cores| =>
                  var k := s.cores[i]; if i == c then k.(at := p, monitor := false) else k.(monitor := false)))
  }

  function Step(s: System, c: nat, ch: Choice): System
    requires c < |s.cores| && |s.fns| == |s.args| == JOB_QUEUE && s.head < JOB_QUEUE && s.tail < JOB_QUEUE
  {
    var k := s.cores[c];
    match k.at
    case Idle => s.(cores := s.cores[c := k.(op := ch.op, at := Load)])
    case Load => s.(cores := s.cores[c := k.(at := Test(s.locked), monitor := true)])
    case Test(seen) => Goto(s, c, if seen != 0 then Load else Store)
    case Store =>
      if k.monitor && !ch.spurious then StoreLock(s, c, 1, if k.op.Submit? then NextSlot else TestEmpty)
      else s.(cores := s.cores[c := k.(at := Load, monitor := false)])
    case NextSlot => Goto(s, c, TestFull((s.tail + 1) % 16))
    case TestFull(next) => Goto(s, c, if next == s.head then Unlock(Dropped) else PutFn(next))
    case PutFn(next) =>
      Goto(s.(fns := if k.op.Submit? then s.fns[s.tail := k.op.job.fn] else s.fns), c, PutArg(next))
    case PutArg(next) =>
      Goto(s.(args := if k.op.Submit? then s.args[s.tail := k.op.job.arg] else s.args), c, PutTail(next))
    case PutTail(next) =>
      Goto(s.(tail := next % 16, accepted := s.accepted + if k.op.Submit? then [k.op.job] else []), c, Unlock(Accepted))
    case TestEmpty => Goto(s, c, if s.head != s.tail then GetFn else Unlock(Nothing))
    case GetFn => Goto(s, c, GetArg(s.fns[s.head]))
    case GetArg(fn) => Goto(s, c, PutHead(Job(fn, s.args[s.head])))
    case PutHead(job) => Goto(s.(head := (s.head + 1) % 16, popped := s.popped + [job]), c, Unlock(Got(job)))
    case Unlock(o) => StoreLock(s, c, 0, if o.Got? then Run(o.job) else Idle)
    case Run(job) => Goto(s.(executed := s.executed + [job]), c, Idle)
  }

  // ---- Invariant --------------------------------------------------------------

  /** Jobs accepted and not yet popped. */
  function Pending(s: System): seq<Job>
    requires |s.popped| <= |s.accepted|
  {
    s.accepted[|s.popped|..]
  }

  predicate Shape(s: System) {
    |s.fns| == |s.args| == JOB_QUEUE && s.head < JOB_QUEUE && s.tail < JOB_QUEUE && s.locked <= 1
  }

  /** At most one core is between lock and unlock, and the lock word says whether one is. */
  predicate MutualExclusion(s: System) {
    && (forall c, d :: 0 <= c < d < |s.cores| ==> !(HoldsLock(s.cores[c].at) && HoldsLock(s.cores[d].at)))
    && (s.locked == 1 <==> exists c :: 0 <= c < |s.cores| && HoldsLock(s.cores[c].at))
  }

  /** An armed monitor means the lock word has not changed since it was loaded. */
  predicate MonitorSound(k: Core, locked: nat) {
    k.monitor ==> (k.at.Test? ==> k.at.seen == locked) && (k.at.Store? ==> locked == 0)
  }

  /** The ring holds the pending jobs in order, and they are what is left of the accepted. */
  predicate RingHolds(s: System)
    requires Shape(s)
  {
    s.popped <= s.accepted && Ring(s.head, s.tail, s.fns, s.args, Pending(s))
  }

  /** The slots from `head` up to `tail` hold `q`. */
  predicate Ring(head: nat, tail: nat, fns: seq<nat>, args: seq<nat>, q: seq<Job>) {
    && |fns| == |args| == JOB_QUEUE && head < JOB_QUEUE && |q| < JOB_QUEUE
    && tail == (head + |q|) % 16
    && forall i :: 0 <= i < |q| ==> Job(fns[(head + i) % 16], args[(head + i) % 16]) == q[i]
  }

  /** What a core inside the critical section has established so far. */
  predicate Progress(s: System, k: Core)
    requires Shape(s)
  {
    match k.at
    case NextSlot => k.op.Submit?
    case TestFull(next) => k.op.Submit? && next == (s.tail + 1) % 16
    case PutFn(next) => k.op.Submit? && next == (s.tail + 1) % 16 && next != s.head
    case PutArg(next) =>
      k.op.Submit? && next == (s.tail + 1) % 16 && next != s.head && s.fns[s.tail] == k.op.job.fn
    case PutTail(next) =>
      k.op.Submit? && next == (s.tail + 1) % 16 && next != s.head && s.fns[s.tail] == k.op.job.fn
      && s.args[s.tail] == k.op.job.arg
    case GetFn => s.head != s.tail
    case GetArg(fn) => s.head != s.tail && fn == s.fns[s.head]
    case PutHead(job) => s.head != s.tail && job == Job(s.fns[s.head], s.args[s.head])
    case _ => true
  }

  predicate Inv(s: System) {
    && Shape(s)
    && MutualExclusion(s)
    && (forall c :: 0 <= c < |s.cores| ==> MonitorSound(s.cores[c], s.locked))
    && (forall c :: 0 <= c < |s.cores| ==> Progress(s, s.cores[c]))
    && RingHolds(s)
  }

  // ---- Every step keeps the invariant -----------------------------------------

  /** A step by another core leaves this core's phase and operation alone. */
  lemma OthersStay(s: System, c: nat, ch: Choice, d: nat)
    requires Shape(s) && c < |s.cores| && d < |s.cores| && d != c
    ensures var s' := Step(s, c, ch);
            && |s'.cores| == |s.cores|
            && s'.cores[d].at == s.cores[d].at && s'.cores[d].op == s.cores[d].op
            && (s'.cores[d].monitor ==> s.cores[d].monitor && s'.locked == s.locked)
  {
    hide StoreLock;
    match s.cores[c].at
    case Store => StoreOther(s, c, 1, if s.cores[c].op.Submit? then NextSlot else TestEmpty, d);
    case Unlock(o) => StoreOther(s, c, 0, if o.Got? then Run(o.job) else Idle, d);
    case _ =>
  }

  lemma StoreOther(s: System, c: nat, v: nat, p: Phase, d: nat)
    requires c < |s.cores| && d < |s.cores| && d != c
    ensures var s' := StoreLock(s, c, v, p);
            |s'.cores| == |s.cores| && s'.cores[d] == s.cores[d].(monitor := false)
  {
  }

  /** Only the lock holder, or a core whose store-exclusive succeeds, changes shared state. */
  lemma OnlyHolderChanges(s: System, c: nat, ch: Choice)
    requires Shape(s) && c < |s.cores| && !HoldsLock(s.cores[c].at)
    ensures var s' := Step(s, c, ch);
            && s'.head == s.head && s'.tail == s.tail && s'.fns == s.fns && s'.args == s.args
            && s'.accepted == s.accepted && s'.popped == s.popped
  {
  }

  /** The lock is taken only when it was free, and released only by its holder. */
  lemma LockStep(s: System, c: nat, ch: Choice)
    requires Shape(s) && c < |s.cores| && MonitorSound(s.cores[c], s.locked)
    ensures var s' := Step(s, c, ch);
            && |s'.cores| == |s.cores|
            && (HoldsLock(s'.cores[c].at) && !HoldsLock(s.cores[c].at) ==> s.locked == 0 && s'.locked == 1)
            && (!HoldsLock(s'.cores[c].at) && HoldsLock(s.cores[c].at) ==> s'.locked == 0)
            && (HoldsLock(s'.cores[c].at) == HoldsLock(s.cores[c].at) ==> s'.locked == s.locked)
            && MonitorSound(s'.cores[c], s'.locked)
  {
  }

  lemma ExclusionKept(s: System, c: nat, ch: Choice)
    requires Inv(s) && c < |s.cores|
    ensures MutualExclusion(Step(s, c, ch))
  {
    hide Step, Progress, RingHolds;
    var s' := Step(s, c, ch);
    LockStep(s, c, ch);
    forall d | 0 <= d < |s.cores| && d != c
      ensures s'.cores[d].at == s.cores[d].at
    {
      OthersStay(s, c, ch, d);
    }
    if HoldsLock(s'.cores[c].at) && !HoldsLock(s.cores[c].at) {
      assert forall d :: 0 <= d < |s.cores| ==> !HoldsLock(s.cores[d].at);
    } else if HoldsLock(s'.cores[c].at) == HoldsLock(s.cores[c].at) && s.locked == 1 {
      var h :| 0 <= h < |s.cores| && HoldsLock(s.cores[h].at);
      assert HoldsLock(s'.cores[h].at);
    }
  }

  lemma MonitorsKept(s: System, c: nat, ch: Choice, d: nat)
    requires Inv(s) && c < |s.cores| && d < |s.cores|
    ensures |Step(s, c, ch).cores| == |s.cores|
    ensures MonitorSound(Step(s, c, ch).cores[d], Step(s, c, ch).locked)
  {
    LockStep(s, c, ch);
    if d != c {
      OthersStay(s, c, ch, d);
    }
  }

  lemma ProgressKept(s: System, c: nat, ch: Choice, d: nat)
    requires Inv(s) && c < |s.cores| && d < |s.cores| && Shape(Step(s, c, ch))
    ensures |Step(s, c, ch).cores| == |s.cores| && Progress(Step(s, c, ch), Step(s, c, ch).cores[d])
  {
    if d == c {
      OwnProgress(s, c, ch);
    } else {
      OthersStay(s, c, ch, d);
      if !HoldsLock(s.cores[c].at) {
        OnlyHolderChanges(s, c, ch);
        assert Progress(s, s.cores[d]);
      } else {
        assert !HoldsLock(s.cores[d].at);
      }
    }
  }

  lemma OwnProgress(s: System, c: nat, ch: Choice)
    requires Shape(s) && c < |s.cores| && Progress(s, s.cores[c])
    ensures var s' := Step(s, c, ch);
            Shape(s') && |s'.cores| == |s.cores| && Progress(s', s'.cores[c])
  {
  }

  /** The refinement: seen through `Pending`, a step enqueues one job, dequeues the oldest
      job, or changes nothing. A submit is dropped exactly when 15 jobs are pending, and a
      pop comes back empty exactly when none is. */
  lemma StepRefines(s: System, c: nat, ch: Choice)
    requires Shape(s) && RingHolds(s) && c < |s.cores| && Progress(s, s.cores[c])
    ensures var s', p := Step(s, c, ch), s.cores[c].at;
            && Shape(s') && RingHolds(s')
            && (p.PutTail? ==> s.cores[c].op.Submit? && Pending(s') == Pending(s) + [s.cores[c].op.job])
            && (p.PutHead? ==> Pending(s) == [p.job] + Pending(s'))
            && (!p.PutTail? && !p.PutHead? ==> Pending(s') == Pending(s))
            && (p.TestFull? ==> (s'.cores[c].at == Unlock(Dropped) <==> |Pending(s)| == 15))
            && (p.TestEmpty? ==> (s'.cores[c].at == Unlock(Nothing) <==> Pending(s) == []))
  {
    hide Step;
    var p := s.cores[c].at;
    if p.PutTail? {
      EnqueueStep(s, c, ch);
    } else if p.PutHead? {
      DequeueStep(s, c, ch);
    } else if p.PutFn? || p.PutArg? {
      FillStep(s, c, ch);
    } else {
      QuietStep(s, c, ch);
    }
  }

  /** The slot after the tail is the head exactly when 15 jobs wait. */
  lemma RingFull(head: nat, tail: nat, fns: seq<nat>, args: seq<nat>, q: seq<Job>)
    requires Ring(head, tail, fns, args, q)
    ensures (tail + 1) % 16 == head <==> |q| == 15
    ensures (head == tail <==> q == []) && |q| <= 15
  {
  }

  lemma RingEnqueue(head: nat, tail: nat, fns: seq<nat>, args: seq<nat>, q: seq<Job>)
    requires Ring(head, tail, fns, args, q) && |q| < 15
    ensures Ring(head, (tail + 1) % 16, fns, args, q + [Job(fns[tail], args[tail])])
  {
  }

  lemma RingDequeue(head: nat, tail: nat, fns: seq<nat>, args: seq<nat>, q: seq<Job>)
    requires Ring(head, tail, fns, args, q) && q != []
    ensures q[0] == Job(fns[head], args[head]) && Ring((head + 1) % 16, tail, fns, args, q[1..])
  {
    assert Job(fns[(head + 0) % 16], args[(head + 0) % 16]) == q[0];
    forall i | 0 <= i < |q| - 1
      ensures Job(fns[((head + 1) % 16 + i) % 16], args[((head + 1) % 16 + i) % 16]) == q[1..][i]
    {
      NextHead(head, i);
    }
  }

  lemma NextHead(head: nat, i: nat)
    ensures ((head + 1) % 16 + i) % 16 == (head + (i + 1)) % 16
  {
  }

  /** Filling the slot at the tail leaves every waiting job alone. */
  lemma RingFill(head: nat, tail: nat, fns: seq<nat>, args: seq<nat>, fns': seq<nat>, args': seq<nat>, q: seq<Job>)
    requires Ring(head, tail, fns, args, q) && |fns'| == |args'| == JOB_QUEUE
    requires forall i :: 0 <= i < JOB_QUEUE && i != tail ==> fns'[i] == fns[i] && args'[i] == args[i]
    ensures Ring(head, tail, fns', args', q)
  {
  }

  lemma EnqueueStep(s: System, c: nat, ch: Choice)
    requires Shape(s) && RingHolds(s) && c < |s.cores| && Progress(s, s.cores[c]) && s.cores[c].at.PutTail?
    ensures var s' := Step(s, c, ch);
            Shape(s') && RingHolds(s') && Pending(s') == Pending(s) + [s.cores[c].op.job]
  {
    hide Ring;
    var s', q := Step(s, c, ch), Pending(s);
    RingFull(s.head, s.tail, s.fns, s.args, q);
    RingEnqueue(s.head, s.tail, s.fns, s.args, q);
    assert Pending(s') == q + [s.cores[c].op.job];
  }

  lemma DequeueStep(s: System, c: nat, ch: Choice)
    requires Shape(s) && RingHolds(s) && c < |s.cores| && Progress(s, s.cores[c]) && s.cores[c].at.PutHead?
    ensures var s' := Step(s, c, ch);
            Shape(s') && RingHolds(s') && Pending(s) == [s.cores[c].at.job] + Pending(s')
  {
    hide Ring;
    var s', q := Step(s, c, ch), Pending(s);
    RingFull(s.head, s.tail, s.fns, s.args, q);
    RingDequeue(s.head, s.tail, s.fns, s.args, q);
    assert s.accepted[|s.popped|] == q[0] == s.cores[c].at.job;
    assert Pending(s') == q[1..];
  }

  lemma FillStep(s: System, c: nat, ch: Choice)
    requires Shape(s) && RingHolds(s) && c < |s.cores| && (s.cores[c].at.PutFn? || s.cores[c].at.PutArg?)
    requires Progress(s, s.cores[c])
    ensures var s' := Step(s, c, ch);
            Shape(s') && RingHolds(s') && Pending(s') == Pending(s)
  {
    hide Ring;
    var s' := Step(s, c, ch);
    RingFill(s.head, s.tail, s.fns, s.args, s'.fns, s'.args, Pending(s));
  }

  lemma QuietStep(s: System, c: nat, ch: Choice)
    requires Shape(s) && RingHolds(s) && c < |s.cores| && Progress(s, s.cores[c])
    requires var p := s.cores[c].at; !p.PutTail? && !p.PutHead? && !p.PutFn? && !p.PutArg?
    ensures var s', p := Step(s, c, ch), s.cores[c].at;
            && Shape(s') && RingHolds(s') && Pending(s') == Pending(s)
            && (p.TestFull? ==> (s'.cores[c].at == Unlock(Dropped) <==> |Pending(s)| == 15))
            && (p.TestEmpty? ==> (s'.cores[c].at == Unlock(Nothing) <==> Pending(s) == []))
  {
    hide Ring;
    RingFull(s.head, s.tail, s.fns, s.args, Pending(s));
  }

  lemma StepKeepsInv(s: System, c: nat, ch: Choice)
    requires Inv(s) && c < |s.cores|
    ensures Inv(Step(s, c, ch)) && |Step(s, c, ch).cores| == |s.cores|
  {
    hide Step, Progress, RingHolds, MonitorSound, MutualExclusion;
    var s' := Step(s, c, ch);
    LockStep(s, c, ch);
    StepRefines(s, c, ch);
    ExclusionKept(s, c, ch);
    forall d | 0 <= d < |s.cores|
      ensures |s'.cores| == |s.cores| && MonitorSound(s'.cores[d], s'.locked) && Progress(s', s'.cores[d])
    {
      MonitorsKept(s, c, ch, d);
      ProgressKept(s, c, ch, d);
    }
  }

  // ---- Conservation -----------------------------------------------------------

  /** The job a core has taken out and not yet run. */
  function InHand(k: Core): multiset<Job> {
    match k.at
    case Unlock(Got(job)) => multiset{job}
    case Run(job) => multiset{job}
    case _ => multiset{}
  }

  function AllInHand(cores: seq<Core>): multiset<Job> {
    if cores == [] then multiset{} else InHand(cores[0]) + AllInHand(cores[1..])
  }

  /** Every popped job has been run or is in the hand of exactly one core. */
  predicate Conserved(s: System) {
    multiset(s.popped) == multiset(s.executed) + AllInHand(s.cores)
  }

  lemma {:induction false} InHandUpdate(cores: seq<Core>, cores': seq<Core>, c: nat)
    requires |cores'| == |cores| && c < |cores|
    requires forall i :: 0 <= i < |cores| && i != c ==> cores'[i].at == cores[i].at
    ensures AllInHand(cores') + InHand(cores[c]) == AllInHand(cores) + InHand(cores'[c])
  {
    if c > 0 {
      InHandUpdate(cores[1..], cores'[1..], c - 1);
      var x, a, a' := InHand(cores[0]), AllInHand(cores[1..]), AllInHand(cores'[1..]);
      assert InHand(cores'[0]) == x;
      assert (x + a') + InHand(cores[c]) == x + (a' + InHand(cores[c]));
      assert (x + a) + InHand(cores'[c]) == x + (a + InHand(cores'[c]));
    } else {
      InHandSame(cores[1..], cores'[1..]);
    }
  }

  lemma {:induction false} InHandSame(cores: seq<Core>, cores': seq<Core>)
    requires |cores'| == |cores| && forall i :: 0 <= i < |cores| ==> cores'[i].at == cores[i].at
    ensures AllInHand(cores') == AllInHand(cores)
  {
    if cores != [] {
      InHandSame(cores[1..], cores'[1..]);
    }
  }

  function TakenBy(p: Phase): seq<Job> {
    if p.PutHead? then [p.job] else []
  }

  function RunBy(p: Phase): seq<Job> {
    if p.Run? then [p.job] else []
  }

  lemma HistoryStep(s: System, c: nat, ch: Choice)
    requires Shape(s) && c < |s.cores|
    ensures var s', p := Step(s, c, ch), s.cores[c].at;
            |s'.cores| == |s.cores| && s'.popped == s.popped + TakenBy(p) && s'.executed == s.executed + RunBy(p)
  {
    assert s.popped + [] == s.popped && s.executed + [] == s.executed;
  }

  /** Only taking a job out puts one in a core's hand, and only running it takes it away. */
  lemma PhaseStep(s: System, c: nat, ch: Choice)
    requires Shape(s) && c < |s.cores|
    ensures |Step(s, c, ch).cores| == |s.cores|
    ensures var p, p' := s.cores[c].at, Step(s, c, ch).cores[c].at;
            match p
            case PutHead(job) => p' == Unlock(Got(job))
            case Unlock(o) => p' == if o.Got? then Run(o.job) else Idle
            case Run(_) => p' == Idle
            case _ => !p'.Run? && (p'.Unlock? ==> !p'.outcome.Got?)
  {
  }

  lemma HandStep(s: System, c: nat, ch: Choice)
    requires Shape(s) && c < |s.cores|
    ensures var k, k' := s.cores[c], Step(s, c, ch).cores[c];
            InHand(k') + multiset(RunBy(k.at)) == InHand(k) + multiset(TakenBy(k.at))
  {
    hide Step;
    var p := s.cores[c].at;
    PhaseStep(s, c, ch);
    var hand, hand' := InHand(s.cores[c]), InHand(Step(s, c, ch).cores[c]);
    if p.PutHead? {
      assert hand == multiset{} && hand' == multiset{p.job};
    } else if p.Run? {
      assert hand == multiset{p.job} && hand' == multiset{};
    } else {
      assert hand == hand';
    }
  }

  lemma ConservedKept(s: System, c: nat, ch: Choice)
    requires Shape(s) && c < |s.cores| && Conserved(s)
    ensures Conserved(Step(s, c, ch))
  {
    hide Step, InHand, TakenBy, RunBy;
    var s', p := Step(s, c, ch), s.cores[c].at;
    HistoryStep(s, c, ch);
    HandStep(s, c, ch);
    forall d | 0 <= d < |s.cores| && d != c
      ensures s'.cores[d].at == s.cores[d].at
    {
      OthersStay(s, c, ch, d);
    }
    InHandUpdate(s.cores, s'.cores, c);
    Balance(multiset(s.popped), multiset(s.executed), AllInHand(s.cores), AllInHand(s'.cores), InHand(s.cores[c]),
            InHand(s'.cores[c]), multiset(TakenBy(p)), multiset(RunBy(p)));
  }

  lemma Balance(popped: multiset<Job>, executed: multiset<Job>, all: multiset<Job>, all': multiset<Job>,
                one: multiset<Job>, one': multiset<Job>, taken: multiset<Job>, run: multiset<Job>)
    requires popped == executed + all && all' + one == all + one' && one' + run == one + taken
    ensures popped + taken == executed + run + all'
  {
    forall j: Job
      ensures (popped + taken)[j] == (executed + run + all')[j]
    {
      assert (all' + one)[j] == (all + one')[j] && (one' + run)[j] == (one + taken)[j];
    }
  }

  // ---- Whole runs -------------------------------------------------------------

  datatype Move = Move(core: nat, choice: Choice)

  predicate Schedule(n: nat, moves: seq<Move>) {
    forall i :: 0 <= i < |moves| ==> moves[i].core < n
  }

  /** The state after `moves`, from the state smp_init leaves. */
  function After(n: nat, fns: seq<nat>, args: seq<nat>, moves: seq<Move>): (s: System)
    requires |fns| == |args| == JOB_QUEUE && Schedule(n, moves)
    ensures Inv(s) && |s.cores| == n
    decreases |moves|
  {
    if moves == [] then
      System(0, 0, 0, fns, args, seq(n, _ => Core(Pop, Idle, false)), [], [], [])
    else
      var m := moves[|moves| - 1];
      var s := After(n, fns, args, moves[..|moves| - 1]);
      StepKeepsInv(s, m.core, m.choice);
      Step(s, m.core, m.choice)
  }

  /** Linearisability over every interleaving of any number of cores: mutual exclusion,
      popped jobs are the accepted ones in order, at most 15 wait, and every accepted job is
      waiting, in one core's hand, or run. */
  lemma {:induction false} EveryRun(n: nat, fns: seq<nat>, args: seq<nat>, moves: seq<Move>)
    requires |fns| == |args| == JOB_QUEUE && Schedule(n, moves)
    ensures var s := After(n, fns, args, moves);
            && MutualExclusion(s)
            && s.popped <= s.accepted && |Pending(s)| <= 15
            && multiset(s.accepted) == multiset(s.executed) + AllInHand(s.cores) + multiset(Pending(s))
    decreases |moves|
  {
    var s := After(n, fns, args, moves);
    AlwaysConserved(n, fns, args, moves);
    assert s.accepted == s.popped + Pending(s);
  }

  lemma {:induction false} AlwaysConserved(n: nat, fns: seq<nat>, args: seq<nat>, moves: seq<Move>)
    requires |fns| == |args| == JOB_QUEUE && Schedule(n, moves)
    ensures Conserved(After(n, fns, args, moves))
    decreases |moves|
  {
    hide Step, Inv;
    if moves == [] {
      NothingInHand(After(n, fns, args, moves).cores);
    } else {
      var m := moves[|moves| - 1];
      var s := After(n, fns, args, moves[..|moves| - 1]);
      AlwaysConserved(n, fns, args, moves[..|moves| - 1]);
      InvShape(s);
      ConservedKept(s, m.core, m.choice);
    }
  }

  lemma InvShape(s: System)
    requires Inv(s)
    ensures Shape(s)
  {
  }

  lemma NothingInHand(cores: seq<Core>)
    requires forall i :: 0 <= i < |cores| ==> cores[i].at.Idle?
    ensures AllInHand(cores) == multiset{}
  {
  }
}
