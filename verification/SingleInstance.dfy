/**
 Any number of daemon processes, each with one DaemonLoop and any number of threads that call
 runLoop, and one lock file.  flock locks belong to open file descriptions: closing the last
 descriptor of one, or the end of its process, releases what it holds.
 */
module SingleInstance {
  import opened Prelude

  /** Where a thread stands in runLoop; Idle is outside of it. */
  datatype Pc = Idle | TermCheck | Opening | Locking | Closing | Checking | LoopHead | InAction

  /** One process: the object's two fields, its open descriptions of the lock file, its threads. */
  datatype Proc = Proc(loopRunning: bool, lockFD: int, open: set<int>, threads: seq<Pc>)

  /** `holder` is the description that holds the lock; `next` numbers the descriptions, from 1. */
  datatype Sys = Sys(procs: seq<Proc>, holder: Option<int>, next: int)

  /**
   A thread moves: `ok` says whether what it does goes well, `alt` picks the kind of failure.
   A process is started, or ends at any point; its DaemonLoop is destroyed when no thread is in it.
   */
  datatype Step = Move(p: nat, t: nat, ok: bool, alt: bool) | Start(threads: nat) | End(p: nat) | Destroy(p: nat)

  predicate Enabled(s: Sys, step: Step) {
    match step
    case Move(p, t, _, _) => p < |s.procs| && t < |s.procs[p].threads|
    case Start(_) => true
    case End(p) => p < |s.procs|
    case Destroy(p) => p < |s.procs| && forall t :: 0 <= t < |s.procs[p].threads| ==> s.procs[p].threads[t].Idle?
  }

  /** The lock after these descriptions are closed. */
  function Released(holder: Option<int>, closed: set<int>): Option<int> {
    if holder.Some? && holder.value in closed then None else holder
  }

  function With(s: Sys, p: nat, proc: Proc): Sys
    requires p < |s.procs|
  {
    s.(procs := s.procs[p := proc])
  }

  /** runLoop returns, and has left loopRunning like this. */
  function Return(proc: Proc, t: nat, loopRunning: bool): Proc
    requires t < |proc.threads|
  {
    proc.(loopRunning := loopRunning, threads := proc.threads[t := Idle])
  }

  function At(proc: Proc, t: nat, pc: Pc): Proc
    requires t < |proc.threads|
  {
    proc.(threads := proc.threads[t := pc])
  }

  /** One step of runLoop; `hasLock` says whether a lock path is configured. */
  function Moved(hasLock: bool, s: Sys, p: nat, t: nat, ok: bool, alt: bool): Sys
    requires p < |s.procs| && t < |s.procs[p].threads|
  {
    var proc := s.procs[p];
    match proc.threads[t]
    case Idle =>
      if proc.loopRunning then s else With(s, p, At(proc, t, TermCheck).(loopRunning := true))
    case TermCheck =>
      With(s, p, if !ok then Return(proc, t, false) else At(proc, t, if hasLock then Opening else Checking))
    case Opening =>
      if ok then With(s, p, At(proc, t, Locking).(lockFD := s.next, open := proc.open + {s.next})).(next := s.next + 1)
      else With(s, p, Return(proc, t, true).(lockFD := if alt then -1 else 0))
    case Locking =>
      if ok && s.holder in {None, Some(proc.lockFD)}
      then With(s, p, At(proc, t, Checking)).(holder := Some(proc.lockFD))
      else With(s, p, At(proc, t, Closing))
    case Closing =>
      With(s, p, Return(proc, t, true).(lockFD := 0, open := proc.open - {proc.lockFD}))
        .(holder := Released(s.holder, {proc.lockFD}))
    case Checking => With(s, p, if ok then At(proc, t, LoopHead) else Return(proc, t, false))
    case LoopHead => With(s, p, if ok then At(proc, t, InAction) else Return(proc, t, alt))
    case InAction => With(s, p, if ok then At(proc, t, LoopHead) else Return(proc, t, false))
  }

  function Next(hasLock: bool, s: Sys, step: Step): Sys
    requires Enabled(s, step)
  {
    match step
    case Move(p, t, ok, alt) => Moved(hasLock, s, p, t, ok, alt)
    case Start(threads) => s.(procs := s.procs + [Proc(false, 0, {}, seq(threads, _ => Idle))])
    case End(p) =>
      var proc := s.procs[p];
      With(s, p, proc.(lockFD := 0, open := {}, threads := [])).(holder := Released(s.holder, proc.open))
    case Destroy(p) =>
      var proc := s.procs[p];
      if proc.lockFD == 0 then With(s, p, proc.(threads := []))
      else
        With(s, p, proc.(lockFD := 0, open := proc.open - {proc.lockFD}, threads := []))
          .(holder := Released(s.holder, {proc.lockFD}))
  }

  /** A run of the system from s. */
  ghost predicate Run(hasLock: bool, s: Sys, steps: seq<Step>)
    decreases |steps|
  {
    steps == [] || (Enabled(s, steps[0]) && Run(hasLock, Next(hasLock, s, steps[0]), steps[1..]))
  }

  ghost function After(hasLock: bool, s: Sys, steps: seq<Step>): Sys
    requires Run(hasLock, s, steps)
    decreases |steps|
  {
    if steps == [] then s else After(hasLock, Next(hasLock, s, steps[0]), steps[1..])
  }

  const NOBODY := Sys([], None, 1)

  // ---- The invariant -------------------------------------------------------------------------

  predicate PastLock(pc: Pc) {
    pc.Checking? || pc.LoopHead? || pc.InAction?
  }

  /** At most one thread of a process is inside runLoop, under the loopRunning flag. */
  ghost predicate OneInside(proc: Proc) {
    && (forall t, u :: 0 <= t < u < |proc.threads| ==> proc.threads[t].Idle? || proc.threads[u].Idle?)
    && (forall t :: 0 <= t < |proc.threads| && !proc.threads[t].Idle? ==> proc.loopRunning)
  }

  /** A thread past the lock has the lock; before that, its description does not hold it. */
  predicate ThreadOk(hasLock: bool, pc: Pc, lockFD: int, open: set<int>, holder: Option<int>) {
    && (pc.Locking? || pc.Closing? ==> lockFD in open && holder != Some(lockFD))
    && (hasLock && PastLock(pc) ==> lockFD in open && holder == Some(lockFD))
  }

  /**
   A process's descriptions are numbered, its lockFD is one of them or none, and its threads are as
   they should be.
   */
  ghost predicate LockOk(hasLock: bool, proc: Proc, holder: Option<int>, next: int) {
    && (forall o :: o in proc.open ==> 1 <= o < next)
    && (proc.lockFD <= 0 || proc.lockFD in proc.open)
    && (forall t :: 0 <= t < |proc.threads| ==> ThreadOk(hasLock, proc.threads[t], proc.lockFD, proc.open, holder))
  }

  predicate HasOpen(procs: seq<Proc>, p: nat, o: int) {
    p < |procs| && o in procs[p].open
  }

  ghost predicate Inv(hasLock: bool, s: Sys) {
    && (forall p :: 0 <= p < |s.procs| ==> OneInside(s.procs[p]))
    && (forall p :: 0 <= p < |s.procs| ==> LockOk(hasLock, s.procs[p], s.holder, s.next))
    && (forall p, q :: 0 <= p < q < |s.procs| ==> s.procs[p].open !! s.procs[q].open)
    && (s.holder.Some? ==> exists p :: HasOpen(s.procs, p, s.holder.value))
    && s.next >= 1
  }

  /** The lock is free, or held by one of these descriptions. */
  predicate FreeOrOf(holder: Option<int>, open: set<int>) {
    holder.None? || holder.value in open
  }

  /** A step may change one process, and the lock only away from or towards that process. */
  ghost predicate Local(s: Sys, p: nat, proc: Proc, holder: Option<int>, next: int)
    requires p < |s.procs|
  {
    && s.next <= next
    && (forall o :: o in proc.open ==> o in s.procs[p].open || s.next <= o)
    && (if holder == s.holder then forall o :: holder == Some(o) && o in s.procs[p].open ==> o in proc.open
        else FreeOrOf(s.holder, s.procs[p].open) && FreeOrOf(holder, proc.open))
  }

  /** Such a step does not disturb another process. */
  lemma OthersUndisturbed(hasLock: bool, s: Sys, p: nat, proc: Proc, holder: Option<int>, next: int, q: nat)
    requires Inv(hasLock, s) && p < |s.procs| && Local(s, p, proc, holder, next)
    requires q < |s.procs| && q != p
    ensures LockOk(hasLock, s.procs[q], holder, next) && s.procs[q].open !! proc.open
  {
    hide OneInside;
    assert LockOk(hasLock, s.procs[q], s.holder, s.next);
    assert s.procs[q].open !! s.procs[p].open;
    forall o | o in s.procs[q].open
      ensures o !in proc.open
    {
      assert o !in s.procs[p].open && o < s.next;
    }
  }

  lemma LocalStepKeepsInv(hasLock: bool, s: Sys, p: nat, proc: Proc, holder: Option<int>, next: int)
    requires Inv(hasLock, s) && p < |s.procs| && Local(s, p, proc, holder, next)
    requires OneInside(proc) && LockOk(hasLock, proc, holder, next)
    ensures Inv(hasLock, s.(procs := s.procs[p := proc], holder := holder, next := next))
  {
    var procs := s.procs[p := proc];
    forall q | 0 <= q < |procs| && q != p
      ensures LockOk(hasLock, procs[q], holder, next) && procs[q].open !! proc.open
    {
      OthersUndisturbed(hasLock, s, p, proc, holder, next, q);
    }
    StillOpen(hasLock, s, p, proc, holder, next, procs);
    hide OneInside, LockOk, Local;
  }

  lemma StillOpen(hasLock: bool, s: Sys, p: nat, proc: Proc, holder: Option<int>, next: int, procs: seq<Proc>)
    requires Inv(hasLock, s) && p < |s.procs| && Local(s, p, proc, holder, next) && procs == s.procs[p := proc]
    ensures holder.Some? ==> exists q :: HasOpen(procs, q, holder.value)
  {
    hide OneInside, LockOk;
    if holder.Some? {
      if holder == s.holder {
        var q :| HasOpen(s.procs, q, s.holder.value);
        assert HasOpen(procs, q, holder.value);
      } else {
        assert HasOpen(procs, p, holder.value);
      }
    }
  }

  /** One thread moving keeps the others outside. */
  lemma ThreadMoves(proc: Proc, t: nat, pc: Pc)
    requires OneInside(proc) && t < |proc.threads| && (!proc.threads[t].Idle? || !proc.loopRunning)
    ensures forall u :: 0 <= u < |proc.threads| && u != t ==> proc.threads[u].Idle?
    ensures OneInside(At(proc, t, pc).(loopRunning := true))
    ensures OneInside(Return(proc, t, false)) && OneInside(Return(proc, t, true))
  {
  }

  lemma MoveKeepsInv(hasLock: bool, s: Sys, p: nat, t: nat, ok: bool, alt: bool)
    requires Inv(hasLock, s) && p < |s.procs| && t < |s.procs[p].threads|
    ensures Inv(hasLock, Moved(hasLock, s, p, t, ok, alt))
  {
    var proc, now := s.procs[p], Moved(hasLock, s, p, t, ok, alt);
    if proc.threads[t].Idle? && proc.loopRunning {
      return;
    }
    MoveStaysInside(hasLock, s, p, t, ok, alt);
    MoveIsLocal(hasLock, s, p, t, ok, alt);
    HeldIsOpen(hasLock, s);
    MoveIsSafe(hasLock, s, p, t, ok, alt);
    OnlyOneMatters(hasLock, now.procs[p], t, now.holder, now.next);
    LocalStepKeepsInv(hasLock, s, p, now.procs[p], now.holder, now.next);
    hide Inv, Local, LockOk, OneInside;
    assert now == s.(procs := s.procs[p := now.procs[p]], holder := now.holder, next := now.next);
  }

  /** With every other thread outside, only the one that moved matters. */
  lemma OnlyOneMatters(hasLock: bool, proc: Proc, t: nat, holder: Option<int>, next: int)
    requires t < |proc.threads| && forall u :: 0 <= u < |proc.threads| && u != t ==> proc.threads[u].Idle?
    requires forall o :: o in proc.open ==> 1 <= o < next
    requires proc.lockFD <= 0 || proc.lockFD in proc.open
    requires ThreadOk(hasLock, proc.threads[t], proc.lockFD, proc.open, holder)
    ensures LockOk(hasLock, proc, holder, next)
  {
  }

  lemma MoveIsLocal(hasLock: bool, s: Sys, p: nat, t: nat, ok: bool, alt: bool)
    requires Inv(hasLock, s) && p < |s.procs| && t < |s.procs[p].threads|
    requires !s.procs[p].threads[t].Idle? || !s.procs[p].loopRunning
    ensures var now := Moved(hasLock, s, p, t, ok, alt);
            p < |now.procs| && Local(s, p, now.procs[p], now.holder, now.next)
  {
    var proc := s.procs[p];
    assert LockOk(hasLock, proc, s.holder, s.next);
    assert ThreadOk(hasLock, proc.threads[t], proc.lockFD, proc.open, s.holder);
    hide Inv, OneInside, LockOk;
  }

  lemma MoveStaysInside(hasLock: bool, s: Sys, p: nat, t: nat, ok: bool, alt: bool)
    requires p < |s.procs| && OneInside(s.procs[p]) && t < |s.procs[p].threads|
    requires !s.procs[p].threads[t].Idle? || !s.procs[p].loopRunning
    ensures var now := Moved(hasLock, s, p, t, ok, alt);
            && p < |now.procs| && OneInside(now.procs[p]) && t < |now.procs[p].threads|
            && forall u :: 0 <= u < |now.procs[p].threads| && u != t ==> now.procs[p].threads[u].Idle?
  {
    var proc, now := s.procs[p], Moved(hasLock, s, p, t, ok, alt);
    ThreadMoves(proc, t, now.procs[p].threads[t]);
  }

  lemma MoveIsSafe(hasLock: bool, s: Sys, p: nat, t: nat, ok: bool, alt: bool)
    requires p < |s.procs| && t < |s.procs[p].threads| && LockOk(hasLock, s.procs[p], s.holder, s.next)
    requires s.next >= 1 && (s.holder.Some? ==> 1 <= s.holder.value < s.next)
    ensures var now := Moved(hasLock, s, p, t, ok, alt);
            && p < |now.procs| && t < |now.procs[p].threads|
            && (forall o :: o in now.procs[p].open ==> 1 <= o < now.next)
            && (now.procs[p].lockFD <= 0 || now.procs[p].lockFD in now.procs[p].open)
            && ThreadOk(hasLock, now.procs[p].threads[t], now.procs[p].lockFD, now.procs[p].open, now.holder)
  {
    var proc := s.procs[p];
    assert ThreadOk(hasLock, proc.threads[t], proc.lockFD, proc.open, s.holder);
  }

  lemma HeldIsOpen(hasLock: bool, s: Sys)
    requires Inv(hasLock, s)
    ensures s.holder.Some? ==> 1 <= s.holder.value < s.next
    ensures s.next >= 1
  {
  }

  /** Without its threads, a process may close what it has open. */
  lemma GoneKeepsInv(hasLock: bool, s: Sys, p: nat, proc: Proc, closed: set<int>)
    requires Inv(hasLock, s) && p < |s.procs|
    requires proc.threads == [] && proc.lockFD == 0 && proc.open == s.procs[p].open - closed
    requires forall o :: o in closed ==> o <= 0 || o in s.procs[p].open
    ensures Inv(hasLock, With(s, p, proc).(holder := Released(s.holder, closed)))
  {
    HeldIsOpen(hasLock, s);
    assert LockOk(hasLock, s.procs[p], s.holder, s.next);
    assert LockOk(hasLock, proc, Released(s.holder, closed), s.next);
    LocalStepKeepsInv(hasLock, s, p, proc, Released(s.holder, closed), s.next);
    hide Inv, LockOk;
  }

  lemma StartKeepsInv(hasLock: bool, s: Sys, threads: nat)
    requires Inv(hasLock, s)
    ensures Inv(hasLock, Next(hasLock, s, Start(threads)))
  {
    var now := Next(hasLock, s, Start(threads));
    if s.holder.Some? {
      var q :| HasOpen(s.procs, q, s.holder.value);
      assert HasOpen(now.procs, q, s.holder.value);
    }
  }

  lemma StepKeepsInv(hasLock: bool, s: Sys, step: Step)
    requires Inv(hasLock, s) && Enabled(s, step)
    ensures Inv(hasLock, Next(hasLock, s, step))
  {
    match step
    case Move(p, t, ok, alt) => MoveKeepsInv(hasLock, s, p, t, ok, alt);
    case Start(threads) => StartKeepsInv(hasLock, s, threads);
    case End(p) => GoneKeepsInv(hasLock, s, p, s.procs[p].(lockFD := 0, open := {}, threads := []), s.procs[p].open);
    case Destroy(p) =>
      var proc := s.procs[p];
      if proc.lockFD == 0 {
        GoneKeepsInv(hasLock, s, p, proc.(threads := []), {});
      } else {
        GoneKeepsInv(hasLock, s, p, proc.(lockFD := 0, open := proc.open - {proc.lockFD}, threads := []),
            {proc.lockFD});
      }
  }

  lemma {:induction false} RunKeepsInv(hasLock: bool, s: Sys, steps: seq<Step>)
    requires Inv(hasLock, s) && Run(hasLock, s, steps)
    ensures Inv(hasLock, After(hasLock, s, steps))
    decreases |steps|
  {
    hide Inv, Next;
    if steps != [] {
      StepKeepsInv(hasLock, s, steps[0]);
      RunKeepsInv(hasLock, Next(hasLock, s, steps[0]), steps[1..]);
    }
  }

  // ---- What follows --------------------------------------------------------------------------

  ghost predicate Reachable(hasLock: bool, s: Sys) {
    exists steps :: Run(hasLock, NOBODY, steps) && After(hasLock, NOBODY, steps) == s
  }

  lemma ReachableInv(hasLock: bool, s: Sys)
    requires Reachable(hasLock, s)
    ensures Inv(hasLock, s)
  {
    var steps :| Run(hasLock, NOBODY, steps) && After(hasLock, NOBODY, steps) == s;
    RunKeepsInv(hasLock, NOBODY, steps);
  }

  /** Thread t of process p is past the lock: in the checks, at the loop head, or inside loopAction. */
  predicate Looping(s: Sys, p: nat, t: nat) {
    p < |s.procs| && t < |s.procs[p].threads| && PastLock(s.procs[p].threads[t])
  }

  /** In the whole system at most one thread is past the lock; within one process, even without a lock file. */
  lemma SingleInstance(hasLock: bool, s: Sys, p: nat, t: nat, q: nat, u: nat)
    requires Reachable(hasLock, s) && Looping(s, p, t) && Looping(s, q, u)
    ensures hasLock ==> p == q
    ensures p == q ==> t == u
  {
    ReachableInv(hasLock, s);
    assert OneInside(s.procs[p]) && LockOk(hasLock, s.procs[p], s.holder, s.next);
    assert LockOk(hasLock, s.procs[q], s.holder, s.next);
    hide Reachable, Run, After;
  }

  /** What a loser closes is never what holds the lock. */
  lemma LoserReleasesNothing(hasLock: bool, s: Sys, p: nat, t: nat, ok: bool, alt: bool)
    requires Reachable(hasLock, s) && p < |s.procs| && t < |s.procs[p].threads| && s.procs[p].threads[t].Closing?
    ensures var now := Moved(hasLock, s, p, t, ok, alt);
            now.holder == s.holder && s.procs[p].lockFD in s.procs[p].open && s.procs[p].lockFD !in now.procs[p].open
  {
    ReachableInv(hasLock, s);
    assert LockOk(hasLock, s.procs[p], s.holder, s.next);
    hide Reachable, Run, After, Inv;
  }

  /** A held lock changes hands only when the process that holds it ends, or destroys its DaemonLoop. */
  lemma OnlyOwnerReleases(hasLock: bool, s: Sys, step: Step)
    requires Inv(hasLock, s) && Enabled(s, step) && s.holder.Some?
    ensures Next(hasLock, s, step).holder != s.holder ==>
              (step.End? || step.Destroy?) && s.holder.value in s.procs[step.p].open
  {
    HeldIsOpen(hasLock, s);
    if step.Move? || step.Destroy? {
      assert OneInside(s.procs[step.p]) && LockOk(hasLock, s.procs[step.p], s.holder, s.next);
    }
    hide Inv;
  }

  /** Process p still has the description that holds the lock, though no thread of it is past the lock. */
  ghost predicate KeptLock(s: Sys, p: nat) {
    && p < |s.procs| && s.holder.Some? && s.holder.value in s.procs[p].open
    && (forall t :: 0 <= t < |s.procs[p].threads| ==> !PastLock(s.procs[p].threads[t]))
  }

  lemma OtherStepsElsewhere(hasLock: bool, s: Sys, step: Step, p: nat)
    requires Enabled(s, step) && p < |s.procs| && (!step.Start? ==> step.p != p)
    ensures p < |Next(hasLock, s, step).procs| && Next(hasLock, s, step).procs[p] == s.procs[p]
  {
  }

  /** A thread of p that meets the lock held elsewhere stays outside, and closes only its own description. */
  lemma ShutOut(s: Sys, p: nat, t: nat, ok: bool, alt: bool)
    requires KeptLock(s, p) && LockOk(true, s.procs[p], s.holder, s.next) && t < |s.procs[p].threads|
    ensures KeptLock(Moved(true, s, p, t, ok, alt).(holder := s.holder), p)
  {
    assert ThreadOk(true, s.procs[p].threads[t], s.procs[p].lockFD, s.procs[p].open, s.holder);
    hide LockOk;
  }

  lemma KeptLockStep(s: Sys, step: Step, p: nat)
    requires Inv(true, s) && KeptLock(s, p) && Enabled(s, step)
    requires step != End(p) && step != Destroy(p)
    ensures KeptLock(Next(true, s, step), p)
  {
    OnlyOwnerReleases(true, s, step);
    assert LockOk(true, s.procs[p], s.holder, s.next);
    if !step.Start? && step.p == p {
      ShutOut(s, p, step.t, step.ok, step.alt);
    } else {
      OtherStepsElsewhere(true, s, step, p);
    }
    hide LockOk, OneInside, Moved;
  }

  lemma {:induction false} KeptLockRun(s: Sys, steps: seq<Step>, p: nat)
    requires Inv(true, s) && KeptLock(s, p) && Run(true, s, steps)
    requires End(p) !in steps && Destroy(p) !in steps
    ensures KeptLock(After(true, s, steps), p)
    decreases |steps|
  {
    hide Inv, KeptLock, Next;
    if steps != [] {
      StepKeepsInv(true, s, steps[0]);
      KeptLockStep(s, steps[0], p);
      KeptLockRun(Next(true, s, steps[0]), steps[1..], p);
    }
  }

  /**
   A process whose loop returns keeps the lock; and until it ends or destroys its DaemonLoop
   no later run in it gets past the lock again: its own first description shuts it out.
   */
  lemma NoSecondRun(s: Sys, p: nat, t: nat, alt: bool, steps: seq<Step>)
    requires Reachable(true, s) && Looping(s, p, t)
    requires var returned := Moved(true, s, p, t, false, alt);
             Run(true, returned, steps) && End(p) !in steps && Destroy(p) !in steps
    ensures var end := After(true, Moved(true, s, p, t, false, alt), steps);
            && KeptLock(end, p) && end.holder == Some(s.procs[p].lockFD)
            && forall u :: !Looping(end, p, u)
  {
    var returned := Moved(true, s, p, t, false, alt);
    ReachableInv(true, s);
    StepKeepsInv(true, s, Move(p, t, false, alt));
    LoopReturns(s, p, t, alt);
    KeptLockRun(returned, steps, p);
    SameHolder(returned, steps, p);
    hide Reachable, Run, After, Inv, Moved;
  }

  lemma LoopReturns(s: Sys, p: nat, t: nat, alt: bool)
    requires Inv(true, s) && Looping(s, p, t)
    ensures var returned := Moved(true, s, p, t, false, alt);
            KeptLock(returned, p) && returned.holder == Some(s.procs[p].lockFD)
  {
    assert OneInside(s.procs[p]) && LockOk(true, s.procs[p], s.holder, s.next);
    assert ThreadOk(true, s.procs[p].threads[t], s.procs[p].lockFD, s.procs[p].open, s.holder);
    hide Inv, LockOk;
  }

  lemma {:induction false} SameHolder(s: Sys, steps: seq<Step>, p: nat)
    requires Inv(true, s) && KeptLock(s, p) && Run(true, s, steps)
    requires End(p) !in steps && Destroy(p) !in steps
    ensures After(true, s, steps).holder == s.holder
    decreases |steps|
  {
    if steps != [] {
      var step := steps[0];
      OnlyOwnerReleases(true, s, step);
      if step.End? || step.Destroy? {
        assert step.p < p ==> s.procs[step.p].open !! s.procs[p].open;
        assert step.p > p ==> s.procs[p].open !! s.procs[step.p].open;
      }
      hide Inv, KeptLock, Next;
      StepKeepsInv(true, s, step);
      KeptLockStep(s, step, p);
      SameHolder(Next(true, s, step), steps[1..], p);
    }
  }

  /**
   Destroying a DaemonLoop whose process kept the lock frees it exactly if lockFD still names the
   description that holds it.
   */
  lemma DestroyFreesIff(s: Sys, p: nat)
    requires Reachable(true, s) && KeptLock(s, p) && Enabled(s, Destroy(p))
    ensures Next(true, s, Destroy(p)).holder.None? <==> s.holder == Some(s.procs[p].lockFD)
  {
    ReachableInv(true, s);
    HeldIsOpen(true, s);
    hide Reachable, Run, After, Inv;
  }

  /** After a second run was shut out, it does not: lockFD is 0 then, and only the end of the process frees the lock. */
  lemma ShutOutRunKeepsLock(s: Sys, p: nat, t: nat, alt: bool)
    requires Reachable(true, s) && KeptLock(s, p) && t < |s.procs[p].threads| && s.procs[p].threads[t].Closing?
    ensures var shut := Moved(true, s, p, t, true, alt);
            && KeptLock(shut, p) && Enabled(shut, Destroy(p)) && shut.procs[p].lockFD == 0
            && Next(true, shut, Destroy(p)).holder == s.holder
            && Next(true, shut, End(p)).holder.None?
  {
    ReachableInv(true, s);
    assert LockOk(true, s.procs[p], s.holder, s.next) && OneInside(s.procs[p]);
    OnlyOwnerReleases(true, s, Move(p, t, true, alt));
    ShutOut(s, p, t, true, alt);
    hide Reachable, Run, After, Inv, LockOk;
  }
}
