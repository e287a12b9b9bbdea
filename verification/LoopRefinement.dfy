/**
 runLoop as a single thread of SingleInstance's system: every result that DaemonLoop's
 reference definition gives is reached by steps of that system, with as many entries into
 loopAction, and leaves loopRunning the same.
 */
module LoopRefinement {
  import opened ProcessTracking
  import opened DaemonLoop
  import opened SingleInstance

  /** Thread t of process p is there, with loopRunning as given. */
  predicate Here(s: Sys, p: nat, t: nat, pc: Pc, loopRunning: bool) {
    && p < |s.procs| && t < |s.procs[p].threads|
    && s.procs[p].threads[t] == pc && s.procs[p].loopRunning == loopRunning
  }

  /** Where a thread is after a run with this result; one that ended the program is gone with its process. */
  predicate Ends(s: Sys, p: nat, t: nat, result: Verdict) {
    match result
    case Pass => Here(s, p, t, LoopHead, true)
    case Exit(_, cleared) => Here(s, p, t, Pc.Idle, !cleared)
    case Aborted => p < |s.procs| && s.procs[p].threads == []
  }

  /** How often the steps take a thread into loopAction. */
  ghost function Entries(hasLock: bool, s: Sys, steps: seq<Step>): nat
    requires Run(hasLock, s, steps)
    decreases |steps|
  {
    if steps == [] then 0
    else
      (if steps[0].Move? && steps[0].ok && s.procs[steps[0].p].threads[steps[0].t].LoopHead? then 1 else 0) +
      Entries(hasLock, Next(hasLock, s, steps[0]), steps[1..])
  }

  lemma Cons(hasLock: bool, s: Sys, step: Step, rest: seq<Step>) returns (steps: seq<Step>)
    requires Enabled(s, step) && Run(hasLock, Next(hasLock, s, step), rest)
    ensures steps == [step] + rest && Run(hasLock, s, steps)
    ensures After(hasLock, s, steps) == After(hasLock, Next(hasLock, s, step), rest)
    ensures Entries(hasLock, s, steps) ==
            (if step.Move? && step.ok && s.procs[step.p].threads[step.t].LoopHead? then 1 else 0) +
            Entries(hasLock, Next(hasLock, s, step), rest)
  {
    steps := [step] + rest;
    assert steps[1..] == rest;
  }

  lemma Single(hasLock: bool, s: Sys, step: Step) returns (steps: seq<Step>)
    requires Enabled(s, step)
    ensures Run(hasLock, s, steps) && After(hasLock, s, steps) == Next(hasLock, s, step)
    ensures Entries(hasLock, s, steps) ==
            if step.Move? && step.ok && s.procs[step.p].threads[step.t].LoopHead? then 1 else 0
  {
    steps := Cons(hasLock, s, step, []);
  }

  /** The thread takes a step and goes on with `rest`. */
  lemma Goes(hasLock: bool, s: Sys, p: nat, t: nat, ok: bool, alt: bool, rest: seq<Step>, result: Verdict)
    returns (steps: seq<Step>)
    requires p < |s.procs| && t < |s.procs[p].threads|
    requires Run(hasLock, Moved(hasLock, s, p, t, ok, alt), rest)
    requires Ends(After(hasLock, Moved(hasLock, s, p, t, ok, alt), rest), p, t, result)
    ensures Run(hasLock, s, steps) && Ends(After(hasLock, s, steps), p, t, result)
    ensures Entries(hasLock, s, steps) ==
            (if ok && s.procs[p].threads[t].LoopHead? then 1 else 0) +
            Entries(hasLock, Moved(hasLock, s, p, t, ok, alt), rest)
  {
    hide Moved, Ends, Run, After, Entries;
    steps := Cons(hasLock, s, Move(p, t, ok, alt), rest);
  }

  lemma Stops(hasLock: bool, s: Sys, p: nat, t: nat, ok: bool, alt: bool, result: Verdict)
    returns (steps: seq<Step>)
    requires p < |s.procs| && t < |s.procs[p].threads| && !(ok && s.procs[p].threads[t].LoopHead?)
    requires Ends(Moved(hasLock, s, p, t, ok, alt), p, t, result)
    ensures Run(hasLock, s, steps) && Ends(After(hasLock, s, steps), p, t, result)
    ensures Entries(hasLock, s, steps) == 0
  {
    hide Moved, Ends, Run, After, Entries;
    steps := Single(hasLock, s, Move(p, t, ok, alt));
  }

  /** The loop, from its head on. */
  lemma {:induction false} LoopRefines(config: Config, parent: Data, startTime: int, ticks: seq<Tick>,
                                       hasLock: bool, s: Sys, p: nat, t: nat)
    returns (steps: seq<Step>)
    requires Here(s, p, t, LoopHead, true)
    ensures Run(hasLock, s, steps)
    ensures Ends(After(hasLock, s, steps), p, t, First(LoopItems(config, parent, startTime, ticks)))
    ensures Entries(hasLock, s, steps) == |LoopCalls(config, parent, startTime, ticks)|
    decreases |ticks|
  {
    if ticks == [] {
      steps := [];
      NothingLeft(config, parent, startTime, ticks);
      return;
    }
    IterationDecided(config, parent, startTime, ticks);
    GuardsDecided(config, parent, startTime, ticks[0]);
    var seen, tick := Seen(config, parent, ticks[0]), ticks[0];
    var guard := First(Guards(config, parent, startTime, tick));
    hide LoopItems, LoopCalls, First, Guards, Seen, Run, After, Entries, Seconds, Alive;
    match guard
    case Exit(_, cleared) =>
      steps := Stops(hasLock, s, p, t, false, !cleared, guard);
    case Aborted =>
      steps := Single(hasLock, s, End(p));
    case Pass =>
      var inAction := Moved(hasLock, s, p, t, true, false);
      if tick.action != 0 {
        steps := Stops(hasLock, inAction, p, t, false, false, Exit(tick.action, true));
        steps := Goes(hasLock, s, p, t, true, false, steps, Exit(tick.action, true));
      } else {
        var again := Moved(hasLock, inAction, p, t, true, false);
        steps := LoopRefines(config, seen.data, startTime, ticks[1..], hasLock, again, p, t);
        var result := First(LoopItems(config, seen.data, startTime, ticks[1..]));
        steps := Goes(hasLock, inAction, p, t, true, false, steps, result);
        steps := Goes(hasLock, s, p, t, true, false, steps, result);
      }
  }

  /**
   The outcome of taking the lock is one that the state of the system allows; `wasOpened` says
   whether open succeeded.
   */
  predicate LockFits(s: Sys, config: Config, lock: Verdict, wasOpened: bool) {
    if config.lockPath.None? then lock.Pass?
    else if lock.Pass? then wasOpened && s.holder.None?
    else lock in {Exit(SUCCESS, false), Exit(DAEMON_ALREADY_RUNNING, false)}
  }

  /** From the checks after the lock. */
  lemma FromChecking(config: Config, own: Data, parent: Data, lock: Verdict, start: Start, ticks: seq<Tick>,
                     s: Sys, p: nat, t: nat)
    returns (steps: seq<Step>)
    requires lock.Pass? && !start.term && Here(s, p, t, Checking, true)
    ensures Run(config.lockPath.Some?, s, steps)
    ensures Ends(After(config.lockPath.Some?, s, steps), p, t,
                 First(RunItems(config, false, own, parent, lock, start, ticks)))
    ensures Entries(config.lockPath.Some?, s, steps) == |RunCalls(config, false, own, parent, lock, start, ticks)|
  {
    var hasLock, result := config.lockPath.Some?, First(StartItems(config, false, own, parent, lock, start));
    StartDecided(config, false, own, parent, lock, start);
    RunDecided(config, false, own, parent, lock, start, ticks);
    hide StartItems, LoopItems, LoopCalls, First, Run, After, Entries, ProcessSecured;
    if result.Pass? {
      steps := LoopRefines(config, parent, start.startTime, ticks, hasLock, Moved(hasLock, s, p, t, true, false), p, t);
      steps := Goes(hasLock, s, p, t, true, false, steps, First(LoopItems(config, parent, start.startTime, ticks)));
    } else {
      steps := Stops(hasLock, s, p, t, false, false, result);
    }
  }

  /** From the opening of the lock file. */
  lemma FromOpening(config: Config, own: Data, parent: Data, lock: Verdict, start: Start, ticks: seq<Tick>,
                    s: Sys, p: nat, t: nat, wasOpened: bool)
    returns (steps: seq<Step>)
    requires config.lockPath.Some? && LockFits(s, config, lock, wasOpened) && !start.term &&
        Here(s, p, t, Pc.Opening, true)
    ensures Run(true, s, steps)
    ensures Ends(After(true, s, steps), p, t, First(RunItems(config, false, own, parent, lock, start, ticks)))
    ensures Entries(true, s, steps) == |RunCalls(config, false, own, parent, lock, start, ticks)|
  {
    StartDecided(config, false, own, parent, lock, start);
    RunDecided(config, false, own, parent, lock, start, ticks);
    var result := First(RunItems(config, false, own, parent, lock, start, ticks));
    hide StartItems, LoopItems, LoopCalls, RunItems, First, Run, After, Entries, ProcessSecured;
    if !wasOpened {
      steps := Stops(true, s, p, t, false, false, lock);
      return;
    }
    var locking := Moved(true, s, p, t, true, false);
    if lock.Pass? {
      steps := FromChecking(config, own, parent, lock, start, ticks, Moved(true, locking, p, t, true, false), p, t);
      steps := Goes(true, locking, p, t, true, false, steps, result);
    } else {
      steps := Stops(true, Moved(true, locking, p, t, false, false), p, t, false, false, lock);
      steps := Goes(true, locking, p, t, false, false, steps, result);
    }
    steps := Goes(true, s, p, t, true, false, steps, result);
  }

  /**
   Every run of the reference definition is a run of one thread in the system: it ends where the
   system says, with the same loopRunning, and calls loopAction as often as the thread enters it.
   */
  lemma RunRefines(config: Config, running: bool, own: Data, parent: Data, lock: Verdict, start: Start,
      ticks: seq<Tick>,
                   s: Sys, p: nat, t: nat, wasOpened: bool)
    returns (steps: seq<Step>)
    requires Here(s, p, t, Pc.Idle, running) && LockFits(s, config, lock, wasOpened)
    ensures Run(config.lockPath.Some?, s, steps)
    ensures Ends(After(config.lockPath.Some?, s, steps), p, t,
                 First(RunItems(config, running, own, parent, lock, start, ticks)))
    ensures Entries(config.lockPath.Some?, s, steps) == |RunCalls(config, running, own, parent, lock, start, ticks)|
  {
    var hasLock, result := config.lockPath.Some?, First(RunItems(config, running, own, parent, lock, start, ticks));
    StartDecided(config, running, own, parent, lock, start);
    RunDecided(config, running, own, parent, lock, start, ticks);
    hide StartItems, LoopItems, LoopCalls, RunItems, First, Run, After, Entries, ProcessSecured;
    if running {
      steps := Stops(hasLock, s, p, t, true, false, result);
      return;
    }
    var inside := Moved(hasLock, s, p, t, true, false);
    if start.term {
      steps := Stops(hasLock, inside, p, t, false, false, result);
    } else {
      var next := Moved(hasLock, inside, p, t, true, false);
      if hasLock {
        steps := FromOpening(config, own, parent, lock, start, ticks, next, p, t, wasOpened);
      } else {
        steps := FromChecking(config, own, parent, lock, start, ticks, next, p, t);
      }
      steps := Goes(hasLock, inside, p, t, true, false, steps, result);
    }
    steps := Goes(hasLock, s, p, t, true, false, steps, result);
  }
}
